/** Rows of the platform's tables, as the check engine reads and writes them. */
module Records {
  import opened Queries

  const ID_WIDTH: nat := 80
  const CATEGORY_WIDTH: nat := 80
  const STATUS_WIDTH: nat := 10
  const DESC_WIDTH: nat := 600

  /** A run still running after this long is taken for stuck. */
  const STALE_RUN_SECONDS: int := 7200

  /** Python's `s[:n]`. */
  function Cut(s: string, n: nat): string {
    if |s| <= n then s else s[..n]
  }

  /** One entry of the `items` list of a report, before any normalisation. */
  datatype ReportItem = ReportItem(id: string, cat: string, status: string, desc: string) {
    function Id(): string { Cut(id, ID_WIDTH) }
    function Shown(): State { State(Cut(status, STATUS_WIDTH), Cut(desc, DESC_WIDTH)) }
  }

  /** What the history engine compares: the category is never compared. */
  datatype State = State(status: string, desc: string)

  datatype Kind = Initial | New | StatusChanged | DescChanged | Gone

  datatype ItemVersion = ItemVersion(
    hostId: int, runId: int, recordedAt: int, item: string, cat: string, kind: Kind,
    beforeStatus: string, status: string, beforeDesc: string, desc: string)
  {
    function Shown(): State { State(status, desc) }
    function Before(): State { State(beforeStatus, beforeDesc) }
  }

  datatype RunStatus = Running | Success | Failed

  datatype Counts = Counts(pass: nat, fail: nat, warn: nat, manual: nat, na: nat)

  datatype CheckRun = CheckRun(
    id: int, hostId: int, status: RunStatus, startedAt: int, finishedAt: Option<int>,
    counts: Counts, total: nat)

  datatype CheckResult = CheckResult(runId: int, item: string, cat: string, status: string, desc: string)

  datatype ResultChange = ResultChange(
    hostId: int, runId: int, detectedAt: int, item: string, cat: string,
    before: string, after: string, desc: string)

  // Filters and columns used by the queries.

  function VersionItem(): ItemVersion -> string { (v: ItemVersion) => v.item }
  function ForItem(iid: string): ItemVersion -> bool { (v: ItemVersion) => v.item == iid }
  function VersionOfHost(h: int): ItemVersion -> bool { (v: ItemVersion) => v.hostId == h }

  function ResultItem(): CheckResult -> string { (r: CheckResult) => r.item }
  function ResultOfRun(run: int): CheckResult -> bool { (r: CheckResult) => r.runId == run }

  function Named(iid: string): ReportItem -> bool { (it: ReportItem) => it.Id() == iid }

  /** Item ids of a report are distinct after the cut to the column width. */
  predicate Distinct(items: seq<ReportItem>) {
    forall i, j :: 0 <= i < j < |items| ==> items[i].Id() != items[j].Id()
  }

  function ReportedIds(items: seq<ReportItem>): set<string> {
    set it | it in items :: it.Id()
  }

  /** What a report says about an item; the last mention wins when an id is repeated. */
  function ReportState(items: seq<ReportItem>, iid: string): (s: Option<State>)
    ensures s.Some? <==> iid in ReportedIds(items)
  {
    if items == [] then None
    else
      var n := |items| - 1;
      assert items == items[..n] + [items[n]];
      if items[n].Id() == iid then Some(items[n].Shown()) else ReportState(items[..n], iid)
  }

  /** The report as a table: item id to the status and description shown for it. */
  function ReportView(items: seq<ReportItem>): map<string, State> {
    map iid | iid in ReportedIds(items) :: ReportState(items, iid).value
  }

  lemma {:induction false} ReportStateOfDistinct(items: seq<ReportItem>, i: nat)
    requires Distinct(items) && i < |items|
    ensures ReportState(items, items[i].Id()) == Some(items[i].Shown())
  {
    if i < |items| - 1 { ReportStateOfDistinct(items[..|items| - 1], i); }
  }

  // ----- what save_report does to a report before storing it -----

  predicate Known(status: string) {
    status == "pass" || status == "fail" || status == "warn" || status == "manual" || status == "na"
  }

  /** An unknown status is stored as manual, so that every item falls under one of the five counts. */
  function Normal(it: ReportItem): ReportItem {
    if Known(it.status) then it else it.(status := "manual")
  }

  function Normalise(): ReportItem -> ReportItem { (it: ReportItem) => Normal(it) }

  /** The switch-off list is matched against the id as reported, before any cut. */
  function Enabled(disabled: set<string>): ReportItem -> bool { (it: ReportItem) => it.id !in disabled }

  function Kept(items: seq<ReportItem>, disabled: set<string>): seq<ReportItem> {
    Collect(Where(items, Enabled(disabled)), Normalise())
  }

  lemma {:induction false} KeptDistinct(raw: seq<ReportItem>, disabled: set<string>)
    requires Distinct(raw)
    ensures Distinct(Kept(raw, disabled))
  {
    if raw != [] {
      var n := |raw| - 1;
      KeptDistinct(raw[..n], disabled);
      var before := Where(raw[..n], Enabled(disabled));
      WhereMembers(raw[..n], Enabled(disabled));
      forall i | 0 <= i < |before| ensures before[i].Id() != raw[n].Id() {
        assert before[i] in raw[..n];
      }
      assert Kept(raw[..n], disabled) == Collect(before, Normalise());
    }
  }

  function StoredRow(run: int, it: ReportItem): CheckResult {
    CheckResult(run, it.Id(), Cut(it.cat, CATEGORY_WIDTH), Cut(it.status, STATUS_WIDTH), Cut(it.desc, DESC_WIDTH))
  }

  function AsRow(run: int): ReportItem -> CheckResult { (it: ReportItem) => StoredRow(run, it) }

  function StoredRows(run: int, items: seq<ReportItem>): seq<CheckResult> {
    Collect(items, AsRow(run))
  }
}
