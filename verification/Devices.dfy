/**
 What the three appliance drivers share: fetching a fixed list of endpoints, some of which
 may refuse, and judging every item of a fixed catalogue from what could be read. What an
 endpoint outage means for the version log is stated here once for all three.
 */
module Devices {
  import opened Queries
  import opened Records
  import opened VersionLog
  import opened VersionReplay

  datatype Status = Pass | Fail | Warn | Manual | NotApplicable {
    function Text(): string {
      match this
      case Pass => "pass"
      case Fail => "fail"
      case Warn => "warn"
      case Manual => "manual"
      case NotApplicable => "na"
    }
  }

  function PassIf(good: bool): Status { if good then Pass else Fail }

  datatype Item<I> = Item(id: I, status: Status)

  /** One endpoint's answer: a body, a refusal (`RuntimeError`), or a lost connection. */
  datatype Reply<+B> = Body(body: B) | Refused | Down

  datatype Outcome<I> = Raised | Report(items: seq<Item<I>>)

  function IdOf<I>(): Item<I> -> I { (it: Item<I>) => it.id }
  function Ids<I>(items: seq<Item<I>>): seq<I> { Collect(items, IdOf()) }

  function Judged<I>(judge: I -> Status): I -> Item<I> { (id: I) => Item(id, judge(id)) }

  /** The catalogue judged item by item: the reference every driver is proved against. */
  function Judgement<I>(catalogue: seq<I>, judge: I -> Status): seq<Item<I>> { Collect(catalogue, Judged(judge)) }

  lemma JudgementIds<I>(catalogue: seq<I>, judge: I -> Status)
    ensures Ids(Judgement(catalogue, judge)) == catalogue
  {
  }

  predicate Once<I(==)>(ids: seq<I>) { forall i, j :: 0 <= i < j < |ids| ==> ids[i] != ids[j] }

  lemma {:induction false} OnceCounts<I>(ids: seq<I>)
    requires Once(ids)
    ensures forall id :: id in ids ==> multiset(ids)[id] == 1
  {
    if ids != [] {
      var n := |ids| - 1;
      OnceCounts(ids[..n]);
      assert ids == ids[..n] + [ids[n]];
      forall i | 0 <= i < n ensures ids[..n][i] != ids[n] { assert ids[i] != ids[n]; }
      assert multiset(ids[..n])[ids[n]] == 0;
      assert multiset(ids) == multiset(ids[..n]) + multiset{ids[n]};
    }
  }

  lemma {:induction false} CountsOnce<I>(ids: seq<I>)
    requires forall id :: id in ids ==> multiset(ids)[id] == 1
    ensures Once(ids)
  {
    if ids != [] {
      var n := |ids| - 1;
      assert ids == ids[..n] + [ids[n]];
      assert multiset(ids) == multiset(ids[..n]) + multiset{ids[n]};
      assert multiset(ids)[ids[n]] == 1;
      assert multiset(ids[..n])[ids[n]] == 0;
      forall id | id in ids[..n] ensures multiset(ids[..n])[id] == 1 { assert id in ids; }
      CountsOnce(ids[..n]);
      forall i | 0 <= i < n ensures ids[i] != ids[n] { assert ids[i] == ids[..n][i] && ids[i] in ids[..n]; }
      forall i, j | 0 <= i < j < |ids| ensures ids[i] != ids[j] {
        if j < n { assert ids[i] == ids[..n][i] && ids[j] == ids[..n][j]; }
      }
    }
  }

  /** A rearrangement repeats nothing either. */
  lemma SameMembersOnce<I>(a: seq<I>, b: seq<I>)
    requires multiset(a) == multiset(b) && Once(a)
    ensures Once(b)
    ensures forall id :: id in a <==> id in b
  {
    forall id ensures id in a <==> id in b { assert id in multiset(a) <==> id in multiset(b); }
    OnceCounts(a);
    CountsOnce(b);
  }

  // ----- fetching -----

  /** The bodies that could be read: the `data` dictionary. */
  function Held<E(==), B>(endpoints: seq<E>, replies: E -> Reply<B>): map<E, B> {
    map k | k in endpoints && replies(k).Body? :: replies(k).body
  }

  predicate Connected<E(==), B>(endpoints: seq<E>, replies: E -> Reply<B>) {
    forall k :: k in endpoints ==> !replies(k).Down?
  }

  /** The fetch loop: a refusal is noted, a lost connection or nothing at all raises. */
  method Fetch<E(==), B>(endpoints: seq<E>, replies: E -> Reply<B>) returns (data: Option<map<E, B>>)
    ensures data.Some? <==> Connected(endpoints, replies) && Held(endpoints, replies) != map[]
    ensures data.Some? ==> data.value == Held(endpoints, replies)
  {
    var read: map<E, B> := map[];
    for i := 0 to |endpoints|
      invariant Connected(endpoints[..i], replies)
      invariant read == Held(endpoints[..i], replies)
    {
      assert endpoints[..i + 1] == endpoints[..i] + [endpoints[i]];
      var key := endpoints[i];
      match replies(key)
      case Body(body) =>
        read := read[key := body];
      case Refused =>
      case Down =>
        return None;
    }
    assert endpoints[..|endpoints|] == endpoints;
    if read.Keys == {} {
      return None;
    }
    data := Some(read);
  }

  /** The same replies with some endpoints refusing as well. */
  function Losing<E(==), B>(replies: E -> Reply<B>, lost: set<E>): E -> Reply<B> {
    (k: E) => if k in lost && !replies(k).Down? then Refused else replies(k)
  }

  lemma LosingHeld<E, B>(endpoints: seq<E>, replies: E -> Reply<B>, lost: set<E>)
    ensures Connected(endpoints, Losing(replies, lost)) <==> Connected(endpoints, replies)
    ensures Held(endpoints, Losing(replies, lost)) == Held(endpoints, replies) - lost
  {
  }

  /** The same replies with every body changed in one way, endpoint by endpoint. */
  function Altered<E(==), B>(replies: E -> Reply<B>, alter: (E, B) -> B): E -> Reply<B> {
    (k: E) => match replies(k) case Body(b) => Body(alter(k, b)) case other => other
  }

  function AlteredData<E(==), B>(data: map<E, B>, alter: (E, B) -> B): map<E, B> {
    map k | k in data :: alter(k, data[k])
  }

  lemma AlteredHeld<E, B>(endpoints: seq<E>, replies: E -> Reply<B>, alter: (E, B) -> B)
    ensures Connected(endpoints, Altered(replies, alter)) <==> Connected(endpoints, replies)
    ensures Held(endpoints, Altered(replies, alter)) == AlteredData(Held(endpoints, replies), alter)
  {
  }

  function Always<I>(status: Status): I -> Status { (id: I) => status }

  /** A loop that gives every item of a group the same status, as `miss_group` does. */
  method EmitGroup<I>(ids: seq<I>, status: Status) returns (items: seq<Item<I>>)
    ensures items == Judgement(ids, Always(status))
  {
    items := [];
    for i := 0 to |ids|
      invariant items == Judgement(ids[..i], Always(status))
    {
      items := items + [Item(ids[i], status)];
    }
    assert ids[..|ids|] == ids;
  }

  /** What an outage may do to a status: nothing, or hand the item to a person. */
  predicate Degrades(full: Status, partial: Status) { partial == full || partial.Manual? }

  // ----- the version log -----

  /** An item as the checker receives it. */
  function Reported<I>(name: I -> string, desc: Item<I> -> string): Item<I> -> ReportItem {
    (it: Item<I>) => ReportItem(name(it.id), "", it.status.Text(), desc(it))
  }

  ghost predicate Naming<I(!new)>(name: I -> string) {
    && (forall a, b :: name(a) == name(b) ==> a == b)
    && forall a :: |name(a)| <= ID_WIDTH
  }

  /** What a driver decides is stored as decided: none of the five texts is taken for an unknown status. */
  lemma StoredAsDecided<I>(it: Item<I>, name: I -> string, desc: Item<I> -> string)
    ensures var stored := Normal(Reported(name, desc)(it));
      && stored.id == name(it.id) && stored.desc == desc(it)
      && (it.status.Pass? <==> stored.status == "pass") && (it.status.Fail? <==> stored.status == "fail")
      && (it.status.Warn? <==> stored.status == "warn") && (it.status.Manual? <==> stored.status == "manual")
      && (it.status.NotApplicable? <==> stored.status == "na")
  {
  }

  lemma ReportedDistinct<I(!new)>(items: seq<Item<I>>, name: I -> string, desc: Item<I> -> string)
    requires Naming(name) && Once(Ids(items))
    ensures Distinct(Collect(items, Reported(name, desc)))
    ensures ReportedIds(Collect(items, Reported(name, desc))) == set id | id in Ids(items) :: name(id)
  {
    var rows := Collect(items, Reported(name, desc));
    var ids := Ids(items);
    forall i | 0 <= i < |items| ensures rows[i].Id() == name(ids[i]) {}
    forall x | x in ReportedIds(rows) ensures x in set id | id in ids :: name(id) {
      var r :| r in rows && r.Id() == x;
      var i :| 0 <= i < |rows| && rows[i] == r;
      assert ids[i] in ids;
    }
    forall id | id in ids ensures name(id) in ReportedIds(rows) {
      var i :| 0 <= i < |ids| && ids[i] == id;
      assert rows[i] in rows;
    }
  }

  predicate Changed(v: ItemVersion) { v.kind.StatusChanged? || v.kind.DescChanged? }

  lemma {:induction false} KnownItemRows(log: seq<ItemVersion>, stamp: Stamp, ms: seq<ReportItem>, iid: string)
    requires StateOf(log, iid).Some? && forall it :: it in ms ==> it.Id() == iid
    ensures forall v :: v in ItemRows(log, stamp, ms) ==> Changed(v)
  {
    if ms != [] { KnownItemRows(log, stamp, ms[..|ms| - 1], iid); }
  }

  /**
   Two reports over the same items, one after the other: whatever the log held before, the
   second one writes no initial, new or gone rows.
   */
  lemma SameItemsNoNewOrGone(log: seq<ItemVersion>, first: Stamp, a: seq<ReportItem>, second: Stamp, b: seq<ReportItem>,
                             disabled: set<string>)
    requires Fits(log) && a != [] && Distinct(a) && ReportedIds(a) == ReportedIds(b)
    ensures forall v :: v in Recorded(Record(log, first, a, disabled), second, b, disabled) ==> Changed(v)
  {
    var after := Record(log, first, a, disabled);
    RecordFits(log, first, a, disabled);
    forall v | v in Recorded(after, second, b, disabled) ensures Changed(v) {
      WhereMembers(Recorded(after, second, b, disabled), ForItem(v.item));
      RecordedFor(after, second, b, disabled, v.item);
      RecordedState(log, first, a, disabled, v.item);
      DistinctSettles(log, a, v.item);
      SecondRows(after, second, b, disabled, v.item);
    }
  }

  lemma SecondRows(log: seq<ItemVersion>, stamp: Stamp, items: seq<ReportItem>, disabled: set<string>, iid: string)
    requires iid in ReportedIds(items) ==> StateOf(log, iid).Some?
    requires iid !in ReportedIds(items) && iid !in disabled ==> StateOf(log, iid).None?
    ensures forall v :: v in RowsFor(log, stamp, items, disabled, iid) ==> Changed(v)
  {
    if iid in ReportedIds(items) {
      WhereMembers(items, Named(iid));
      KnownItemRows(log, stamp, Where(items, Named(iid)), iid);
    }
  }

  /**
   An outage and the log. If the full and the partial report carry the same items, each once,
   then recording one after the other adds only status and description rows for any switch-off
   list: nothing disappears and nothing is new because an endpoint was lost.
   */
  lemma OutageIsNoChurn<I(!new)>(log: seq<ItemVersion>, first: Stamp, full: seq<Item<I>>,
                                 second: Stamp, partial: seq<Item<I>>,
                                 name: I -> string, descA: Item<I> -> string, descB: Item<I> -> string,
                                 disabled: set<string>)
    requires Fits(log) && Naming(name)
    requires Once(Ids(full)) && Once(Ids(partial)) && multiset(Ids(full)) == multiset(Ids(partial))
    ensures var a := Kept(Collect(full, Reported(name, descA)), disabled);
      var b := Kept(Collect(partial, Reported(name, descB)), disabled);
      && ReportedIds(a) == ReportedIds(b)
      && (a != [] ==> forall v :: v in Recorded(Record(log, first, a, disabled), second, b, disabled) ==> Changed(v))
  {
    var rawA, rawB := Collect(full, Reported(name, descA)), Collect(partial, Reported(name, descB));
    ReportedDistinct(full, name, descA);
    ReportedDistinct(partial, name, descB);
    forall id ensures id in Ids(full) <==> id in Ids(partial) {
      assert id in multiset(Ids(full)) <==> id in multiset(Ids(partial));
    }
    ShortIdsAre(full, name, descA);
    ShortIdsAre(partial, name, descB);
    KeptSameIds(rawA, disabled);
    KeptSameIds(rawB, disabled);
    if Kept(rawA, disabled) != [] {
      SameItemsNoNewOrGone(log, first, Kept(rawA, disabled), second, Kept(rawB, disabled), disabled);
    }
  }

  lemma ShortIdsAre<I(!new)>(items: seq<Item<I>>, name: I -> string, desc: Item<I> -> string)
    requires Naming(name)
    ensures forall it :: it in Collect(items, Reported(name, desc)) ==> it.Id() == it.id
  {
  }

  lemma KeptSameIds(raw: seq<ReportItem>, disabled: set<string>)
    requires Distinct(raw) && forall it :: it in raw ==> it.Id() == it.id
    ensures Distinct(Kept(raw, disabled))
    ensures ReportedIds(Kept(raw, disabled)) == set iid | iid in ReportedIds(raw) && iid !in disabled
  {
    KeptDistinct(raw, disabled);
    var kept := Where(raw, Enabled(disabled));
    WhereMembers(raw, Enabled(disabled));
    var shown := Kept(raw, disabled);
    forall iid | iid in ReportedIds(shown) ensures iid in ReportedIds(raw) && iid !in disabled {
      var it :| it in shown && it.Id() == iid;
      var i :| 0 <= i < |shown| && shown[i] == it;
      assert kept[i] in kept;
    }
    forall iid | iid in ReportedIds(raw) && iid !in disabled ensures iid in ReportedIds(shown) {
      var it :| it in raw && it.Id() == iid;
      var i :| 0 <= i < |kept| && kept[i] == it;
      assert shown[i] in shown;
    }
  }
}
