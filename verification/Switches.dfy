/**
 Switching checks off and on: `item_toggle` of app/routes/items_routes.py, the only writer of the
 switch-off table. It takes ids of the catalogue only, so every list that can ever be in force
 is one the laws on toggling speak of.
 */
module Switches {
  import opened Queries
  import opened Records
  import opened Store
  import opened VersionLog
  import opened VersionReplay
  import opened TimeTravel
  import opened ResultChanges
  import opened Checker
  import opened Toggling

  /** `valid_ids`: the ids of every family that is known. */
  type Catalogue = map<string, set<string>>

  datatype Request = Request(family: string, item: string, enabled: bool)

  predicate Valid(catalogue: Catalogue, q: Request) { q.family in catalogue && q.item in catalogue[q.family] }

  /** `item_toggle`: an unknown family or id is refused; else the row is there exactly when the item is off. */
  method ItemToggle(db: Database, catalogue: Catalogue, q: Request) returns (ok: bool)
    modifies db`disables
    ensures ok <==> Valid(catalogue, q)
    ensures db.disables == Toggled(catalogue, old(db.disables), q)
  {
    if q.family !in catalogue {
      return false;
    }
    if q.item !in catalogue[q.family] {
      return false;
    }
    var row := (q.family, q.item);
    if q.enabled && row in db.disables {
      db.disables := db.disables - {row};
    } else if !q.enabled && row !in db.disables {
      db.disables := db.disables + {row};
    }
    ok := true;
  }

  /** A valid request decides about its own item and about nothing else; any other changes nothing. */
  function Toggled(catalogue: Catalogue, disables: set<(string, string)>, q: Request): set<(string, string)> {
    if !Valid(catalogue, q) then disables
    else if q.enabled then disables - {(q.family, q.item)}
    else disables + {(q.family, q.item)}
  }

  function AfterRequests(catalogue: Catalogue, requests: seq<Request>): set<(string, string)> {
    if requests == [] then {}
    else Toggled(catalogue, AfterRequests(catalogue, requests[..|requests| - 1]), requests[|requests| - 1])
  }

  /** The last valid request about an item decides. */
  lemma {:induction false} LastRequestDecides(catalogue: Catalogue, requests: seq<Request>, family: string, item: string)
    ensures item in DisabledFor(AfterRequests(catalogue, requests), family)
      <==> exists i :: 0 <= i < |requests| && Valid(catalogue, requests[i])
             && requests[i] == Request(family, item, false)
             && forall j :: i < j < |requests| && Valid(catalogue, requests[j]) ==>
                  requests[j].family != family || requests[j].item != item || !requests[j].enabled
  {
    if requests != [] {
      var n := |requests| - 1;
      var q := requests[n];
      LastRequestDecides(catalogue, requests[..n], family, item);
      var before, after := AfterRequests(catalogue, requests[..n]), AfterRequests(catalogue, requests);
      assert item in DisabledFor(before, family) <==> (family, item) in before;
      assert item in DisabledFor(after, family) <==> (family, item) in after;
    }
  }

  /** Whatever was switched, a family's list holds ids of its catalogue. */
  lemma ListsAreCatalogue(catalogue: Catalogue, requests: seq<Request>, family: string)
    ensures forall d :: d in DisabledFor(AfterRequests(catalogue, requests), family) ==>
              family in catalogue && d in catalogue[family]
  {
    forall d | d in DisabledFor(AfterRequests(catalogue, requests), family)
      ensures family in catalogue && d in catalogue[family]
    {
      LastRequestDecides(catalogue, requests, family, d);
    }
  }

  /** The ids of the catalogue are shorter than the column that stores reported ids. */
  ghost predicate FittingCatalogue(catalogue: Catalogue) {
    forall family :: family in catalogue ==> FittingList(catalogue[family])
  }

  /** A history of an unchanged raw report, each run under the list that some requests have left. */
  ghost predicate Switched(catalogue: Catalogue, family: string, raw: seq<ReportItem>, reports: seq<Report>,
                           requests: seq<seq<Request>>)
  {
    |requests| == |reports| && forall i :: 0 <= i < |reports| ==>
      && reports[i].disabled == DisabledFor(AfterRequests(catalogue, requests[i]), family)
      && reports[i].items == Kept(raw, reports[i].disabled)
  }

  lemma SwitchedIsSameRaw(catalogue: Catalogue, family: string, raw: seq<ReportItem>, reports: seq<Report>,
                          requests: seq<seq<Request>>)
    requires FittingCatalogue(catalogue) && Switched(catalogue, family, raw, reports, requests)
    ensures SameRaw(raw, reports)
  {
    forall r | r in reports ensures FittingList(r.disabled) && r.items == Kept(raw, r.disabled) {
      var i :| 0 <= i < |reports| && reports[i] == r;
      ListsAreCatalogue(catalogue, requests[i], family);
    }
  }

  /**
   Silent switching, from requests to change rows. Whatever was requested between the runs of a
   host whose raw report never changes, and however long its ids are, the next run writes no
   change row exactly when there is nothing to compare or every item it reports occurred in the
   window.
   */
  lemma SwitchingIsSilent(catalogue: Catalogue, family: string, raw: seq<ReportItem>, reports: seq<Report>,
                          requests: seq<seq<Request>>, now: seq<Request>, stamp: Stamp)
    requires FittingCatalogue(catalogue) && Distinct(raw)
    requires Switched(catalogue, family, raw, reports, requests)
    ensures var disabled := DisabledFor(AfterRequests(catalogue, now), family);
      var past, items := PastOf(reports, HISTORY_RUNS), Kept(raw, disabled);
      Changes(past, stamp, items, disabled) == []
      <==> items == [] || Compared(past, disabled) == []
           || forall iid :: iid in ReportedIds(items) ==> iid in SeenIn(past)
  {
    hide Changes, Kept, Compared;
    SwitchedIsSameRaw(catalogue, family, raw, reports, requests);
    ListsAreCatalogue(catalogue, now, family);
    TogglingIsSilent(raw, reports, stamp, DisabledFor(AfterRequests(catalogue, now), family));
  }

  /** And the version log holds one row per item ever enabled, showing its unchanged state. */
  lemma SwitchedLog(catalogue: Catalogue, family: string, raw: seq<ReportItem>, reports: seq<Report>,
                    requests: seq<seq<Request>>, iid: string)
    requires FittingCatalogue(catalogue) && Distinct(raw)
    requires Switched(catalogue, family, raw, reports, requests)
    ensures |Where(LogOf(reports), ForItem(iid))| == if EverEnabled(reports, iid) then 1 else 0
    ensures if EverEnabled(reports, iid) then iid in Full(raw) && StateOf(LogOf(reports), iid) == Some(Full(raw)[iid])
            else StateOf(LogOf(reports), iid).None?
  {
    hide LogOf, Full, EverEnabled;
    SwitchedIsSameRaw(catalogue, family, raw, reports, requests);
    ToggledLog(raw, reports, iid);
  }
}
