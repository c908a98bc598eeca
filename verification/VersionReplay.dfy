/** Replay: whatever the log held before, after recording a report it rebuilds that report. */
module VersionReplay {
  import opened Queries
  import opened Records
  import opened VersionLog

  /**
   A report that mentions an item several times ends on the state the log already held,
   after mentioning a different one. `last` is read once, before the loop, so the different
   mention is logged and the final one is not.
   */
  ghost predicate OscillatesAt(log: seq<ItemVersion>, items: seq<ReportItem>, iid: string) {
    && StateOf(log, iid).Some?
    && ReportState(items, iid) == StateOf(log, iid)
    && exists it :: it in items && it.Id() == iid && it.Shown() != StateOf(log, iid).value
  }

  ghost predicate Oscillates(log: seq<ItemVersion>, items: seq<ReportItem>) {
    exists iid :: iid in ReportedIds(items) && OscillatesAt(log, items, iid)
  }

  /** The report, and below it whatever the log held about items that are switched off. */
  function Replayed(log: seq<ItemVersion>, items: seq<ReportItem>, disabled: set<string>): map<string, State> {
    (map iid | iid in View(log) && iid in disabled :: View(log)[iid]) + ReportView(items)
  }

  lemma {:induction false} LatestIsLast(log: seq<ItemVersion>, iid: string)
    ensures var mine := Where(log, ForItem(iid));
      Latest(log, iid) == if mine == [] then None else Some(mine[|mine| - 1])
  {
    if log != [] { LatestIsLast(log[..|log| - 1], iid); }
  }

  lemma {:induction false} ReportStateIsLast(items: seq<ReportItem>, iid: string)
    ensures var mine := Where(items, Named(iid));
      ReportState(items, iid) == if mine == [] then None else Some(mine[|mine| - 1].Shown())
  {
    if items != [] { ReportStateIsLast(items[..|items| - 1], iid); }
  }

  lemma BaselineMentions(stamp: Stamp, ms: seq<ReportItem>)
    requires ms != []
    ensures var rows := Baseline(stamp, ms);
      rows != [] && !rows[|rows| - 1].kind.Gone? && rows[|rows| - 1].Shown() == ms[|ms| - 1].Shown()
  {
  }

  /** The rows that several mentions of one item leave, compared with the state before them. */
  lemma {:induction false} ItemMentions(log: seq<ItemVersion>, stamp: Stamp, ms: seq<ReportItem>, iid: string)
    requires forall m :: m in ms ==> m.Id() == iid
    ensures var rows := ItemRows(log, stamp, ms);
      var was := StateOf(log, iid);
      && (rows == [] <==> forall m :: m in ms ==> was == Some(m.Shown()))
      && (rows != [] ==>
           var now := rows[|rows| - 1];
           && !now.kind.Gone?
           && Some(now.Shown()) != was
           && (Some(ms[|ms| - 1].Shown()) != was ==> now.Shown() == ms[|ms| - 1].Shown()))
  {
    if ms != [] {
      var n := |ms| - 1;
      var m := ms[n];
      assert ms == ms[..n] + [m];
      assert m in ms;
      ItemMentions(log, stamp, ms[..n], iid);
      var before := ItemRows(log, stamp, ms[..n]);
      var row := ItemRow(Latest(log, iid), stamp, m);
      assert ItemRows(log, stamp, ms) == before + row;
      assert row == [] <==> StateOf(log, iid) == Some(m.Shown());
      assert row != [] ==> row[0] in row;
    }
  }

  lemma MentionedState(log: seq<ItemVersion>, stamp: Stamp, ms: seq<ReportItem>, iid: string)
    requires ms != [] && forall m :: m in ms ==> m.Id() == iid
    ensures var rows := if log == [] then Baseline(stamp, ms) else ItemRows(log, stamp, ms);
      var was := StateOf(log, iid);
      var last := ms[|ms| - 1].Shown();
      var now := if rows == [] then was
                 else if rows[|rows| - 1].kind.Gone? then None else Some(rows[|rows| - 1].Shown());
      now == Some(last) <==> !(was == Some(last) && exists m :: m in ms && m.Shown() != was.value)
  {
    if log == [] {
      BaselineMentions(stamp, ms);
    } else {
      ItemMentions(log, stamp, ms, iid);
      assert ms[|ms| - 1] in ms;
    }
  }

  lemma StateAfter(log: seq<ItemVersion>, added: seq<ItemVersion>, iid: string)
    ensures var mine := Where(added, ForItem(iid));
      StateOf(log + added, iid) ==
        if mine == [] then StateOf(log, iid)
        else if mine[|mine| - 1].kind.Gone? then None else Some(mine[|mine| - 1].Shown())
  {
    LatestAppend(log, added, iid);
    LatestIsLast(added, iid);
  }

  lemma OscillatesAmong(log: seq<ItemVersion>, items: seq<ReportItem>, iid: string, ms: seq<ReportItem>)
    requires ms == Where(items, Named(iid)) && ms != []
    ensures forall m :: m in ms ==> m.Id() == iid
    ensures ReportState(items, iid) == Some(ms[|ms| - 1].Shown())
    ensures OscillatesAt(log, items, iid) <==>
            StateOf(log, iid) == Some(ms[|ms| - 1].Shown())
            && exists m :: m in ms && m.Shown() != StateOf(log, iid).value
  {
    WhereMembers(items, Named(iid));
    ReportStateIsLast(items, iid);
  }

  lemma ReportedState(log: seq<ItemVersion>, stamp: Stamp, items: seq<ReportItem>, disabled: set<string>,
                      iid: string)
    requires Fits(log) && iid in ReportedIds(items)
    ensures StateOf(Record(log, stamp, items, disabled), iid) == ReportState(items, iid)
            <==> !OscillatesAt(log, items, iid)
  {
    var ms := Where(items, Named(iid));
    ReportStateIsLast(items, iid);
    OscillatesAmong(log, items, iid, ms);
    MentionedState(log, stamp, ms, iid);
    StateAfter(log, Recorded(log, stamp, items, disabled), iid);
    RecordedFor(log, stamp, items, disabled, iid);
  }

  lemma UnreportedState(log: seq<ItemVersion>, stamp: Stamp, items: seq<ReportItem>, disabled: set<string>,
                        iid: string)
    requires Fits(log) && items != [] && iid !in ReportedIds(items)
    ensures StateOf(Record(log, stamp, items, disabled), iid) == if iid in disabled then StateOf(log, iid) else None
  {
    StateAfter(log, Recorded(log, stamp, items, disabled), iid);
    RecordedFor(log, stamp, items, disabled, iid);
  }

  lemma RecordedState(log: seq<ItemVersion>, stamp: Stamp, items: seq<ReportItem>, disabled: set<string>,
                      iid: string)
    requires Fits(log) && items != []
    ensures var now := StateOf(Record(log, stamp, items, disabled), iid);
      if iid in ReportedIds(items) then now == ReportState(items, iid) <==> !OscillatesAt(log, items, iid)
      else now == if iid in disabled then StateOf(log, iid) else None
  {
    if iid in ReportedIds(items) {
      ReportedState(log, stamp, items, disabled, iid);
    } else {
      UnreportedState(log, stamp, items, disabled, iid);
    }
  }

  predicate Agree(m: map<string, State>, w: map<string, State>, iid: string) {
    (iid in m <==> iid in w) && (iid in m && iid in w ==> m[iid] == w[iid])
  }

  lemma AgreeEverywhere(m: map<string, State>, w: map<string, State>)
    ensures m == w <==> forall iid :: Agree(m, w, iid)
  {
    if forall iid :: Agree(m, w, iid) {
      assert forall iid :: iid in m <==> iid in w by {
        forall iid ensures iid in m <==> iid in w { assert Agree(m, w, iid); }
      }
      assert forall iid :: iid in m ==> m[iid] == w[iid] by {
        forall iid | iid in m ensures m[iid] == w[iid] { assert Agree(m, w, iid); }
      }
    }
  }

  lemma ReplayAt(log: seq<ItemVersion>, stamp: Stamp, items: seq<ReportItem>, disabled: set<string>, iid: string)
    requires Fits(log) && items != []
    ensures Agree(View(Record(log, stamp, items, disabled)), Replayed(log, items, disabled), iid)
            <==> !(iid in ReportedIds(items) && OscillatesAt(log, items, iid))
  {
    RecordedState(log, stamp, items, disabled, iid);
    ViewIs(Record(log, stamp, items, disabled), iid);
    ViewIs(log, iid);
    ReplayedIs(log, items, disabled, iid);
  }

  lemma ReplayedIs(log: seq<ItemVersion>, items: seq<ReportItem>, disabled: set<string>, iid: string)
    ensures var want := Replayed(log, items, disabled);
      if iid in ReportedIds(items) then iid in want && Some(want[iid]) == ReportState(items, iid)
      else (iid in want <==> iid in disabled && iid in View(log)) && (iid in want ==> want[iid] == View(log)[iid])
  {
  }

  /**
   Replay. After recording a non-empty report, the log's view is exactly the report, plus the
   untouched states of switched-off items, whatever the earlier log held. It fails exactly
   when the report oscillates on a repeated id.
   */
  lemma Replay(log: seq<ItemVersion>, stamp: Stamp, items: seq<ReportItem>, disabled: set<string>)
    requires Fits(log) && items != []
    ensures View(Record(log, stamp, items, disabled)) == Replayed(log, items, disabled)
            <==> !Oscillates(log, items)
  {
    forall iid
      ensures Agree(View(Record(log, stamp, items, disabled)), Replayed(log, items, disabled), iid)
              <==> !(iid in ReportedIds(items) && OscillatesAt(log, items, iid))
    {
      ReplayAt(log, stamp, items, disabled, iid);
    }
    AgreeEverywhere(View(Record(log, stamp, items, disabled)), Replayed(log, items, disabled));
  }

  lemma DistinctSettles(log: seq<ItemVersion>, items: seq<ReportItem>, iid: string)
    requires Distinct(items)
    ensures !OscillatesAt(log, items, iid)
  {
    forall it | it in items && it.Id() == iid ensures ReportState(items, iid) == Some(it.Shown()) {
      var i :| 0 <= i < |items| && items[i] == it;
      ReportStateOfDistinct(items, i);
    }
  }

  /** Reports with distinct ids never oscillate, so replay holds for them outright. */
  lemma ReplayDistinct(log: seq<ItemVersion>, stamp: Stamp, items: seq<ReportItem>, disabled: set<string>)
    requires Fits(log) && items != [] && Distinct(items)
    ensures View(Record(log, stamp, items, disabled)) == Replayed(log, items, disabled)
  {
    forall iid ensures !OscillatesAt(log, items, iid) {
      DistinctSettles(log, items, iid);
    }
    Replay(log, stamp, items, disabled);
  }

  /** A report that names one item twice, ending on the logged state, leaves the log denying it. */
  lemma OscillationWitness(stamp: Stamp, disabled: set<string>)
    ensures var log := [ItemVersion(1, 1, 0, "x", "", Initial, "", "pass", "", "")];
      var twice := [ReportItem("x", "", "fail", ""), ReportItem("x", "", "pass", "")];
      View(Record(log, stamp, twice, disabled)) != Replayed(log, twice, disabled)
  {
    var log := [ItemVersion(1, 1, 0, "x", "", Initial, "", "pass", "", "")];
    var fail, pass := ReportItem("x", "", "fail", ""), ReportItem("x", "", "pass", "");
    var twice := [fail, pass];
    assert fail in twice && fail.Id() == "x" && fail.Shown() == State("fail", "");
    assert "x" in ReportedIds(twice);
    assert OscillatesAt(log, twice, "x");
    Replay(log, stamp, twice, disabled);
  }

  lemma RecordFits(log: seq<ItemVersion>, stamp: Stamp, items: seq<ReportItem>, disabled: set<string>)
    requires Fits(log)
    ensures Fits(Record(log, stamp, items, disabled))
  {
    BaselineFits(stamp, items);
    ItemRowsFit(log, stamp, items);
    GoneRowsFit(log, stamp, LoggedItems(log), ReportedIds(items), disabled);
  }

  lemma {:induction false} BaselineFits(stamp: Stamp, items: seq<ReportItem>)
    ensures Fits(Baseline(stamp, items))
  {
    if items != [] { BaselineFits(stamp, items[..|items| - 1]); }
  }

  lemma {:induction false} ItemRowsFit(log: seq<ItemVersion>, stamp: Stamp, items: seq<ReportItem>)
    ensures Fits(ItemRows(log, stamp, items))
  {
    if items != [] { ItemRowsFit(log, stamp, items[..|items| - 1]); }
  }

  lemma {:induction false} GoneRowsFit(log: seq<ItemVersion>, stamp: Stamp, order: seq<string>,
                                       reported: set<string>, disabled: set<string>)
    ensures Fits(GoneRows(log, stamp, order, reported, disabled))
  {
    if order != [] {
      GoneRowsFit(log, stamp, order[..|order| - 1], reported, disabled);
    }
  }
}
