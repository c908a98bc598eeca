/**
 Table queries on row sequences. A table is a sequence of rows in row-id order,
 `Where` is a filtered SELECT over it, and `FirstSeen` is the iteration order of a
 dictionary that was filled row by row: the order in which its keys first appeared.
 */
module Queries {

  datatype Option<+T> = None | Some(value: T)

  function Where<T>(rows: seq<T>, p: T -> bool): seq<T> {
    if rows == [] then []
    else
      var n := |rows| - 1;
      Where(rows[..n], p) + if p(rows[n]) then [rows[n]] else []
  }

  lemma {:induction false} WhereAppend<T>(a: seq<T>, b: seq<T>, p: T -> bool)
    ensures Where(a + b, p) == Where(a, p) + Where(b, p)
  {
    if b == [] {
      assert a + b == a;
    } else {
      var n := |b| - 1;
      assert (a + b)[..|a + b| - 1] == a + b[..n];
      WhereAppend(a, b[..n], p);
    }
  }

  lemma {:induction false} WhereMembers<T>(rows: seq<T>, p: T -> bool)
    ensures forall x :: x in Where(rows, p) <==> x in rows && p(x)
  {
    if rows != [] {
      var n := |rows| - 1;
      WhereMembers(rows[..n], p);
      assert rows == rows[..n] + [rows[n]];
    }
  }

  lemma {:induction false} WhereNone<T>(rows: seq<T>, p: T -> bool)
    requires forall x :: x in rows ==> !p(x)
    ensures Where(rows, p) == []
  {
    if rows != [] { WhereNone(rows[..|rows| - 1], p); }
  }

  lemma {:induction false} WhereAll<T>(rows: seq<T>, p: T -> bool)
    requires forall x :: x in rows ==> p(x)
    ensures Where(rows, p) == rows
  {
    if rows != [] {
      WhereAll(rows[..|rows| - 1], p);
      assert rows == rows[..|rows| - 1] + [rows[|rows| - 1]];
    }
  }

  lemma {:induction false} SomeSelected<T>(rows: seq<T>, p: T -> bool)
    ensures Where(rows, p) != [] <==> exists x :: x in rows && p(x)
  {
    if rows != [] {
      SomeSelected(rows[..|rows| - 1], p);
      assert rows == rows[..|rows| - 1] + [rows[|rows| - 1]];
    }
  }

  /** Two filters that agree on every row select the same rows. */
  lemma {:induction false} WhereSame<T>(rows: seq<T>, p: T -> bool, q: T -> bool)
    requires forall x :: x in rows ==> p(x) == q(x)
    ensures Where(rows, p) == Where(rows, q)
  {
    if rows != [] { WhereSame(rows[..|rows| - 1], p, q); }
  }

  /** A filter applied to a filtered table is the conjunction of the two filters. */
  lemma {:induction false} WhereWhere<T>(rows: seq<T>, p: T -> bool, q: T -> bool, both: T -> bool)
    requires forall x :: x in rows ==> both(x) == (p(x) && q(x))
    ensures Where(Where(rows, p), q) == Where(rows, both)
  {
    if rows != [] {
      var n := |rows| - 1;
      WhereWhere(rows[..n], p, q, both);
      WhereAppend(Where(rows[..n], p), if p(rows[n]) then [rows[n]] else [], q);
      assert Where([rows[n]], q) == if q(rows[n]) then [rows[n]] else [] by {
        assert [rows[n]][..0] == [];
      }
    }
  }

  /** Two rows that satisfy the filter make the selection at least two rows long. */
  lemma WhereTwo<T>(rows: seq<T>, p: T -> bool, i: nat, j: nat)
    requires i < j < |rows| && p(rows[i]) && p(rows[j])
    ensures |Where(rows, p)| >= 2
  {
    WhereAppend(rows[..j], rows[j..], p);
    assert rows == rows[..j] + rows[j..];
    WhereMembers(rows[..j], p);
    WhereMembers(rows[j..], p);
    assert rows[..j][i] in rows[..j] && rows[j..][0] in rows[j..];
  }

  ghost function Places<T(!new)>(rows: seq<T>, p: T -> bool): set<int> { set i | 0 <= i < |rows| && p(rows[i]) }

  /** The selection is as long as the places it is taken from are many. */
  lemma {:induction false} WhereCounts<T(!new)>(rows: seq<T>, p: T -> bool)
    ensures |Where(rows, p)| == |Places(rows, p)|
  {
    if rows == [] {
      assert Places(rows, p) == {};
    } else {
      var n := |rows| - 1;
      WhereCounts(rows[..n], p);
      assert Places(rows, p) == Places(rows[..n], p) + if p(rows[n]) then {n} else {};
    }
  }

  function Collect<T, U>(rows: seq<T>, f: T -> U): (r: seq<U>)
    ensures |r| == |rows| && forall i :: 0 <= i < |rows| ==> r[i] == f(rows[i])
  {
    seq(|rows|, i requires 0 <= i < |rows| => f(rows[i]))
  }

  lemma CollectAppend<T, U>(a: seq<T>, b: seq<T>, f: T -> U)
    ensures Collect(a + b, f) == Collect(a, f) + Collect(b, f)
  {
  }

  /** Keys of a dictionary filled with `ids` in turn, in iteration order. */
  function FirstSeen(ids: seq<string>): seq<string> {
    if ids == [] then []
    else
      var n := |ids| - 1;
      FirstSeen(ids[..n]) + if ids[n] in ids[..n] then [] else [ids[n]]
  }

  lemma {:induction false} FirstSeenIs(ids: seq<string>)
    ensures forall x :: x in FirstSeen(ids) <==> x in ids
    ensures NoRepeat(FirstSeen(ids))
  {
    if ids != [] {
      FirstSeenIs(ids[..|ids| - 1]);
      assert ids == ids[..|ids| - 1] + [ids[|ids| - 1]];
    }
  }

  predicate NoRepeat(ids: seq<string>) {
    forall i, j :: 0 <= i < j < |ids| ==> ids[i] != ids[j]
  }

  function Sum(xs: seq<int>): int {
    if xs == [] then 0 else Sum(xs[..|xs| - 1]) + xs[|xs| - 1]
  }

  lemma {:induction false} SumAppend(a: seq<int>, b: seq<int>)
    ensures Sum(a + b) == Sum(a) + Sum(b)
  {
    if b == [] {
      assert a + b == a;
    } else {
      assert (a + b)[..|a + b| - 1] == a + b[..|b| - 1];
      SumAppend(a, b[..|b| - 1]);
    }
  }
}
