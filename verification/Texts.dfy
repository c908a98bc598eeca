/** The string methods of Python that the drivers use. */
module Texts {
  /** Python's `str.isspace` for one character. */
  predicate Space(c: char) {
    var n := c as int;
    || 0x09 <= n <= 0x0D || 0x1C <= n <= 0x20 || n == 0x85 || n == 0xA0 || n == 0x1680
    || 0x2000 <= n <= 0x200A || n == 0x2028 || n == 0x2029 || n == 0x202F || n == 0x205F || n == 0x3000
  }

  function LeftStrip(s: string): string { if s != "" && Space(s[0]) then LeftStrip(s[1..]) else s }

  function RightStrip(s: string): string {
    if s != "" && Space(s[|s| - 1]) then RightStrip(s[..|s| - 1]) else s
  }

  function Strip(s: string): string { RightStrip(LeftStrip(s)) }

  predicate StartsWith(s: string, prefix: string) { |prefix| <= |s| && s[..|prefix|] == prefix }

  predicate Contains(s: string, part: string) { exists i :: 0 <= i <= |s| && StartsWith(s[i..], part) }

  /** The length of the word at the start. */
  function WordLength(s: string): (n: nat)
    ensures n <= |s| && (s != "" && !Space(s[0]) ==> n > 0)
  {
    if s == "" || Space(s[0]) then 0 else 1 + WordLength(s[1..])
  }

  /** `s.split()` */
  function Words(s: string): seq<string> {
    if s == "" then []
    else if Space(s[0]) then Words(s[1..])
    else [s[..WordLength(s)]] + Words(s[WordLength(s)..])
  }

  // ----- what these functions are, said of the characters -----

  predicate AllSpace(s: string) { forall i :: 0 <= i < |s| ==> Space(s[i]) }
  predicate NoSpace(s: string) { forall i :: 0 <= i < |s| ==> !Space(s[i]) }

  lemma {:induction false} LeftStripIs(s: string)
    ensures exists a :: AllSpace(a) && s == a + LeftStrip(s)
    ensures LeftStrip(s) != "" ==> !Space(LeftStrip(s)[0])
  {
    if s != "" && Space(s[0]) {
      LeftStripIs(s[1..]);
      var a :| AllSpace(a) && s[1..] == a + LeftStrip(s[1..]);
      assert AllSpace([s[0]] + a) && s == ([s[0]] + a) + LeftStrip(s);
    } else {
      assert AllSpace("") && s == "" + LeftStrip(s);
    }
  }

  lemma {:induction false} RightStripIs(s: string)
    ensures exists b :: AllSpace(b) && s == RightStrip(s) + b
    ensures RightStrip(s) != "" ==> !Space(RightStrip(s)[|RightStrip(s)| - 1])
  {
    if s != "" && Space(s[|s| - 1]) {
      var n := |s| - 1;
      RightStripIs(s[..n]);
      var b :| AllSpace(b) && s[..n] == RightStrip(s[..n]) + b;
      assert AllSpace(b + [s[n]]) && s == RightStrip(s) + (b + [s[n]]);
    } else {
      assert AllSpace("") && s == RightStrip(s) + "";
    }
  }

  /** `t` is `s` without the white space at both ends. */
  ghost predicate IsStripped(s: string, t: string) {
    && (exists a, b :: AllSpace(a) && AllSpace(b) && s == a + t + b)
    && (t != "" ==> !Space(t[0]) && !Space(t[|t| - 1]))
  }

  lemma StripIs(s: string)
    ensures IsStripped(s, Strip(s))
    ensures forall t :: IsStripped(s, t) ==> t == Strip(s)
  {
    StripStrips(s);
    forall t | IsStripped(s, t) ensures t == Strip(s) { OneStripped(s, t, Strip(s)); }
  }

  /** Nothing comes off a text with no white space at its ends. */
  lemma Clean(s: string)
    requires s != "" ==> !Space(s[0]) && !Space(s[|s| - 1])
    ensures Strip(s) == s
  {
    hide Strip, Space;
    StripIs(s);
    assert AllSpace("") && s == "" + s + "";
  }

  lemma StripStrips(s: string)
    ensures IsStripped(s, Strip(s))
  {
    var left := LeftStrip(s);
    LeftStripIs(s);
    RightStripIs(left);
    var a :| AllSpace(a) && s == a + left;
    var b :| AllSpace(b) && left == RightStrip(left) + b;
    var t := RightStrip(left);
    assert s == a + t + b;
    if t != "" { assert left[0] == t[0]; }
  }

  lemma OutsideLeft(a: string, rest: string, k: nat)
    requires AllSpace(a) && k < |a + rest| && !Space((a + rest)[k])
    ensures |a| <= k
  {
  }

  lemma OutsideRight(rest: string, b: string, k: nat)
    requires AllSpace(b) && k < |rest + b| && !Space((rest + b)[k])
    ensures k < |rest|
  {
    forall i | |rest| <= i < |rest + b| ensures Space((rest + b)[i]) { assert (rest + b)[i] == b[i - |rest|]; }
  }

  /** Two ways to take white space off both ends leave texts of which one reaches as far as the other. */
  lemma Reaches(s: string, a: string, t: string, b: string, c: string, u: string, d: string)
    requires s == a + t + b == c + u + d && AllSpace(c) && AllSpace(d)
    requires t != "" && !Space(t[0]) && !Space(t[|t| - 1])
    ensures |c| <= |a| && |a + t| <= |c + u|
  {
    assert s == c + (u + d) && s == (c + u) + d;
    assert s[|a|] == t[0] && s[|a| + |t| - 1] == t[|t| - 1];
    OutsideLeft(c, u + d, |a|);
    OutsideRight(c + u, d, |a| + |t| - 1);
  }

  lemma OneStripped(s: string, t: string, u: string)
    requires IsStripped(s, t) && IsStripped(s, u)
    ensures t == u
  {
    var a, b :| AllSpace(a) && AllSpace(b) && s == a + t + b;
    var c, d :| AllSpace(c) && AllSpace(d) && s == c + u + d;
    hide AllSpace, Space;
    if t != "" { Reaches(s, a, t, b, c, u, d); }
    if u != "" { Reaches(s, c, u, d, a, t, b); }
    if t != "" && u != "" {
      assert t == s[|a|..|a| + |t|] && u == s[|c|..|c| + |u|];
    }
  }

  lemma ContainsIs(s: string, part: string)
    ensures Contains(s, part) <==> exists a, b :: s == a + part + b
  {
    if Contains(s, part) {
      var i :| 0 <= i <= |s| && StartsWith(s[i..], part);
      assert s == s[..i] + part + s[i + |part|..];
    }
    if a, b :| s == a + part + b {
      assert s[|a|..] == part + b;
      assert StartsWith(s[|a|..], part);
    }
  }

  /** `w` stands in `s` with white space, or nothing, on both sides. */
  ghost predicate IsWordOf(s: string, w: string) {
    exists a, b ::
      && s == a + (w + b) && w != "" && NoSpace(w)
      && (a != "" ==> Space(a[|a| - 1])) && (b != "" ==> Space(b[0]))
  }

  lemma {:induction false} WordIs(s: string)
    ensures NoSpace(s[..WordLength(s)])
    ensures WordLength(s) < |s| ==> Space(s[WordLength(s)])
  {
    if s != "" && !Space(s[0]) {
      WordIs(s[1..]);
      assert forall i :: 0 < i < |s| ==> s[i] == s[1..][i - 1];
    }
  }

  lemma WordAt(s: string, a: string, w: string, b: string)
    requires s == a + (w + b) && w != "" && NoSpace(w)
    requires (a != "" ==> Space(a[|a| - 1])) && (b != "" ==> Space(b[0]))
    ensures IsWordOf(s, w)
  {
  }

  lemma WordParts(s: string, w: string) returns (a: string, b: string)
    requires IsWordOf(s, w)
    ensures s == a + (w + b) && w != "" && NoSpace(w)
    ensures (a != "" ==> Space(a[|a| - 1])) && (b != "" ==> Space(b[0]))
  {
    hide Space, NoSpace;
    a, b :| && s == a + (w + b) && w != "" && NoSpace(w)
      && (a != "" ==> Space(a[|a| - 1])) && (b != "" ==> Space(b[0]));
  }

  /** The words of the rest are words of the whole, when the cut falls before white space or after it. */
  lemma WordLater(s: string, k: nat, w: string)
    requires 0 < k <= |s| && (Space(s[k - 1]) || (k < |s| ==> Space(s[k]))) && IsWordOf(s[k..], w)
    ensures IsWordOf(s, w)
  {
    hide Space, IsWordOf;
    var front, from := s[..k], s[k..];
    var a, b := WordParts(from, w);
    assert front[k - 1] == s[k - 1] && from[0] == s[k] && (a == "" ==> from[0] == w[0]);
    WordAfter(front, a, w, b);
    assert s == front + from;
  }

  lemma WordAfter(front: string, a: string, w: string, b: string)
    requires w != "" && NoSpace(w) && (a != "" ==> Space(a[|a| - 1])) && (b != "" ==> Space(b[0]))
    requires front != "" && (a == "" ==> Space(front[|front| - 1]))
    ensures IsWordOf(front + (a + (w + b)), w)
  {
    hide Space, NoSpace, IsWordOf;
    var all := front + a;
    assert front + (a + (w + b)) == all + (w + b);
    assert all[|all| - 1] == if a == "" then front[|front| - 1] else a[|a| - 1];
    WordAt(all + (w + b), all, w, b);
  }

  lemma {:induction false} WordsThen(s: string, w: string)
    requires w in Words(s)
    ensures IsWordOf(s, w)
  {
    hide IsWordOf;
    if Space(s[0]) {
      WordsThen(s[1..], w);
      WordLater(s, 1, w);
    } else {
      var n := WordLength(s);
      WordIs(s);
      if w == s[..n] {
        assert s == "" + (w + s[n..]);
        assert s[n..] != "" ==> s[n..][0] == s[n];
        WordAt(s, "", w, s[n..]);
      } else {
        WordsThen(s[n..], w);
        WordLater(s, n, w);
      }
    }
  }

  lemma FirstWord(s: string, w: string, b: string)
    requires s == w + b && w != "" && NoSpace(w) && (b != "" ==> Space(b[0]))
    ensures w == s[..WordLength(s)]
  {
    var n := WordLength(s);
    WordIs(s);
    assert forall i :: 0 <= i < |w| ==> s[i] == w[i];
    assert forall i :: 0 <= i < n ==> s[i] == s[..n][i];
    assert b != "" ==> s[|w|] == b[0];
  }

  lemma {:induction false} WordsWhen(s: string, a: string, w: string, b: string)
    requires s == a + (w + b) && w != "" && NoSpace(w)
    requires (a != "" ==> Space(a[|a| - 1])) && (b != "" ==> Space(b[0]))
    ensures w in Words(s)
    decreases |s|
  {
    if a == "" {
      assert s == w + b && s[0] == w[0];
      FirstWord(s, w, b);
    } else if Space(s[0]) {
      assert s[1..] == a[1..] + (w + b);
      WordsWhen(s[1..], a[1..], w, b);
    } else {
      var n := WordLength(s);
      WordIs(s);
      assert forall i :: 0 <= i < n ==> s[i] == s[..n][i];
      assert s[|a| - 1] == a[|a| - 1];
      assert s[n..] == a[n..] + (w + b);
      WordsWhen(s[n..], a[n..], w, b);
    }
  }

  /** `split` finds exactly the words. */
  lemma WordsAre(s: string, w: string)
    ensures w in Words(s) <==> IsWordOf(s, w)
    ensures w in Words(s) ==> w != ""
  {
    hide Words;
    if w in Words(s) { WordsThen(s, w); }
    if IsWordOf(s, w) {
      var a, b := WordParts(s, w);
      WordsWhen(s, a, w, b);
    }
  }
}
