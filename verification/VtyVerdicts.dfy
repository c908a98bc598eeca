/** The two VTY verdicts of `parse_config` in app/drivers/cisco.py, over all `line vty` blocks. */
module VtyVerdicts {
  import opened Queries
  import opened Texts
  import opened LineBlocks

  datatype Verdict = Pass | Fail | Warn | Manual

  /** `transport input\s+(.+)`, the captured part stripped. */
  function Transport(l: string): Option<string> {
    if StartsWith(l, "transport input") && |l| >= 17 && Space(l[15]) then Some(Strip(l[15..])) else None
  }

  /** The last one in the block wins. */
  function LastTransport(body: seq<string>): (t: Option<string>)
    ensures t.Some? <==> exists l :: l in body && Transport(l).Some?
  {
    if body == [] then None
    else
      var n := |body| - 1;
      assert body == body[..n] + [body[n]];
      if Transport(body[n]).Some? then Transport(body[n]) else LastTransport(body[..n])
  }

  predicate Insecure(transport: string) { Contains(transport, "telnet") || Contains(transport, "all") }

  predicate IsBad(body: seq<string>) { LastTransport(body).Some? && Insecure(LastTransport(body).value) }
  predicate IsUndefined(body: seq<string>) { LastTransport(body).None? }
  predicate IsSecured(body: seq<string>) { LastTransport(body).Some? && !Insecure(LastTransport(body).value) }

  function DropWord(s: string): string { if s != "" && !Space(s[0]) then DropWord(s[1..]) else s }

  /** `access-class\s+\S+\s+in` at the start of the line. */
  predicate Restricts(l: string) {
    && StartsWith(l, "access-class") && |l| > 12 && Space(l[12])
    && var list := LeftStrip(l[12..]);
    var rest := DropWord(list);
    list != "" && rest != "" && Space(rest[0]) && StartsWith(LeftStrip(rest), "in")
  }

  predicate IsRestricted(body: seq<string>) { exists l :: l in body && Restricts(l) }

  function BadBlock(): Block -> bool { (b: Block) => IsBad(b.body) }
  function UndefinedBlock(): Block -> bool { (b: Block) => IsUndefined(b.body) }
  function OpenBlock(): Block -> bool { (b: Block) => !IsRestricted(b.body) }
  function NameOf(): Block -> string { (b: Block) => b.name }

  function SshVerdict(blocks: seq<Block>): Verdict {
    if blocks == [] then Manual
    else if exists b :: b in blocks && IsBad(b.body) then Fail
    else if exists b :: b in blocks && IsUndefined(b.body) then Warn
    else Pass
  }

  function AclVerdict(blocks: seq<Block>): Verdict {
    if blocks == [] then Manual
    else if exists b :: b in blocks && !IsRestricted(b.body) then Fail
    else Pass
  }

  method FindTransport(body: seq<string>) returns (ti: Option<string>)
    ensures ti == LastTransport(body)
  {
    ti := None;
    for i := 0 to |body|
      invariant ti == LastTransport(body[..i])
    {
      assert body[..i + 1][..i] == body[..i];
      if Transport(body[i]).Some? {
        ti := Transport(body[i]);
      }
    }
    assert body[..|body|] == body;
  }

  /** The transport half of the VTY part of `parse_config`; `bad` and `undef` are named in its description. */
  method CheckTransport(blocks: seq<Block>) returns (verdict: Verdict, bad: seq<string>, undef: seq<string>)
    ensures verdict == SshVerdict(blocks)
    ensures bad == Collect(Where(blocks, BadBlock()), NameOf())
    ensures undef == Collect(Where(blocks, UndefinedBlock()), NameOf())
    ensures forall n :: n in bad <==> exists b :: b in blocks && b.name == n && IsBad(b.body)
    ensures forall n :: n in undef <==> exists b :: b in blocks && b.name == n && IsUndefined(b.body)
  {
    hide IsBad, IsUndefined, LastTransport, Insecure;
    bad, undef := [], [];
    for i := 0 to |blocks|
      invariant bad == Collect(Where(blocks[..i], BadBlock()), NameOf())
      invariant undef == Collect(Where(blocks[..i], UndefinedBlock()), NameOf())
    {
      assert blocks[..i + 1][..i] == blocks[..i];
      var b := blocks[i];
      var ti := FindTransport(b.body);
      TransportCases(b.body);
      if ti.None? {
        undef := undef + [b.name];
      } else if Insecure(ti.value) {
        bad := bad + [b.name];
      }
    }
    assert blocks[..|blocks|] == blocks;
    NoneSelected(blocks, BadBlock());
    NoneSelected(blocks, UndefinedBlock());
    NamesAre(blocks, BadBlock());
    NamesAre(blocks, UndefinedBlock());
    verdict := if blocks == [] then Manual else if bad != [] then Fail else if undef != [] then Warn else Pass;
  }

  /** The access-list half. */
  method CheckAccess(blocks: seq<Block>) returns (verdict: Verdict, open: seq<string>)
    ensures verdict == AclVerdict(blocks)
    ensures open == Collect(Where(blocks, OpenBlock()), NameOf())
    ensures forall n :: n in open <==> exists b :: b in blocks && b.name == n && !IsRestricted(b.body)
  {
    hide IsRestricted;
    open := [];
    for i := 0 to |blocks|
      invariant open == Collect(Where(blocks[..i], OpenBlock()), NameOf())
    {
      assert blocks[..i + 1][..i] == blocks[..i];
      if !IsRestricted(blocks[i].body) {
        open := open + [blocks[i].name];
      }
    }
    assert blocks[..|blocks|] == blocks;
    NoneSelected(blocks, OpenBlock());
    NamesAre(blocks, OpenBlock());
    verdict := if blocks == [] then Manual else if open != [] then Fail else Pass;
  }

  method VtyChecks(lines: seq<string>) returns (ssh: Verdict, acl: Verdict)
    ensures ssh == SshVerdict(VtyBlocks(lines)) && acl == AclVerdict(VtyBlocks(lines))
  {
    var blocks := SplitLineBlocks(lines, "vty");
    var bad, undef, open;
    ssh, bad, undef := CheckTransport(blocks);
    acl, open := CheckAccess(blocks);
  }

  lemma TransportCases(body: seq<string>)
    ensures IsUndefined(body) <==> LastTransport(body).None?
    ensures IsBad(body) <==> LastTransport(body).Some? && Insecure(LastTransport(body).value)
    ensures IsSecured(body) <==> !IsUndefined(body) && !IsBad(body)
  {
  }

  lemma NamesAre(blocks: seq<Block>, p: Block -> bool)
    ensures forall n :: n in Collect(Where(blocks, p), NameOf()) <==> exists b :: b in blocks && b.name == n && p(b)
  {
    hide Where;
    WhereMembers(blocks, p);
    var chosen := Where(blocks, p);
    var names := Collect(chosen, NameOf());
    forall n | n in names ensures exists b :: b in blocks && b.name == n && p(b) {
      var i :| 0 <= i < |names| && names[i] == n;
      assert chosen[i] in chosen;
    }
    forall b | b in chosen ensures b.name in names {
      var i :| 0 <= i < |chosen| && chosen[i] == b;
      assert names[i] == b.name;
    }
  }

  lemma NoneSelected(blocks: seq<Block>, p: Block -> bool)
    ensures Collect(Where(blocks, p), NameOf()) == [] <==> Where(blocks, p) == []
    ensures Where(blocks, p) == [] <==> forall b :: b in blocks ==> !p(b)
  {
  }

  // ----- what the verdicts say about the configuration -----

  function VtyBlocks(lines: seq<string>): seq<Block> {
    Where(Blocks(Grouped(lines).sections), OfKind("vty"))
  }

  predicate IsVty(e: Section) { OpensBlock(e.head) && IsLineOf(Strip(e.head), "vty") }

  lemma VtyBlocksAre(lines: seq<string>)
    ensures forall e :: e in Grouped(lines).sections && IsVty(e) ==> BlockOf(e) in VtyBlocks(lines)
    ensures forall b :: b in VtyBlocks(lines) ==>
      exists e :: e in Grouped(lines).sections && IsVty(e) && BlockOf(e) == b
  {
    hide Grouped, OpensBlock, IsLineOf, Strip, Commands;
    var es := Grouped(lines).sections;
    WhereMembers(es, Opening());
    WhereMembers(Blocks(es), OfKind("vty"));
    var opened_ := Where(es, Opening());
    assert Blocks(es) == Collect(opened_, AsBlock());
    forall e | e in es && IsVty(e) ensures BlockOf(e) in VtyBlocks(lines) {
      var i :| 0 <= i < |opened_| && opened_[i] == e;
      assert Blocks(es)[i] == BlockOf(e);
    }
    forall b | b in VtyBlocks(lines) ensures exists e :: e in es && IsVty(e) && BlockOf(e) == b {
      var i :| 0 <= i < |Blocks(es)| && Blocks(es)[i] == b;
      assert opened_[i] in opened_;
    }
  }

  lemma PassMeans(lines: seq<string>)
    ensures var es := Grouped(lines).sections;
      && (SshVerdict(VtyBlocks(lines)).Pass? <==>
            && (exists e :: e in es && IsVty(e))
            && forall e :: e in es && IsVty(e) ==> IsSecured(Commands(e.rows)))
      && (AclVerdict(VtyBlocks(lines)).Pass? <==>
            && (exists e :: e in es && IsVty(e))
            && forall e :: e in es && IsVty(e) ==> IsRestricted(Commands(e.rows)))
      && (SshVerdict(VtyBlocks(lines)).Manual? <==> forall e :: e in es ==> !IsVty(e))
  {
    hide Grouped, IsVty, IsRestricted, IsBad, IsUndefined, IsSecured, VtyBlocks, Commands;
    VtyBlocksAre(lines);
    var es, blocks := Grouped(lines).sections, VtyBlocks(lines);
    forall e | e in es && IsVty(e) ensures BlockOf(e) in blocks && BlockOf(e).body == Commands(e.rows) {
    }
    forall b | b in blocks ensures IsSecured(b.body) <==> !IsUndefined(b.body) && !IsBad(b.body) {
      TransportCases(b.body);
    }
    if blocks != [] { assert blocks[0] in blocks; }
  }

  lemma AclManual(blocks: seq<Block>)
    ensures AclVerdict(blocks).Manual? <==> SshVerdict(blocks).Manual?
  {
  }

  /**
   A pass is less than its description says: a block whose only transport is `none` passes,
   although the description speaks of SSH only.
   */
  lemma PassWithoutSsh(name: string, command: string)
    requires name == "line vty 0 4" && command == "transport input none"
    ensures SshVerdict(VtyBlocks([name, " " + command])).Pass?
  {
    hide Printable, IsLineOf, Strip, Lines, Rendered, LastTransport, IsBad, IsUndefined, VtyBlocks;
    VtyName(name);
    PrintableNone(name, command);
    SecuredNone(command);
    var b := Block(name, [command]);
    OnlyBlock(b);
    BlockLines(b);
    assert forall x :: x in [b] ==> x == b;
  }

  lemma OnlyBlock(b: Block)
    requires Printable(b) && IsLineOf(b.name, "vty")
    ensures VtyBlocks(Lines(Config([], [Rendered(b)]))) == [b]
  {
    hide Printable, Lines, Grouped, IsLineOf, Rendered, IsSection, OpensBlock, Blocks, Commands;
    var piece := Shown(b);
    assert Collect([piece], Text()) == [Rendered(b)];
    SplitRendered([], [piece], "vty");
    assert ShownBlocks([piece]) == [b] by { assert [piece][..0] == []; }
    assert Where([b], OfKind("vty")) == [b] by { assert [b][..0] == []; }
  }

  lemma BlockLines(b: Block)
    requires |b.body| == 1
    ensures Lines(Config([], [Rendered(b)])) == [b.name, " " + b.body[0]]
  {
  }

  lemma VtyName(name: string)
    requires name == "line vty 0 4"
    ensures IsLineHeader(name) && IsLineOf(name, "vty")
  {
  }

  lemma PrintableNone(name: string, command: string)
    requires name == "line vty 0 4" && command == "transport input none"
    ensures Printable(Block(name, [command]))
  {
    VtyName(name);
    hide IsLineHeader;
    assert Strip(name) == name && Strip(command) == command;
  }

  lemma SecuredNone(command: string)
    requires command == "transport input none"
    ensures !IsBad([command]) && !IsUndefined([command])
  {
    var rest := command[15..];
    assert rest == " none" && rest[1..] == "none";
    assert LeftStrip(rest) == LeftStrip(rest[1..]) == rest[1..];
    assert Strip(rest) == rest[1..];
    var t := rest[1..];
    forall i | 0 <= i <= |t| ensures !StartsWith(t[i..], "all") && !StartsWith(t[i..], "telnet") {
      assert |t[i..]| < 3 || t[i..][0] != 'a';
    }
  }

  // ----- the verdicts, said of the words in the configuration -----

  /** `transport input`, white space and something; `t` is that something without white space around it. */
  ghost predicate SetsTransport(l: string, t: string) {
    exists gap, rest ::
      && l == "transport input" + gap + rest && gap != "" && AllSpace(gap) && rest != "" && IsStripped(rest, t)
  }

  /** `access-class`, white space, a word, white space and `in`. */
  ghost predicate RestrictsIn(l: string) {
    exists a, list, b, rest ::
      && l == "access-class" + (a + (list + (b + ("in" + rest))))
      && a != "" && AllSpace(a) && list != "" && NoSpace(list) && b != "" && AllSpace(b)
  }

  lemma MoreGap(gap: string, rest: string, t: string)
    requires AllSpace(gap) && IsStripped(rest, t)
    ensures IsStripped(gap + rest, t)
  {
    var a, b :| AllSpace(a) && AllSpace(b) && rest == a + t + b;
    assert gap + rest == (gap + a) + t + b;
    assert AllSpace(gap + a);
  }

  lemma StripGap(gap: string, rest: string, t: string)
    requires AllSpace(gap)
    ensures IsStripped(gap + rest, t) <==> IsStripped(rest, t)
  {
    hide IsStripped, Strip, AllSpace;
    StripIs(rest);
    MoreGap(gap, rest, Strip(rest));
    if IsStripped(rest, t) { MoreGap(gap, rest, t); }
    if IsStripped(gap + rest, t) { OneStripped(gap + rest, t, Strip(rest)); }
  }

  lemma TransportIs(l: string, t: string)
    ensures Transport(l) == Some(t) <==> SetsTransport(l, t)
  {
    if Transport(l) == Some(t) {
      var gap, rest := l[15..16], l[16..];
      assert l == "transport input" + gap + rest && AllSpace(gap) && l[15..] == gap + rest;
      StripIs(l[15..]);
      StripGap(gap, rest, t);
    }
    if SetsTransport(l, t) {
      var gap, rest :| l == "transport input" + gap + rest && gap != "" && AllSpace(gap) && rest != ""
        && IsStripped(rest, t);
      assert l[..15] == "transport input" && l[15] == gap[0] && l[15..] == gap + rest;
      StripGap(gap, rest, t);
      StripIs(l[15..]);
    }
  }

  /** What comes off in front: white space, or a word. */
  lemma {:induction false} LeadingSpace(s: string)
    ensures |LeftStrip(s)| <= |s| && s[|s| - |LeftStrip(s)|..] == LeftStrip(s)
    ensures AllSpace(s[..|s| - |LeftStrip(s)|]) && (LeftStrip(s) != "" ==> !Space(LeftStrip(s)[0]))
  {
    if s != "" && Space(s[0]) {
      LeadingSpace(s[1..]);
      assert forall i :: 0 < i < |s| ==> s[i] == s[1..][i - 1];
    }
  }

  lemma {:induction false} LeadingWord(s: string)
    ensures |DropWord(s)| <= |s| && s[|s| - |DropWord(s)|..] == DropWord(s)
    ensures NoSpace(s[..|s| - |DropWord(s)|]) && (DropWord(s) != "" ==> Space(DropWord(s)[0]))
  {
    if s != "" && !Space(s[0]) {
      LeadingWord(s[1..]);
      assert forall i :: 0 < i < |s| ==> s[i] == s[1..][i - 1];
    }
  }

  /** White space and then a word come off exactly as they were put on. */
  lemma {:induction false} Unstripped(a: string, rest: string)
    requires AllSpace(a) && (rest != "" ==> !Space(rest[0]))
    ensures LeftStrip(a + rest) == rest
  {
    if a == "" {
      assert a + rest == rest;
    } else {
      assert (a + rest)[1..] == a[1..] + rest;
      Unstripped(a[1..], rest);
    }
  }

  lemma {:induction false} Undropped(w: string, rest: string)
    requires NoSpace(w) && (rest != "" ==> Space(rest[0]))
    ensures DropWord(w + rest) == rest
  {
    if w == "" {
      assert w + rest == rest;
    } else {
      assert (w + rest)[1..] == w[1..] + rest;
      Undropped(w[1..], rest);
    }
  }

  lemma Assembled(l: string, a: string, list: string, b: string, rest: string)
    requires l == "access-class" + (a + (list + (b + ("in" + rest))))
    requires a != "" && AllSpace(a) && list != "" && NoSpace(list) && b != "" && AllSpace(b)
    ensures RestrictsIn(l)
  {
  }

  /** The space, the word and the space that the two strippings take off. */
  lemma Pieces(from: string) returns (a: string, w: string, b: string)
    ensures var list := LeftStrip(from);
      var rest := DropWord(list);
      && AllSpace(a) && NoSpace(w) && AllSpace(b)
      && from == a + list && list == w + rest && rest == b + LeftStrip(rest)
      && (list != "" ==> !Space(list[0])) && (rest != "" ==> Space(rest[0]))
      && (LeftStrip(rest) != "" ==> !Space(LeftStrip(rest)[0]))
  {
    var list := LeftStrip(from);
    var rest := DropWord(list);
    var last := LeftStrip(rest);
    LeadingSpace(from);
    LeadingWord(list);
    LeadingSpace(rest);
    hide LeftStrip, DropWord, Space, AllSpace, NoSpace;
    a, w, b := from[..|from| - |list|], list[..|list| - |rest|], rest[..|rest| - |last|];
  }

  lemma RestrictsThen(l: string)
    requires Restricts(l)
    ensures RestrictsIn(l)
  {
    hide LeftStrip, DropWord, Space, AllSpace, NoSpace, RestrictsIn;
    var from := l[12..];
    var a, w, b := Pieces(from);
    var list := LeftStrip(from);
    var rest := DropWord(list);
    var last := LeftStrip(rest);
    var tail := last[2..];
    assert last == "in" + tail;
    assert l == "access-class" + from && from[0] == l[12];
    assert a == "" ==> from == list;
    assert w == "" ==> list == rest;
    assert b == "" ==> rest == last;
    Assembled(l, a, w, b, tail);
  }

  lemma RestrictsWhen(l: string, a: string, list: string, b: string, rest: string)
    requires l == "access-class" + (a + (list + (b + ("in" + rest))))
    requires a != "" && AllSpace(a) && list != "" && NoSpace(list) && b != "" && AllSpace(b)
    ensures Restricts(l)
  {
    var tail := "in" + rest;
    NotSpace('i');
    assert l[..12] == "access-class" && l[12] == a[0] && l[12..] == a + (list + (b + tail));
    Unstripped(a, list + (b + tail));
    Undropped(list, b + tail);
    Unstripped(b, tail);
  }

  /** The access-list rule. */
  lemma RestrictsIs(l: string)
    ensures Restricts(l) <==> RestrictsIn(l)
  {
    hide Restricts;
    if Restricts(l) { RestrictsThen(l); }
    if RestrictsIn(l) {
      var a, list, b, rest :| && l == "access-class" + (a + (list + (b + ("in" + rest))))
        && a != "" && AllSpace(a) && list != "" && NoSpace(list) && b != "" && AllSpace(b);
      RestrictsWhen(l, a, list, b, rest);
    }
  }

  lemma NotSpace(c: char)
    requires c == 'i'
    ensures !Space(c)
  {
    assert c as int == 0x69;
  }

  /** The line is indented, and its text sets this transport; or it restricts. */
  ghost predicate RowSets(raw: string, t: string) {
    raw != "" && (raw[0] == ' ' || raw[0] == '\t') && exists l :: IsStripped(raw, l) && SetsTransport(l, t)
  }

  ghost predicate RowRestricts(raw: string) {
    raw != "" && (raw[0] == ' ' || raw[0] == '\t') && exists l :: IsStripped(raw, l) && RestrictsIn(l)
  }

  /** The last line of the section that sets a transport sets this one. */
  ghost predicate InForce(rows: seq<string>, t: string) {
    exists i :: 0 <= i < |rows| && RowSets(rows[i], t) && forall j, u :: i < j < |rows| ==> !RowSets(rows[j], u)
  }

  /** Not indented; and without the white space around it `line`, white space, `vty` and then no more of a word. */
  ghost predicate HeadsVty(raw: string) {
    && raw != "" && raw[0] != ' ' && raw[0] != '\t'
    && exists gap, rest ::
      && IsStripped(raw, "line" + (gap + ("vty" + rest))) && gap != "" && AllSpace(gap)
      && (rest == "" || !('a' <= rest[0] <= 'z' || 'A' <= rest[0] <= 'Z' || '0' <= rest[0] <= '9' || rest[0] == '_'))
  }

  ghost predicate NamesInsecure(t: string) {
    (exists a, b :: t == a + "telnet" + b) || (exists a, b :: t == a + "all" + b)
  }

  lemma RowSetsIs(raw: string, t: string)
    ensures RowSets(raw, t) <==> IsSub(raw) && Transport(Strip(raw)) == Some(t)
  {
    hide Transport, Strip, IsStripped, SetsTransport;
    StripIs(raw);
    TransportIs(Strip(raw), t);
    NothingSet(t);
  }

  lemma NothingSet(t: string)
    ensures !SetsTransport("", t) && !RestrictsIn("")
  {
  }

  lemma RowRestrictsIs(raw: string)
    ensures RowRestricts(raw) <==> IsSub(raw) && Restricts(Strip(raw))
  {
    hide Restricts, Strip, IsStripped, RestrictsIn;
    StripIs(raw);
    RestrictsIs(Strip(raw));
    NothingSet("");
  }

  lemma InForceNext(rows: seq<string>, raw: string, t: string)
    ensures InForce(rows + [raw], t) <==> RowSets(raw, t) || (InForce(rows, t) && forall u :: !RowSets(raw, u))
  {
    hide RowSets;
    var more := rows + [raw];
    if InForce(rows, t) && forall u :: !RowSets(raw, u) {
      var i :| 0 <= i < |rows| && RowSets(rows[i], t) && forall j, u :: i < j < |rows| ==> !RowSets(rows[j], u);
      assert more[i] == rows[i];
      forall j, u | i < j < |more| ensures !RowSets(more[j], u) {
        if j < |rows| { assert more[j] == rows[j]; }
      }
    }
    if RowSets(raw, t) { assert more[|rows|] == raw; }
    if InForce(more, t) && !RowSets(raw, t) {
      var i :| 0 <= i < |more| && RowSets(more[i], t) && forall j, u :: i < j < |more| ==> !RowSets(more[j], u);
      assert i < |rows| && more[|rows|] == raw;
      forall j, u | i < j < |rows| ensures !RowSets(rows[j], u) { assert more[j] == rows[j]; }
      assert rows[i] == more[i];
    }
  }

  lemma LastTransportNext(body: seq<string>, l: string)
    ensures LastTransport(body + [l]) == if Transport(l).Some? then Transport(l) else LastTransport(body)
  {
    hide Transport;
    assert (body + [l])[..|body|] == body;
  }

  /** The transport a section ends up with. */
  lemma {:induction false} InForceIs(rows: seq<string>, t: string)
    ensures InForce(rows, t) <==> LastTransport(Commands(rows)) == Some(t)
  {
    hide RowSets, InForce, LastTransport, Transport, Commands, IsSub, Strip;
    if rows == [] {
      NothingInForce(t);
    } else {
      var n := |rows| - 1;
      var raw := rows[n];
      assert rows == rows[..n] + [raw];
      InForceIs(rows[..n], t);
      InForceNext(rows[..n], raw, t);
      CommandsNext(rows[..n], raw);
      LastTransportNext(Commands(rows[..n]), Strip(raw));
      forall u ensures RowSets(raw, u) <==> IsSub(raw) && Transport(Strip(raw)) == Some(u) { RowSetsIs(raw, u); }
      if IsSub(raw) && Transport(Strip(raw)).Some? { assert RowSets(raw, Transport(Strip(raw)).value); }
      assert Commands(rows[..n]) + [] == Commands(rows[..n]);
    }
  }

  lemma NothingInForce(t: string)
    ensures !InForce([], t) && LastTransport(Commands([])).None?
  {
    assert Commands([]) == [];
  }

  lemma RestrictedIs(rows: seq<string>)
    ensures IsRestricted(Commands(rows)) <==> exists raw :: raw in rows && RowRestricts(raw)
  {
    hide RowRestricts, Restricts, IsSub, Strip;
    var subs := Where(rows, SubLines());
    WhereMembers(rows, SubLines());
    if IsRestricted(Commands(rows)) {
      var l :| l in Commands(rows) && Restricts(l);
      var i :| 0 <= i < |subs| && Commands(rows)[i] == l;
      RowRestrictsIs(subs[i]);
      assert subs[i] in subs;
    }
    if raw :| raw in rows && RowRestricts(raw) {
      RowRestrictsIs(raw);
      assert raw in subs;
      var i :| 0 <= i < |subs| && subs[i] == raw;
      assert Commands(rows)[i] == Strip(raw);
    }
  }

  lemma IsVtyThen(e: Section)
    requires IsVty(e)
    ensures HeadsVty(e.head)
  {
    var t := Strip(e.head);
    StripIs(e.head);
    hide Strip, IsStripped;
    var tail := t[4..];
    LeftStripIs(tail);
    var gap :| AllSpace(gap) && tail == gap + LeftStrip(tail);
    var rest := LeftStrip(tail)[3..];
    assert LeftStrip(tail) == "vty" + rest;
    assert gap == "" ==> tail == "vty" + rest;
    NotSpaceV('v');
    assert t == "line" + (gap + ("vty" + rest));
  }

  lemma NotSpaceV(c: char)
    requires c == 'v'
    ensures !Space(c)
  {
    assert c as int == 0x76;
  }

  lemma IsVtyWhen(e: Section)
    requires HeadsVty(e.head)
    ensures IsVty(e)
  {
    hide IsStripped;
    StripIs(e.head);
    var gap, rest :| && IsStripped(e.head, "line" + (gap + ("vty" + rest))) && gap != "" && AllSpace(gap)
      && (rest == "" || !('a' <= rest[0] <= 'z' || 'A' <= rest[0] <= 'Z' || '0' <= rest[0] <= '9' || rest[0] == '_'));
    var t := "line" + (gap + ("vty" + rest));
    NotSpaceV('v');
    assert t[..4] == "line" && t[4] == gap[0] && t[4..] == gap + ("vty" + rest);
    Unstripped(gap, "vty" + rest);
    assert Strip(e.head) == t;
  }

  /** The lines that end a section: those that are not indented and not blank. */
  lemma TopLevelIs(raw: string)
    ensures TopLevel(raw) <==>
      raw != "" && raw[0] != ' ' && raw[0] != '\t' && exists i :: 0 <= i < |raw| && !Space(raw[i])
  {
    StripIs(raw);
    hide Strip, Space;
    var a, b :| AllSpace(a) && AllSpace(b) && raw == a + Strip(raw) + b;
    if Strip(raw) != "" { assert raw[|a|] == Strip(raw)[0]; }
  }

  lemma InsecureIs(t: string)
    ensures Insecure(t) <==> NamesInsecure(t)
  {
    hide Contains;
    ContainsIs(t, "telnet");
    ContainsIs(t, "all");
  }

  /** The transport in force names neither word; some line restricts who may connect. */
  ghost predicate Secured(rows: seq<string>) { exists t :: InForce(rows, t) && !NamesInsecure(t) }
  ghost predicate Covered(rows: seq<string>) { exists raw :: raw in rows && RowRestricts(raw) }

  /** What a VTY section deserves. */
  lemma SectionSays(e: Section)
    ensures IsVty(e) <==> HeadsVty(e.head)
    ensures IsBad(Commands(e.rows)) <==> exists t :: InForce(e.rows, t) && NamesInsecure(t)
    ensures IsUndefined(Commands(e.rows)) <==> forall t :: !InForce(e.rows, t)
    ensures IsSecured(Commands(e.rows)) <==> Secured(e.rows)
    ensures IsRestricted(Commands(e.rows)) <==> Covered(e.rows)
  {
    hide HeadsVty, IsVty, InForce, NamesInsecure, Insecure, LastTransport, Commands, IsRestricted, RowRestricts;
    if IsVty(e) { IsVtyThen(e); }
    if HeadsVty(e.head) { IsVtyWhen(e); }
    forall t ensures InForce(e.rows, t) <==> LastTransport(Commands(e.rows)) == Some(t) { InForceIs(e.rows, t); }
    forall t ensures Insecure(t) <==> NamesInsecure(t) { InsecureIs(t); }
    if LastTransport(Commands(e.rows)).Some? { assert InForce(e.rows, LastTransport(Commands(e.rows)).value); }
    RestrictedIs(e.rows);
  }

  /** Some VTY section's last `transport input` names `telnet` or `all`. */
  ghost predicate SomeInsecure(es: seq<Section>) {
    exists e, t :: e in es && HeadsVty(e.head) && InForce(e.rows, t) && NamesInsecure(t)
  }

  /** Some VTY section sets no transport at all. */
  ghost predicate SomeUnset(es: seq<Section>) {
    exists e :: e in es && HeadsVty(e.head) && forall raw, t :: raw in e.rows ==> !RowSets(raw, t)
  }

  /** Some VTY section has no access list on the way in. */
  ghost predicate SomeOpen(es: seq<Section>) {
    exists e :: e in es && HeadsVty(e.head) && forall raw :: raw in e.rows ==> !RowRestricts(raw)
  }

  lemma {:induction false} UnsetIs(rows: seq<string>)
    ensures (forall t :: !InForce(rows, t)) <==> forall raw, t :: raw in rows ==> !RowSets(raw, t)
  {
    hide RowSets, InForce;
    if rows == [] {
      forall t ensures !InForce(rows, t) { NothingInForce(t); }
    } else {
      var n := |rows| - 1;
      assert rows == rows[..n] + [rows[n]];
      UnsetIs(rows[..n]);
      forall t ensures InForce(rows, t) <==>
                       RowSets(rows[n], t) || (InForce(rows[..n], t) && forall u :: !RowSets(rows[n], u))
      {
        InForceNext(rows[..n], rows[n], t);
      }
    }
  }

  /** What the blocks that were found say, said of the sections. */
  lemma BlocksSay(lines: seq<string>)
    ensures var es, blocks := Grouped(lines).sections, VtyBlocks(lines);
      && (blocks != [] <==> exists e :: e in es && HeadsVty(e.head))
      && ((exists b :: b in blocks && IsBad(b.body)) <==> SomeInsecure(es))
      && ((exists b :: b in blocks && IsUndefined(b.body)) <==> SomeUnset(es))
      && ((exists b :: b in blocks && !IsRestricted(b.body)) <==> SomeOpen(es))
  {
    hide Grouped, IsVty, IsRestricted, IsBad, IsUndefined, VtyBlocks, Commands;
    hide HeadsVty, InForce, NamesInsecure, RowRestricts, RowSets;
    VtyBlocksAre(lines);
    var es, blocks := Grouped(lines).sections, VtyBlocks(lines);
    forall e | e in es
      ensures BlockOf(e).body == Commands(e.rows)
      ensures IsVty(e) <==> HeadsVty(e.head)
      ensures IsBad(Commands(e.rows)) <==> exists t :: InForce(e.rows, t) && NamesInsecure(t)
      ensures IsUndefined(Commands(e.rows)) <==> forall raw, t :: raw in e.rows ==> !RowSets(raw, t)
      ensures IsRestricted(Commands(e.rows)) <==> exists raw :: raw in e.rows && RowRestricts(raw)
    {
      SectionSays(e);
      UnsetIs(e.rows);
    }
    if blocks != [] { assert blocks[0] in blocks; }
  }

  /**
   The SSH verdict, in the words of the configuration. Whatever the lines are: it fails if and
   only if some VTY section's last `transport input` names telnet or all; it warns if and only if
   it does not fail and some VTY section sets none; it passes if and only if there is a VTY
   section and neither is the case.
   */
  lemma SshVerdictIs(lines: seq<string>)
    ensures var es, verdict := Grouped(lines).sections, SshVerdict(VtyBlocks(lines));
      && (verdict.Fail? <==> SomeInsecure(es))
      && (verdict.Warn? <==> !SomeInsecure(es) && SomeUnset(es))
      && (verdict.Pass? <==> (exists e :: e in es && HeadsVty(e.head)) && !SomeInsecure(es) && !SomeUnset(es))
      && (verdict.Manual? <==> forall e :: e in es ==> !HeadsVty(e.head))
  {
    hide Grouped, VtyBlocks, IsBad, IsUndefined, HeadsVty, SomeInsecure, SomeUnset, SomeOpen;
    BlocksSay(lines);
  }

  /** The access-list verdict likewise: it passes if and only if there is a VTY section and each has its access list. */
  lemma AclVerdictIs(lines: seq<string>)
    ensures var es, verdict := Grouped(lines).sections, AclVerdict(VtyBlocks(lines));
      && (verdict.Fail? <==> SomeOpen(es))
      && (verdict.Pass? <==> (exists e :: e in es && HeadsVty(e.head)) && !SomeOpen(es))
      && (verdict.Manual? <==> forall e :: e in es ==> !HeadsVty(e.head))
  {
    hide Grouped, VtyBlocks, IsRestricted, HeadsVty, SomeInsecure, SomeUnset, SomeOpen;
    BlocksSay(lines);
  }

  /**
   A pass covers every VTY block: there is one, and each has a `transport input` in force that
   names neither telnet nor all; and likewise for the access list. The sections of a
   configuration are all its lines, so no VTY line is overlooked.
   */
  lemma PassCoversEveryBlock(lines: seq<string>)
    ensures var es := Grouped(lines).sections;
      && (SshVerdict(VtyBlocks(lines)).Pass? <==>
            && (exists e :: e in es && HeadsVty(e.head))
            && forall e :: e in es && HeadsVty(e.head) ==> Secured(e.rows))
      && (AclVerdict(VtyBlocks(lines)).Pass? <==>
            && (exists e :: e in es && HeadsVty(e.head))
            && forall e :: e in es && HeadsVty(e.head) ==> Covered(e.rows))
      && (SshVerdict(VtyBlocks(lines)).Manual? <==> forall e :: e in es ==> !HeadsVty(e.head))
  {
    hide Grouped, VtyBlocks, IsVty, HeadsVty, IsSecured, Secured, Covered, IsRestricted, SshVerdict, AclVerdict;
    PassMeans(lines);
    forall e | e in Grouped(lines).sections
      ensures IsVty(e) <==> HeadsVty(e.head)
      ensures IsSecured(Commands(e.rows)) <==> Secured(e.rows)
      ensures IsRestricted(Commands(e.rows)) <==> Covered(e.rows)
    {
      SectionSays(e);
    }
  }

  /**
   Adding a section to a configuration never creates a pass, except that the first VTY block
   turns "no block found, check by hand" into whatever that block deserves.
   */
  lemma AddingNeverCreatesAPass(preamble: seq<string>, before: seq<Section>, e: Section, after: seq<Section>)
    requires IsConfig(Config(preamble, before + [e] + after))
    ensures var old_ := VtyBlocks(Lines(Config(preamble, before + after)));
      var new_ := VtyBlocks(Lines(Config(preamble, before + [e] + after)));
      && (SshVerdict(new_).Pass? <==>
            if HeadsVty(e.head) then Secured(e.rows) && (SshVerdict(old_).Pass? || SshVerdict(old_).Manual?)
            else SshVerdict(old_).Pass?)
      && (AclVerdict(new_).Pass? <==>
            if HeadsVty(e.head) then Covered(e.rows) && (AclVerdict(old_).Pass? || AclVerdict(old_).Manual?)
            else AclVerdict(old_).Pass?)
  {
    hide IsSection, IsRow, Lines, Grouped, VtyBlocks, SshVerdict, AclVerdict, HeadsVty, Secured, Covered;
    var less, more := before + after, before + [e] + after;
    forall x | x in less ensures x in more {
      var i :| 0 <= i < |less| && less[i] == x;
      assert more[if i < |before| then i else i + 1] == x;
    }
    forall x | x in more ensures x in less || x == e {
      var i :| 0 <= i < |more| && more[i] == x;
      if i != |before| { assert less[if i < |before| then i else i - 1] == x; }
    }
    assert more[|before|] == e;
    GroupedUnique(Config(preamble, less));
    GroupedUnique(Config(preamble, more));
    PassCoversEveryBlock(Lines(Config(preamble, less)));
    PassCoversEveryBlock(Lines(Config(preamble, more)));
    AclManual(VtyBlocks(Lines(Config(preamble, less))));
  }
}
