/**
 The `line` block splitter of app/drivers/cisco.py and the two VTY verdicts built on it. A
 running configuration is given as its lines, without line terminators.
 */
module LineBlocks {
  import opened Queries
  import opened Texts

  predicate Word(c: char) { 'a' <= c <= 'z' || 'A' <= c <= 'Z' || '0' <= c <= '9' || c == '_' }

  /** `^line\s+\S+` */
  predicate IsLineHeader(t: string) {
    StartsWith(t, "line") && |t| > 4 && Space(t[4]) && LeftStrip(t[4..]) != ""
  }

  /** `^line\s+<kind>\b` */
  predicate IsLineOf(t: string, kind: string) {
    && StartsWith(t, "line") && |t| > 4 && Space(t[4])
    && var rest := LeftStrip(t[4..]);
    StartsWith(rest, kind) && (|rest| == |kind| || !Word(rest[|kind|]))
  }

  // ----- sections: the lines of a configuration, grouped under their top-level lines -----

  predicate Indented(raw: string) { raw != "" && (raw[0] == ' ' || raw[0] == '\t') }

  predicate TopLevel(raw: string) { !Indented(raw) && Strip(raw) != "" }

  predicate OpensBlock(raw: string) { !Indented(raw) && IsLineHeader(Strip(raw)) }

  /** A top-level line with the lines up to the next one: indented ones and blank ones. */
  datatype Section = Section(head: string, rows: seq<string>)

  datatype Block = Block(name: string, body: seq<string>)

  predicate IsRow(raw: string) { !TopLevel(raw) }

  predicate IsSection(e: Section) { TopLevel(e.head) && forall r :: r in e.rows ==> IsRow(r) }

  datatype Config = Config(preamble: seq<string>, sections: seq<Section>)

  predicate IsConfig(c: Config) {
    (forall r :: r in c.preamble ==> IsRow(r)) && forall e :: e in c.sections ==> IsSection(e)
  }

  function Lines(c: Config): seq<string>
    decreases |c.sections|
  {
    if c.sections == [] then c.preamble
    else
      var n := |c.sections| - 1;
      Lines(c.(sections := c.sections[..n])) + [c.sections[n].head] + c.sections[n].rows
  }

  function Grown(c: Config, raw: string): Config {
    if TopLevel(raw) then c.(sections := c.sections + [Section(raw, [])])
    else if c.sections == [] then c.(preamble := c.preamble + [raw])
    else
      var n := |c.sections| - 1;
      c.(sections := c.sections[..n] + [c.sections[n].(rows := c.sections[n].rows + [raw])])
  }

  function Grouped(lines: seq<string>): Config {
    if lines == [] then Config([], []) else Grown(Grouped(lines[..|lines| - 1]), lines[|lines| - 1])
  }

  lemma LinesGrown(c: Config, raw: string)
    ensures Lines(Grown(c, raw)) == Lines(c) + [raw]
  {
  }

  lemma ConfigGrown(c: Config, raw: string)
    requires IsConfig(c)
    ensures IsConfig(Grown(c, raw))
  {
    hide TopLevel;
    var g := Grown(c, raw);
    if !TopLevel(raw) && c.sections != [] {
      var n := |c.sections| - 1;
      assert IsSection(c.sections[n]) && IsSection(g.sections[n]);
    }
  }

  /** Every list of lines is a configuration in sections, line for line. */
  lemma {:induction false} GroupedLines(lines: seq<string>)
    ensures Lines(Grouped(lines)) == lines && IsConfig(Grouped(lines))
  {
    if lines != [] {
      hide Lines, Grown, IsConfig;
      var n := |lines| - 1;
      GroupedLines(lines[..n]);
      LinesGrown(Grouped(lines[..n]), lines[n]);
      ConfigGrown(Grouped(lines[..n]), lines[n]);
      assert lines == lines[..n] + [lines[n]];
    } else {
      assert Grouped(lines) == Config([], []);
    }
  }

  /** Rows go to the last section, or to the preamble when there is none. */
  function Extended(c: Config, rows: seq<string>): Config {
    if c.sections == [] then c.(preamble := c.preamble + rows)
    else
      var n := |c.sections| - 1;
      c.(sections := c.sections[..n] + [c.sections[n].(rows := c.sections[n].rows + rows)])
  }

  lemma ExtendedStep(c: Config, rows: seq<string>, raw: string)
    requires IsRow(raw)
    ensures Grown(Extended(c, rows), raw) == Extended(c, rows + [raw])
    ensures Extended(c, []) == c
  {
    hide TopLevel;
    var x := Extended(c, rows);
    if c.sections == [] {
      assert c.preamble + rows + [raw] == c.preamble + (rows + [raw]) && c.preamble + [] == c.preamble;
    } else {
      var n := |c.sections| - 1;
      assert x.sections[..n] == c.sections[..n];
      assert c.sections[n].rows + rows + [raw] == c.sections[n].rows + (rows + [raw]);
      assert c.sections[n].rows + [] == c.sections[n].rows;
      assert c.sections == c.sections[..n] + [c.sections[n]];
    }
  }

  lemma {:induction false} GroupedRows(lines: seq<string>, rows: seq<string>)
    requires forall r :: r in rows ==> IsRow(r)
    ensures Grouped(lines + rows) == Extended(Grouped(lines), rows)
  {
    hide Grown, Extended, TopLevel;
    if rows == [] {
      assert lines + rows == lines;
      assert IsRow("") by { EmptyIsRow(); }
      ExtendedStep(Grouped(lines), [], "");
    } else {
      var m := |rows| - 1;
      GroupedRows(lines, rows[..m]);
      assert (lines + rows)[..|lines + rows| - 1] == lines + rows[..m];
      ExtendedStep(Grouped(lines), rows[..m], rows[m]);
      assert rows[..m] + [rows[m]] == rows;
    }
  }

  lemma EmptyIsRow()
    ensures IsRow("")
  {
  }

  /** And it is one in only one way. */
  lemma {:induction false} GroupedUnique(c: Config)
    requires IsConfig(c)
    ensures Grouped(Lines(c)) == c
    decreases |c.sections|
  {
    hide TopLevel, Grown, Extended;
    if c.sections == [] {
      GroupedRows([], c.preamble);
      assert [] + c.preamble == c.preamble;
      NoLines(c.preamble);
    } else {
      var n := |c.sections| - 1;
      var before, e := c.(sections := c.sections[..n]), c.sections[n];
      GroupedUnique(before);
      var top := Lines(before) + [e.head];
      assert top[..|top| - 1] == Lines(before);
      assert IsSection(e);
      assert Grouped(top) == Grown(before, e.head);
      GroupedRows(top, e.rows);
      SectionGrown(before, e);
      assert c.sections == c.sections[..n] + [e];
    }
  }

  lemma NoLines(rows: seq<string>)
    ensures Extended(Grouped([]), rows) == Config(rows, [])
  {
  }

  lemma SectionGrown(c: Config, e: Section)
    requires TopLevel(e.head)
    ensures Extended(Grown(c, e.head), e.rows) == c.(sections := c.sections + [e])
  {
    hide TopLevel;
    var g := Grown(c, e.head);
    assert g.sections[..|c.sections|] == c.sections && [] + e.rows == e.rows;
  }

  // ----- the splitter -----

  predicate IsSub(raw: string) { Indented(raw) && Strip(raw) != "" }

  function SubLines(): string -> bool { (raw: string) => IsSub(raw) }
  function Stripped(): string -> string { (raw: string) => Strip(raw) }
  function Commands(rows: seq<string>): seq<string> { Collect(Where(rows, SubLines()), Stripped()) }

  function BlockOf(e: Section): Block { Block(Strip(e.head), Commands(e.rows)) }
  function Opening(): Section -> bool { (e: Section) => OpensBlock(e.head) }
  function AsBlock(): Section -> Block { (e: Section) => BlockOf(e) }
  function Blocks(sections: seq<Section>): seq<Block> { Collect(Where(sections, Opening()), AsBlock()) }
  function OfKind(kind: string): Block -> bool { (b: Block) => IsLineOf(b.name, kind) }

  /** Where the loop stands after some lines: blocks closed so far, and the one still open. */
  ghost predicate Standing(c: Config, name: Option<string>, body: seq<string>, blocks: seq<Block>) {
    var n := |c.sections| - 1;
    if c.sections != [] && OpensBlock(c.sections[n].head) then
      && name == Some(Strip(c.sections[n].head)) && body == Commands(c.sections[n].rows)
      && blocks == Blocks(c.sections[..n])
    else name.None? && blocks == Blocks(c.sections)
  }

  lemma BlocksNext(sections: seq<Section>, e: Section)
    ensures Blocks(sections + [e]) == Blocks(sections) + if OpensBlock(e.head) then [BlockOf(e)] else []
  {
    assert (sections + [e])[..|sections|] == sections;
  }

  lemma CommandsNext(rows: seq<string>, raw: string)
    ensures Commands(rows + [raw]) == Commands(rows) + if IsSub(raw) then [Strip(raw)] else []
  {
  }

  lemma OpeningIsTop(raw: string)
    requires OpensBlock(raw)
    ensures TopLevel(raw)
  {
  }

  /** Closing the open block, if any, accounts for all sections so far. */
  lemma Closed(c: Config, name: Option<string>, body: seq<string>, blocks: seq<Block>)
    requires Standing(c, name, body, blocks)
    ensures Blocks(c.sections) == blocks + if name.Some? then [Block(name.value, body)] else []
  {
  }

  lemma StandsAtTop(c: Config, raw: string, name: Option<string>, body: seq<string>, blocks: seq<Block>)
    requires Standing(c, name, body, blocks) && TopLevel(raw)
    ensures Standing(Grown(c, raw), if OpensBlock(raw) then Some(Strip(raw)) else None, [],
                     blocks + if name.Some? then [Block(name.value, body)] else [])
  {
    hide TopLevel, OpensBlock, Blocks;
    Closed(c, name, body, blocks);
    var g := Grown(c, raw);
    assert g.sections[..|c.sections|] == c.sections;
    BlocksNext(c.sections, Section(raw, []));
  }

  lemma StandsAtRow(c: Config, raw: string, name: Option<string>, body: seq<string>, blocks: seq<Block>)
    requires Standing(c, name, body, blocks) && IsRow(raw)
    ensures Standing(Grown(c, raw), name,
                     body + if name.Some? && IsSub(raw) then [Strip(raw)] else [], blocks)
  {
    hide TopLevel, OpensBlock, Blocks, IsSub, Commands;
    if c.sections != [] {
      var n := |c.sections| - 1;
      var e := c.sections[n];
      var g := Grown(c, raw);
      assert g.sections[..n] == c.sections[..n];
      CommandsNext(e.rows, raw);
      BlocksNext(c.sections[..n], e);
      BlocksNext(c.sections[..n], g.sections[n]);
      assert c.sections == c.sections[..n] + [e];
      assert g.sections == g.sections[..n] + [g.sections[n]];
    }
  }

  /** `_line_blocks`: one pass over the lines, with the open block in `name` and `body`. */
  method SplitLineBlocks(lines: seq<string>, kind: string) returns (found: seq<Block>)
    ensures found == Where(Blocks(Grouped(lines).sections), OfKind(kind))
  {
    hide Blocks, Commands, IsLineHeader, Strip, IsLineOf;
    var blocks: seq<Block> := [];
    var name: Option<string> := None;
    var body: seq<string> := [];
    NoBlocks();
    for i := 0 to |lines|
      invariant Standing(Grouped(lines[..i]), name, body, blocks)
      invariant name.None? ==> body == []
    {
      hide Standing;
      var raw := lines[i];
      assert lines[..i + 1][..i] == lines[..i];
      ghost var c := Grouped(lines[..i]);
      assert Grouped(lines[..i + 1]) == Grown(c, raw);
      var stripped := Strip(raw);
      var indented := Indented(raw);
      if !indented && IsLineHeader(stripped) {
        OpeningIsTop(raw);
        StandsAtTop(c, raw, name, body, blocks);
        if name.Some? {
          blocks := blocks + [Block(name.value, body)];
        }
        name, body := Some(stripped), [];
        continue;
      }
      if TopLevel(raw) { StandsAtTop(c, raw, name, body, blocks); } else { StandsAtRow(c, raw, name, body, blocks); }
      if name.None? {
        continue;
      }
      if indented && stripped != "" {
        body := body + [stripped];
      } else if stripped != "" {
        blocks := blocks + [Block(name.value, body)];
        name, body := None, [];
      }
    }
    assert lines[..|lines|] == lines;
    Closed(Grouped(lines), name, body, blocks);
    if name.Some? {
      blocks := blocks + [Block(name.value, body)];
    }
    found := Where(blocks, OfKind(kind));
  }

  lemma NoBlocks()
    ensures Blocks([]) == []
  {
  }

  // ----- round trip -----

  /** A block as text: its header and its sub-commands, indented by one space. */
  function Rendered(b: Block): Section { Section(b.name, Collect(b.body, (l: string) => " " + l)) }

  predicate Printable(b: Block) {
    && Strip(b.name) == b.name && IsLineHeader(b.name)
    && forall l :: l in b.body ==> Strip(l) == l && l != ""
  }

  lemma RenderedSection(b: Block)
    requires Printable(b)
    ensures IsSection(Rendered(b)) && OpensBlock(b.name) && BlockOf(Rendered(b)) == b
  {
    var rows := Rendered(b).rows;
    assert !Indented(b.name) by { assert b.name[0] == "line"[0]; }
    hide IsLineHeader;
    forall i | 0 <= i < |rows| ensures IsSub(rows[i]) && Strip(rows[i]) == b.body[i] {
      assert rows[i][1..] == b.body[i] && b.body[i] in b.body;
    }
    hide Strip, IsSub;
    forall r | r in rows ensures SubLines()(r) && IsRow(r) {
      var i :| 0 <= i < |rows| && rows[i] == r;
    }
    WhereAll(rows, SubLines());
    assert Commands(rows) == b.body;
  }

  /** One piece of a configuration: a block to be found again, or a section that opens none. */
  datatype Piece = Shown(block: Block) | Other(section: Section)

  function Text(): Piece -> Section { (p: Piece) => if p.Shown? then Rendered(p.block) else p.section }

  function ShownBlocks(pieces: seq<Piece>): seq<Block> {
    if pieces == [] then []
    else
      var p := pieces[|pieces| - 1];
      ShownBlocks(pieces[..|pieces| - 1]) + if p.Shown? then [p.block] else []
  }

  predicate Proper(p: Piece) {
    if p.Shown? then Printable(p.block) else IsSection(p.section) && !OpensBlock(p.section.head)
  }

  /**
   Round trip. Printing blocks of every kind in any order, with other top-level sections, blank
   lines and a preamble around them, and splitting the text again finds exactly the blocks of
   the kind asked for, in order.
   */
  lemma {:induction false} SplitRendered(preamble: seq<string>, pieces: seq<Piece>, kind: string)
    requires forall r :: r in preamble ==> IsRow(r)
    requires forall p :: p in pieces ==> Proper(p)
    ensures Where(Blocks(Grouped(Lines(Config(preamble, Collect(pieces, Text())))).sections), OfKind(kind))
         == Where(ShownBlocks(pieces), OfKind(kind))
  {
    hide Proper, IsSection, IsRow, Lines, Grouped, Blocks, OpensBlock, BlockOf, Rendered;
    var c := Config(preamble, Collect(pieces, Text()));
    forall e | e in c.sections ensures IsSection(e) {
      var i :| 0 <= i < |pieces| && c.sections[i] == e;
      assert pieces[i] in pieces;
      ProperText(pieces[i]);
    }
    GroupedUnique(c);
    TextBlocks(pieces);
  }

  lemma ProperText(p: Piece)
    requires Proper(p)
    ensures IsSection(Text()(p))
    ensures p.Shown? ==> OpensBlock(Text()(p).head) && BlockOf(Text()(p)) == p.block
    ensures p.Other? ==> !OpensBlock(Text()(p).head)
  {
    if p.Shown? { RenderedSection(p.block); }
  }

  lemma {:induction false} TextBlocks(pieces: seq<Piece>)
    requires forall p :: p in pieces ==> Proper(p)
    ensures Blocks(Collect(pieces, Text())) == ShownBlocks(pieces)
  {
    hide Proper, IsSection, OpensBlock, BlockOf, Rendered, Blocks;
    NoBlocks();
    if pieces != [] {
      var n := |pieces| - 1;
      TextBlocks(pieces[..n]);
      ProperText(pieces[n]);
      BlocksNext(Collect(pieces[..n], Text()), Text()(pieces[n]));
      assert Collect(pieces, Text()) == Collect(pieces[..n], Text()) + [Text()(pieces[n])];
    } else {
      assert Collect(pieces, Text()) == [];
    }
  }
}
