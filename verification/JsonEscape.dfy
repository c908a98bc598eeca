/**
 How the host agent turns its check items into JSON (app/agent/ucc_check.sh): each item goes
 through a line of a temporary file, is read back, escaped by whole-string replacements, and
 printed into an array. What a reader of that array gets back is proved against the string
 grammar of section 7 of RFC 8259. A shell string never holds U+0000.
 */
module JsonEscape {
  import opened Queries

  const NUL: char := '\0'
  const LF: char := '\n'
  const QUOTE: char := '\"'
  const BACKSLASH: char := '\\'
  const US: char := '\U{001F}'

  // ----- json_escape -----

  /** Bash's `${s//c/sub}` for a single character. */
  function ReplaceAll(s: string, c: char, sub: string): string {
    if s == "" then ""
    else (if s[0] == c then sub else [s[0]]) + ReplaceAll(s[1..], c, sub)
  }

  /** `tr '\001-\010\013\014\016-\037' ' '` on one character; the set is in octal. */
  function Blanked(c: char): char {
    if 1 <= c as int <= 8 || 11 <= c as int <= 12 || 14 <= c as int <= 31 then ' ' else c
  }

  function Tr(s: string): string {
    if s == "" then "" else [Blanked(s[0])] + Tr(s[1..])
  }

  /** What `$(...)` does to the output it captures. */
  function StripNewlines(s: string): string {
    if s != "" && s[|s| - 1] == LF then StripNewlines(s[..|s| - 1]) else s
  }

  function EscapeChar(c: char): string {
    if c == '\\' then "\\\\"
    else if c == '\"' then "\\\""
    else if c == '\n' then "\\n"
    else if c == '\r' then "\\r"
    else if c == '\t' then "\\t"
    else [Blanked(c)]
  }

  /** The one-pass reference: every character on its own. */
  function Escaped(s: string): string {
    if s == "" then "" else EscapeChar(s[0]) + Escaped(s[1..])
  }

  method Escape(input: string) returns (s: string)
    ensures s == Escaped(input)
  {
    s := input;
    s := ReplaceAll(s, '\\', "\\\\");
    s := ReplaceAll(s, '\"', "\\\"");
    s := ReplaceAll(s, '\n', "\\n");
    s := ReplaceAll(s, '\r', "\\r");
    s := ReplaceAll(s, '\t', "\\t");
    s := StripNewlines(Tr(s));
    PassesAreOnePass(input);
    NoNewline(input);
  }

  function Passes(s: string): string {
    Tr(ReplaceAll(ReplaceAll(ReplaceAll(ReplaceAll(ReplaceAll(s,
      '\\', "\\\\"), '\"', "\\\""), '\n', "\\n"), '\r', "\\r"), '\t', "\\t"))
  }

  lemma {:induction false} ReplaceAppend(a: string, b: string, c: char, sub: string)
    ensures ReplaceAll(a + b, c, sub) == ReplaceAll(a, c, sub) + ReplaceAll(b, c, sub)
  {
    if a == "" {
      assert a + b == b;
    } else {
      assert (a + b)[1..] == a[1..] + b;
      ReplaceAppend(a[1..], b, c, sub);
    }
  }

  lemma {:induction false} TrAppend(a: string, b: string)
    ensures Tr(a + b) == Tr(a) + Tr(b)
  {
    if a == "" {
      assert a + b == b;
    } else {
      assert (a + b)[1..] == a[1..] + b;
      TrAppend(a[1..], b);
    }
  }

  lemma PassesAppend(a: string, b: string)
    ensures Passes(a + b) == Passes(a) + Passes(b)
  {
    hide ReplaceAll, Tr;
    var a1, b1 := ReplaceAll(a, '\\', "\\\\"), ReplaceAll(b, '\\', "\\\\");
    var a2, b2 := ReplaceAll(a1, '\"', "\\\""), ReplaceAll(b1, '\"', "\\\"");
    var a3, b3 := ReplaceAll(a2, '\n', "\\n"), ReplaceAll(b2, '\n', "\\n");
    var a4, b4 := ReplaceAll(a3, '\r', "\\r"), ReplaceAll(b3, '\r', "\\r");
    ReplaceAppend(a, b, '\\', "\\\\");
    ReplaceAppend(a1, b1, '\"', "\\\"");
    ReplaceAppend(a2, b2, '\n', "\\n");
    ReplaceAppend(a3, b3, '\r', "\\r");
    ReplaceAppend(a4, b4, '\t', "\\t");
    TrAppend(ReplaceAll(a4, '\t', "\\t"), ReplaceAll(b4, '\t', "\\t"));
  }

  lemma ReplaceOne(x: char, c: char, sub: string)
    ensures ReplaceAll([x], c, sub) == if x == c then sub else [x]
  {
  }

  lemma ReplaceTwo(x: char, y: char, c: char)
    requires x != c && y != c
    ensures forall sub :: ReplaceAll([x, y], c, sub) == [x, y]
  {
    forall sub ensures ReplaceAll([x, y], c, sub) == [x, y] {
      assert [x, y][1..] == [y];
      ReplaceOne(y, c, sub);
    }
  }

  lemma TrTwo(x: char, y: char)
    ensures Tr([x, y]) == [Blanked(x), Blanked(y)]
  {
    assert [x, y][1..] == [y];
    assert Tr([y]) == [Blanked(y)] + Tr([y][1..]);
  }

  lemma PassesOne(c: char)
    ensures Passes([c]) == EscapeChar(c)
  {
    var s := EscapeChar(c);
    if |s| == 1 {
      hide ReplaceAll;
      ReplaceOne(c, '\\', "\\\\");
      ReplaceOne(c, '\"', "\\\"");
      ReplaceOne(c, '\n', "\\n");
      ReplaceOne(c, '\r', "\\r");
      ReplaceOne(c, '\t', "\\t");
      assert Tr([c]) == [Blanked(c)] by { assert [c][1..] == ""; }
    } else {
      assert s == [s[0], s[1]];
      assert Blanked(s[0]) == s[0] && Blanked(s[1]) == s[1];
      TrTwo(s[0], s[1]);
      hide ReplaceAll, Tr;
      ReplaceOne(c, '\\', "\\\\");
      ReplaceOne(c, '\"', "\\\"");
      ReplaceOne(c, '\n', "\\n");
      ReplaceOne(c, '\r', "\\r");
      ReplaceOne(c, '\t', "\\t");
      if c == '\\' { ReplaceTwo(s[0], s[1], '\"'); }
      ReplaceTwo(s[0], s[1], '\n');
      ReplaceTwo(s[0], s[1], '\r');
      ReplaceTwo(s[0], s[1], '\t');
    }
  }

  /** Five replacements of the whole string and a `tr` are one map over its characters. */
  lemma {:induction false} PassesAreOnePass(s: string)
    ensures Passes(s) == Escaped(s)
  {
    if s == "" {
    } else {
      assert s == [s[0]] + s[1..];
      PassesAppend([s[0]], s[1..]);
      PassesOne(s[0]);
      PassesAreOnePass(s[1..]);
    }
  }

  /** No newline is left for `$(...)` to strip. */
  lemma {:induction false} NoNewline(s: string)
    ensures LF !in Escaped(s)
    ensures StripNewlines(Escaped(s)) == Escaped(s)
  {
    if s != "" { NoNewline(s[1..]); }
  }

  // ----- the string grammar of RFC 8259, section 7 -----

  predicate Hex(c: char) { '0' <= c <= '9' || 'a' <= c <= 'f' || 'A' <= c <= 'F' }

  /** Between the quotation marks: unescaped characters and escapes, nothing else. */
  predicate LegalBody(t: string) {
    if t == "" then true
    else if t[0] == BACKSLASH then
      && |t| >= 2
      && if t[1] == 'u' then
           |t| >= 6 && Hex(t[2]) && Hex(t[3]) && Hex(t[4]) && Hex(t[5]) && LegalBody(t[6..])
         else t[1] in "\"\\/bfnrt" && LegalBody(t[2..])
    else t[0] != QUOTE && t[0] >= ' ' && LegalBody(t[1..])
  }

  lemma LegalChar(c: char, tail: string)
    ensures LegalBody(EscapeChar(c) + tail) <==> c != NUL && LegalBody(tail)
  {
  }

  /** The output is a legal string body exactly when the input held no U+0000. */
  lemma {:induction false} EscapedIsLegal(s: string)
    ensures LegalBody(Escaped(s)) <==> NUL !in s
  {
    if s != "" {
      hide LegalBody, EscapeChar;
      EscapedIsLegal(s[1..]);
      LegalChar(s[0], Escaped(s[1..]));
      assert s == [s[0]] + s[1..];
    }
  }

  datatype Parsed<+T> = Fail | Done(value: T, rest: string)

  function Unescape(c: char): Option<char> {
    match c
    case '\"' => Some('\"')
    case '\\' => Some('\\')
    case '/' => Some('/')
    case 'b' => Some('\U{0008}')
    case 'f' => Some('\U{000C}')
    case 'n' => Some('\n')
    case 'r' => Some('\r')
    case 't' => Some('\t')
    case _ => None
  }

  function HexValue(c: char): nat
    requires Hex(c)
  {
    if '0' <= c <= '9' then c as int - '0' as int
    else if 'a' <= c <= 'f' then c as int - 'a' as int + 10
    else c as int - 'A' as int + 10
  }

  /** The character of four hexadecimal digits. Surrogates are refused: the agent writes none. */
  function FromHex(t: string): (c: Option<char>)
    ensures c.Some? ==> |t| >= 4
  {
    if |t| >= 4 && Hex(t[0]) && Hex(t[1]) && Hex(t[2]) && Hex(t[3]) then
      var code := 4096 * HexValue(t[0]) + 256 * HexValue(t[1]) + 16 * HexValue(t[2]) + HexValue(t[3]);
      if code < 0xD800 || 0xE000 <= code < 0x1_0000 then Some(code as char) else None
    else None
  }

  /** Read to the closing quotation mark. */
  function ReadBody(t: string): Parsed<string> {
    if t == "" then Fail
    else if t[0] == QUOTE then Done("", t[1..])
    else if t[0] == BACKSLASH then
      if |t| < 2 then Fail
      else if t[1] == 'u' then
        match FromHex(t[2..])
        case None => Fail
        case Some(c) => Lead(c, ReadBody(t[6..]))
      else
        match Unescape(t[1])
        case None => Fail
        case Some(c) => Lead(c, ReadBody(t[2..]))
    else if t[0] < ' ' then Fail
    else Lead(t[0], ReadBody(t[1..]))
  }

  function Lead(c: char, p: Parsed<string>): Parsed<string> {
    match p
    case Fail => Fail
    case Done(s, rest) => Done([c] + s, rest)
  }

  /** What survives the agent: tab, LF and CR do, every other control character is a space. */
  function CleanedChar(c: char): char { if c in "\t\n\r" then c else Blanked(c) }

  function Cleaned(s: string): string {
    if s == "" then "" else [CleanedChar(s[0])] + Cleaned(s[1..])
  }

  lemma ReadPair(e: char, tail: string)
    requires e != 'u' && Unescape(e).Some?
    ensures ReadBody([BACKSLASH, e] + tail) == Lead(Unescape(e).value, ReadBody(tail))
  {
    hide FromHex, Unescape;
    assert ([BACKSLASH, e] + tail)[2..] == tail;
  }

  lemma ReadPlain(c: char, tail: string)
    requires c >= ' ' && c != QUOTE && c != BACKSLASH
    ensures ReadBody([c] + tail) == Lead(c, ReadBody(tail))
  {
    hide FromHex, Unescape;
    assert ([c] + tail)[1..] == tail;
  }

  lemma ReadChar(c: char, tail: string)
    requires c != NUL
    ensures ReadBody(EscapeChar(c) + tail) == Lead(CleanedChar(c), ReadBody(tail))
  {
    hide ReadBody;
    if c in "\\\"\n\r\t" { ReadPair(EscapeChar(c)[1], tail); } else { ReadPlain(Blanked(c), tail); }
  }

  /**
   Round trip. Reading from after the opening quotation mark stops at the agent's own closing
   one, whatever follows it, and gives back the input with the remaining control characters
   turned to spaces.
   */
  lemma {:induction false} ReadEscaped(s: string, rest: string)
    requires NUL !in s
    ensures ReadBody(Escaped(s) + [QUOTE] + rest) == Done(Cleaned(s), rest)
  {
    if s == "" {
      assert Escaped(s) + [QUOTE] + rest == [QUOTE] + rest;
    } else {
      hide ReadBody, EscapeChar, CleanedChar;
      ReadEscaped(s[1..], rest);
      var head, tail := EscapeChar(s[0]), Escaped(s[1..]) + [QUOTE] + rest;
      assert Escaped(s) + [QUOTE] + rest == head + tail;
      ReadChar(s[0], tail);
    }
  }

  /** A text without control characters comes back unchanged. */
  lemma {:induction false} CleanedPlain(s: string)
    ensures Cleaned(s) == s <==> forall c :: c in s && 1 <= c as int < 32 ==> c in "\t\n\r"
  {
    if s != "" {
      CleanedPlain(s[1..]);
      assert s == [s[0]] + s[1..];
    }
  }

  // ----- items: temporary file, then JSON array -----

  datatype Item = Item(id: string, cat: string, status: string, desc: string)

  /** The five statuses the script writes; they are printed without escaping. */
  predicate Status(s: string) { s in ["pass", "fail", "warn", "manual", "na"] }

  /** `add_item`: one line of the temporary file, without its newline. */
  function Line(it: Item): string {
    it.id + [US] + (it.cat + [US] + (it.status + [US] + it.desc))
  }

  function File(items: seq<Item>): string {
    if items == [] then "" else Line(items[0]) + [LF] + File(items[1..])
  }

  /** Up to the first `c`, and what follows it. */
  function Upto(t: string, c: char): (string, string)
    ensures |Upto(t, c).1| < |t| || t == ""
  {
    if t == "" then ("", "")
    else if t[0] == c then ("", t[1..])
    else
      var (word, rest) := Upto(t[1..], c);
      ([t[0]] + word, rest)
  }

  lemma {:induction false} UptoIs(a: string, c: char, b: string)
    ensures c !in a ==> Upto(a + [c] + b, c) == (a, b)
    ensures c !in Upto(a, c).0
    ensures c !in a ==> Upto(a, c) == (a, "")
  {
    if a == "" {
      assert a + [c] + b == [c] + b;
    } else {
      UptoIs(a[1..], c, b);
      assert a == [a[0]] + a[1..];
      assert (a + [c] + b)[1..] == a[1..] + [c] + b;
    }
  }

  /** The last variable of `read` takes the rest, less one trailing separator that ends its only word. */
  function LastField(rest: string): string {
    if rest != "" && rest[|rest| - 1] == US && US !in rest[..|rest| - 1] then rest[..|rest| - 1] else rest
  }

  /** `IFS="$US" read -r iid icat istat idesc` on one line. */
  function ReadLine(line: string): Item {
    var (iid, rest1) := Upto(line, US);
    var (icat, rest2) := Upto(rest1, US);
    var (istat, rest3) := Upto(rest2, US);
    Item(iid, icat, istat, LastField(rest3))
  }

  lemma ReadLineIs(it: Item)
    requires US !in it.id && US !in it.cat && US !in it.status
    ensures ReadLine(Line(it)) == it.(desc := LastField(it.desc))
  {
    hide Upto, LastField;
    var rest2 := it.status + [US] + it.desc;
    var rest1 := it.cat + [US] + rest2;
    assert Line(it) == it.id + [US] + rest1;
    UptoIs(it.id, US, rest1);
    UptoIs(it.cat, US, rest2);
    UptoIs(it.status, US, it.desc);
  }

  lemma ReadLinePlain(line: string)
    ensures US !in ReadLine(line).id && US !in ReadLine(line).cat && US !in ReadLine(line).status
  {
    hide Upto, LastField;
    UptoIs(line, US, "");
    UptoIs(Upto(line, US).1, US, "");
    UptoIs(Upto(Upto(line, US).1, US).1, US, "");
  }

  /** A line gives its item back exactly when no separator is where it can be taken for one. */
  lemma LineRoundTrip(it: Item)
    requires Status(it.status)
    ensures ReadLine(Line(it)) == it <==>
      US !in it.id && US !in it.cat && LastField(it.desc) == it.desc
  {
    StatusPlain(it.status);
    hide ReadLine, Line, LastField, Status;
    ReadLinePlain(Line(it));
    if US !in it.id && US !in it.cat { ReadLineIs(it); }
  }

  function FieldText(lead: string, body: string): string { lead + [QUOTE] + body + [QUOTE] }

  function ItemText(it: Item): string {
    FieldText("{\"id\":", Escaped(it.id)) + (FieldText(",\"cat\":", Escaped(it.cat))
    + (FieldText(",\"status\":", it.status) + (FieldText(",\"desc\":", Escaped(it.desc)) + "}")))
  }

  /** Items separated by commas. */
  function ArrayBody(items: seq<Item>): string {
    if items == [] then ""
    else if |items| == 1 then ItemText(items[0])
    else ArrayBody(items[..|items| - 1]) + "," + ItemText(items[|items| - 1])
  }

  function WithStatus(st: string): Item -> bool { (it: Item) => it.status == st }

  /** The script's counters and its temporary file, as `r_pass`, `r_fail`, … update them. */
  class Recorder {
    var pass: nat
    var fail: nat
    var warn: nat
    var manual: nat
    var na: nat
    var file: string
    ghost var items: seq<Item>

    /** The file holds the items recorded so far, and the counters count them by status. */
    ghost predicate Valid()
      reads this
    {
      && file == File(items)
      && pass == |Where(items, WithStatus("pass"))| && fail == |Where(items, WithStatus("fail"))|
      && warn == |Where(items, WithStatus("warn"))| && manual == |Where(items, WithStatus("manual"))|
      && na == |Where(items, WithStatus("na"))|
      && pass + fail + warn + manual + na == |items|
    }

    constructor ()
      ensures Valid() && items == []
    {
      pass, fail, warn, manual, na, file, items := 0, 0, 0, 0, 0, "", [];
    }

    method Record(id: string, cat: string, status: string, desc: string)
      requires Valid() && Status(status)
      modifies this
      ensures Valid() && items == old(items) + [Item(id, cat, status, desc)]
    {
      hide File, Line, Where;
      var it := Item(id, cat, status, desc);
      Counted(items, it);
      FileNext(items, it);
      if status == "pass" {
        pass := pass + 1;
      } else if status == "fail" {
        fail := fail + 1;
      } else if status == "warn" {
        warn := warn + 1;
      } else if status == "manual" {
        manual := manual + 1;
      } else {
        na := na + 1;
      }
      file := file + Line(it) + [LF];
      items := items + [it];
    }
  }

  lemma Counted(items: seq<Item>, it: Item)
    ensures forall st ::
      |Where(items + [it], WithStatus(st))| == |Where(items, WithStatus(st))| + if it.status == st then 1 else 0
  {
    assert (items + [it])[..|items|] == items;
  }

  lemma {:induction false} FileNext(items: seq<Item>, it: Item)
    ensures File(items + [it]) == File(items) + Line(it) + [LF]
  {
    hide Line;
    if items == [] {
      assert [it][1..] == [];
    } else {
      FileNext(items[1..], it);
      assert (items + [it])[1..] == items[1..] + [it];
    }
  }

  function LinesOf(file: string): seq<Item>
    decreases |file|
  {
    if LF !in file then []
    else
      var (line, rest) := Upto(file, LF);
      [ReadLine(line)] + LinesOf(rest)
  }

  lemma LinesNext(rest: string)
    ensures LF !in rest ==> LinesOf(rest) == []
    ensures LF in rest ==> LinesOf(rest) == [ReadLine(Upto(rest, LF).0)] + LinesOf(Upto(rest, LF).1)
  {
  }

  lemma ArrayNext(items: seq<Item>, it: Item)
    ensures ArrayBody([]) == ""
    ensures ArrayBody(items + [it]) == (if items == [] then "" else ArrayBody(items) + ",") + ItemText(it)
  {
  }

  /** The emitter: `while read … done < "$ITEMS_TMP"`, with its `first` flag. */
  method EmitItems(file: string) returns (json: string)
    ensures json == "[" + ArrayBody(LinesOf(file)) + "]"
  {
    hide Upto, ReadLine, Escaped, FieldText, LinesOf, ArrayBody;
    var first := true;
    var text := "";
    var rest := file;
    ArrayNext([], Item("", "", "", ""));
    ghost var done := [];
    while LF in rest
      invariant LinesOf(file) == done + LinesOf(rest)
      invariant text == ArrayBody(done) && first == (done == [])
      decreases |rest|
    {
      LinesNext(rest);
      var (line, after) := Upto(rest, LF);
      var it := ReadLine(line);
      ArrayNext(done, it);
      if first {
        first := false;
      } else {
        text := text + ",";
      }
      var id := Escape(it.id);
      var cat := Escape(it.cat);
      var desc := Escape(it.desc);
      text := text + (FieldText("{\"id\":", id) + (FieldText(",\"cat\":", cat)
                      + (FieldText(",\"status\":", it.status) + (FieldText(",\"desc\":", desc) + "}"))));
      assert done + ([it] + LinesOf(after)) == (done + [it]) + LinesOf(after);
      done := done + [it];
      rest := after;
    }
    LinesNext(rest);
    assert done + LinesOf(rest) == done;
    json := "[" + text + "]";
  }

  // ----- reading the array back -----

  function Expect(t: string, lit: string): Option<string> {
    if |lit| <= |t| && t[..|lit|] == lit then Some(t[|lit|..]) else None
  }

  function ReadField(t: string, lead: string): Parsed<string> {
    match Expect(t, lead + [QUOTE])
    case None => Fail
    case Some(rest) => ReadBody(rest)
  }

  function ReadItem(t: string): Parsed<Item> {
    match ReadField(t, "{\"id\":")
    case Fail => Fail
    case Done(iid, t1) =>
      match ReadField(t1, ",\"cat\":")
      case Fail => Fail
      case Done(icat, t2) =>
        match ReadField(t2, ",\"status\":")
        case Fail => Fail
        case Done(istat, t3) =>
          match ReadField(t3, ",\"desc\":")
          case Fail => Fail
          case Done(idesc, t4) =>
            match Expect(t4, "}")
            case None => Fail
            case Some(t5) => Done(Item(iid, icat, istat, idesc), t5)
  }

  /** Items up to the closing bracket, which must end the text. */
  function ReadItems(t: string): Option<seq<Item>>
    decreases |t|
  {
    match ReadItem(t)
    case Fail => None
    case Done(it, rest) =>
      if rest == "]" then Some([it])
      else if rest != "" && rest[0] == ',' && |rest| < |t| then
        match ReadItems(rest[1..])
        case None => None
        case Some(more) => Some([it] + more)
      else None
  }

  function ReadArray(t: string): Option<seq<Item>> {
    if t == "[]" then Some([])
    else if t != "" && t[0] == '[' then ReadItems(t[1..])
    else None
  }

  function CleanedItem(it: Item): Item { Item(Cleaned(it.id), Cleaned(it.cat), it.status, Cleaned(it.desc)) }
  function Cleaning(): Item -> Item { (it: Item) => CleanedItem(it) }

  predicate Sound(it: Item) {
    && Status(it.status)
    && NUL !in it.id && NUL !in it.cat && NUL !in it.desc
  }

  lemma FieldReads(lead: string, s: string, rest: string)
    requires NUL !in s
    ensures ReadField(FieldText(lead, Escaped(s)) + rest, lead) == Done(Cleaned(s), rest)
  {
    var t := FieldText(lead, Escaped(s)) + rest;
    var after := Escaped(s) + [QUOTE] + rest;
    assert t == (lead + [QUOTE]) + after;
    assert t[..|lead| + 1] == lead + [QUOTE] && t[|lead| + 1..] == after;
    ReadEscaped(s, rest);
  }

  lemma StatusPlain(s: string)
    requires Status(s)
    ensures Escaped(s) == s && Cleaned(s) == s && NUL !in s && LF !in s && US !in s
  {
    hide Escaped, Cleaned, Status;
    Letters(s);
    CleanedPlain(s);
    Unchanged(s);
  }

  lemma Letters(s: string)
    requires Status(s)
    ensures forall c :: c in s ==> 'a' <= c <= 'z'
  {
  }

  lemma {:induction false} Unchanged(s: string)
    requires forall c :: c in s ==> EscapeChar(c) == [c]
    ensures Escaped(s) == s
  {
    if s != "" {
      Unchanged(s[1..]);
      assert s == [s[0]] + s[1..];
    }
  }

  lemma ItemReads(it: Item, rest: string)
    requires Sound(it)
    ensures ReadItem(ItemText(it) + rest) == Done(CleanedItem(it), rest)
  {
    hide ReadField, FieldText, Escaped, Cleaned;
    StatusPlain(it.status);
    var f1, f2 := FieldText("{\"id\":", Escaped(it.id)), FieldText(",\"cat\":", Escaped(it.cat));
    var f3, f4 := FieldText(",\"status\":", it.status), FieldText(",\"desc\":", Escaped(it.desc));
    var t4 := "}" + rest;
    var t3 := f4 + t4;
    var t2 := f3 + t3;
    var t1 := f2 + t2;
    assert ItemText(it) + rest == f1 + t1;
    FieldReads("{\"id\":", it.id, t1);
    FieldReads(",\"cat\":", it.cat, t2);
    FieldReads(",\"status\":", it.status, t3);
    FieldReads(",\"desc\":", it.desc, t4);
    assert t4[..1] == "}" && t4[1..] == rest;
  }

  lemma {:induction false} ArrayFront(items: seq<Item>)
    requires |items| >= 2
    ensures ArrayBody(items) == ItemText(items[0]) + "," + ArrayBody(items[1..])
  {
    hide ItemText, ArrayBody;
    var n := |items| - 1;
    var it := items[n];
    assert items == items[..n] + [it];
    ArrayNext(items[..n], it);
    ArrayNext([], items[0]);
    if n == 1 {
      ArrayNext([], it);
      assert items[..1] == [] + [items[0]] && items[1..] == [] + [it];
    } else {
      ArrayFront(items[..n]);
      assert items[1..] == items[..n][1..] + [it];
      ArrayNext(items[..n][1..], it);
    }
  }

  lemma ReadItemsStep(t: string)
    ensures var p := ReadItem(t);
      p.Done? && p.rest != "" && p.rest[0] == ',' && |p.rest| < |t| ==>
        ReadItems(t) == match ReadItems(p.rest[1..]) case None => None case Some(items) => Some([p.value] + items)
    ensures ReadItem(t).Done? && ReadItem(t).rest == "]" ==> ReadItems(t) == Some([ReadItem(t).value])
  {
    hide ReadItem;
  }

  lemma {:induction false} ItemsRead(items: seq<Item>)
    requires items != [] && forall it :: it in items ==> Sound(it)
    ensures ReadItems(ArrayBody(items) + "]") == Some(Collect(items, Cleaning()))
  {
    hide ReadItems, ReadItem, ItemText, Sound, CleanedItem, ArrayBody;
    var first := items[0];
    if |items| == 1 {
      ItemReads(first, "]");
      ReadItemsStep(ItemText(first) + "]");
      assert items == [] + [first];
      ArrayNext([], first);
      assert ArrayBody(items) == ItemText(first);
      assert Collect(items, Cleaning()) == [CleanedItem(first)];
    } else {
      ArrayFront(items);
      ItemsRead(items[1..]);
      var more := ArrayBody(items[1..]) + "]";
      assert ArrayBody(items) + "]" == ItemText(first) + ("," + more);
      ItemReads(first, "," + more);
      TextNotEmpty(first);
      assert ("," + more)[1..] == more;
      ReadItemsStep(ItemText(first) + ("," + more));
      assert Collect(items, Cleaning()) == [CleanedItem(first)] + Collect(items[1..], Cleaning());
    }
  }

  lemma TextNotEmpty(it: Item)
    ensures ItemText(it) != "" && ItemText(it)[0] == '{'
  {
  }

  lemma {:induction false} FileReads(items: seq<Item>)
    requires forall it :: it in items ==> LF !in Line(it) && ReadLine(Line(it)) == it
    ensures LinesOf(File(items)) == items
  {
    hide Line, ReadLine;
    if items != [] {
      FileReads(items[1..]);
      UptoIs(Line(items[0]), LF, File(items[1..]));
      assert LF in File(items) by { assert File(items)[|Line(items[0])|] == LF; }
    }
  }

  /** An item that the agent can carry: no newline anywhere and no separator in the wrong place. */
  predicate Carried(it: Item) {
    && Sound(it)
    && LF !in it.id && LF !in it.cat && LF !in it.desc
    && US !in it.id && US !in it.cat && LastField(it.desc) == it.desc
  }

  lemma CarriedLine(it: Item)
    requires Carried(it)
    ensures LF !in Line(it) && ReadLine(Line(it)) == it
  {
    StatusPlain(it.status);
    hide ReadLine, LastField, Status, Escaped, Cleaned;
    LineRoundTrip(it);
  }

  // ----- an item that is not carried -----

  lemma {:induction false} UptoHead(a: string, c: char, x: string)
    ensures if c in a then Upto(a + x, c).0 == Upto(a, c).0 && |Upto(a, c).0| < |a|
            else Upto(a + x, c).0 == a + Upto(x, c).0
    ensures |Upto(a, c).0| <= |a|
  {
    if a == "" {
      assert a + x == x;
    } else {
      assert (a + x)[1..] == a[1..] + x && a == [a[0]] + a[1..];
      UptoHead(a[1..], c, x);
    }
  }

  lemma {:induction false} UptoChars(t: string, c: char)
    ensures forall x :: x in Upto(t, c).0 || x in Upto(t, c).1 ==> x in t
  {
    if t != "" {
      UptoChars(t[1..], c);
      assert t == [t[0]] + t[1..];
    }
  }

  /** The item as read back from the first line of what it wrote. */
  function Misread(it: Item): Item { ReadLine(Upto(Line(it), LF).0) }

  lemma MisreadChars(it: Item)
    requires Sound(it)
    ensures NUL !in Misread(it).id && NUL !in Misread(it).cat && NUL !in Misread(it).desc
  {
    StatusPlain(it.status);
    hide Status, Escaped, Cleaned, Upto, LastField;
    var line := Upto(Line(it), LF).0;
    assert NUL !in Line(it);
    UptoChars(Line(it), LF);
    UptoChars(line, US);
    UptoChars(Upto(line, US).1, US);
    var rest := Upto(Upto(line, US).1, US).1;
    UptoChars(rest, US);
    LastFieldPart(Upto(rest, US).1);
  }

  lemma LastFieldPart(rest: string)
    ensures |LastField(rest)| <= |rest| && forall x :: x in LastField(rest) ==> x in rest
    ensures LastField(rest) != rest ==> |LastField(rest)| < |rest|
  {
  }

  /** The text of an item that lost its tail is shorter in the first field that was hit. */
  predicate Shorter(m: Item, it: Item) {
    || |m.id| < |it.id|
    || (m.id == it.id && |m.cat| < |it.cat|)
    || (m.id == it.id && m.cat == it.cat && m.status == it.status && |m.desc| < |it.desc|)
  }

  lemma ReadLineParts(line: string)
    ensures ReadLine(line).id == Upto(line, US).0
    ensures ReadLine(line).cat == Upto(Upto(line, US).1, US).0
  {
    hide Upto, LastField;
  }

  lemma SeparatorShortens(it: Item, m: Item, rest: string)
    requires m == ReadLine(it.id + [US] + rest)
    ensures US in it.id ==> |m.id| < |it.id|
    ensures US !in it.id ==> m.id == it.id && m.cat == Upto(rest, US).0
  {
    hide ReadLine, Upto;
    ReadLineParts(it.id + [US] + rest);
    if US in it.id {
      assert it.id + [US] + rest == it.id + ([US] + rest);
      UptoHead(it.id, US, [US] + rest);
    } else {
      UptoIs(it.id, US, rest);
    }
  }

  lemma IdCutShort(it: Item)
    requires LF in it.id
    ensures |Misread(it).id| < |it.id|
  {
    hide LastField, Upto;
    var rest := [US] + (it.cat + [US] + (it.status + [US] + it.desc));
    assert Line(it) == it.id + rest;
    UptoHead(it.id, LF, rest);
    UptoHead(Upto(it.id, LF).0, US, "");
  }

  lemma CatCutShort(it: Item)
    requires LF !in it.id && LF in it.cat
    ensures Shorter(Misread(it), it)
  {
    hide LastField, Upto, ReadLine;
    var rest := [US] + (it.status + [US] + it.desc);
    var cut := Upto(it.cat, LF).0;
    assert Line(it) == (it.id + [US]) + (it.cat + rest);
    UptoHead(it.id + [US], LF, it.cat + rest);
    UptoHead(it.cat, LF, rest);
    assert Upto(Line(it), LF).0 == it.id + [US] + cut;
    SeparatorShortens(it, Misread(it), cut);
    UptoHead(cut, US, "");
  }

  lemma CutInDesc(it: Item)
    requires LF !in it.id && LF !in it.cat && LF !in it.status
    ensures Misread(it) == ReadLine(Line(it.(desc := Upto(it.desc, LF).0)))
    ensures LF in it.desc ==> |Upto(it.desc, LF).0| < |it.desc|
    ensures LF !in it.desc ==> Upto(it.desc, LF).0 == it.desc
  {
    hide LastField, Upto, ReadLine;
    var cut := Upto(it.desc, LF).0;
    var lead := it.id + [US] + (it.cat + [US] + (it.status + [US]));
    assert Line(it) == lead + it.desc && Line(it.(desc := cut)) == lead + cut;
    UptoHead(lead, LF, it.desc);
    UptoHead(it.desc, LF, "");
    UptoIs(it.desc, LF, "");
  }

  lemma WhyNotCarried(it: Item)
    requires Sound(it) && !Carried(it) && LF !in it.id && LF !in it.cat
    ensures LF in it.desc || US in it.id || US in it.cat || LastField(it.desc) != it.desc
    ensures LF !in it.status && US !in it.status
  {
    hide LastField;
    StatusPlain(it.status);
  }

  lemma CatHit(it: Item, read: Item)
    requires read == it.(desc := read.desc) && US !in it.id
    requires LF !in it.status && US !in it.status
    ensures var m := ReadLine(Line(read));
      && m.id == it.id
      && (US in it.cat ==> |m.cat| < |it.cat|)
      && (US !in it.cat ==> m == it.(desc := LastField(read.desc)))
  {
    hide LastField, Upto, ReadLine;
    var rest := it.cat + [US] + (it.status + [US] + read.desc);
    assert Line(read) == it.id + [US] + rest;
    SeparatorShortens(read, ReadLine(Line(read)), rest);
    if US in it.cat {
      assert rest == it.cat + ([US] + (it.status + [US] + read.desc));
      UptoHead(it.cat, US, [US] + (it.status + [US] + read.desc));
    } else {
      ReadLineIs(read);
    }
  }

  lemma DescCutShort(it: Item)
    requires Sound(it) && !Carried(it) && LF !in it.id && LF !in it.cat
    ensures Shorter(Misread(it), it)
  {
    hide LastField, Upto, ReadLine, Sound, Carried, Misread, Line;
    WhyNotCarried(it);
    CutInDesc(it);
    var read := it.(desc := Upto(it.desc, LF).0);
    if US in it.id {
      IdHit(read);
    } else {
      CatHit(it, read);
      LastFieldPart(read.desc);
    }
  }

  lemma IdHit(it: Item)
    requires US in it.id
    ensures |ReadLine(Line(it)).id| < |it.id|
  {
    hide ReadLine, Upto;
    var rest := it.cat + [US] + (it.status + [US] + it.desc);
    assert Line(it) == it.id + [US] + rest;
    SeparatorShortens(it, ReadLine(Line(it)), rest);
  }

  /** Whatever keeps an item from being carried, some field comes back strictly shorter. */
  lemma MisreadIsShorter(it: Item)
    requires Sound(it) && !Carried(it)
    ensures Shorter(Misread(it), it)
  {
    hide Misread;
    if LF in it.id {
      IdCutShort(it);
    } else if LF in it.cat {
      CatCutShort(it);
    } else {
      DescCutShort(it);
    }
  }

  lemma CleanedLength(s: string)
    ensures |Cleaned(s)| == |s|
  {
  }

  /** What a reader makes of the text of any item, its raw status included. */
  lemma HeadReads(m: Item, rest: string)
    requires NUL !in m.id && NUL !in m.cat && NUL !in m.desc
    ensures var p := ReadItem(ItemText(m) + rest);
      p.Done? ==>
        && p.value.id == Cleaned(m.id) && p.value.cat == Cleaned(m.cat)
        && (Status(m.status) ==> p.value.desc == Cleaned(m.desc))
  {
    if Status(m.status) {
      hide ReadItem, Escaped, Cleaned, ItemText, Status;
      ItemReads(m, rest);
    } else {
      hide ReadField, FieldText, Escaped, Cleaned;
      var f1, f2 := FieldText("{\"id\":", Escaped(m.id)), FieldText(",\"cat\":", Escaped(m.cat));
      var f3, f4 := FieldText(",\"status\":", m.status), FieldText(",\"desc\":", Escaped(m.desc));
      var t2 := f3 + (f4 + ("}" + rest));
      var t1 := f2 + t2;
      assert ItemText(m) + rest == f1 + t1;
      FieldReads("{\"id\":", m.id, t1);
      FieldReads(",\"cat\":", m.cat, t2);
    }
  }

  lemma ReadItemsHead(t: string)
    ensures ReadItems(t).Some? ==>
      ReadItem(t).Done? && ReadItems(t).value != [] && ReadItems(t).value[0] == ReadItem(t).value
  {
    hide ReadItem;
  }

  lemma ShorterIsOther(it: Item, rest: string)
    requires Sound(it) && !Carried(it)
    ensures var p := ReadItem(ItemText(Misread(it)) + rest); p.Done? ==> p.value != CleanedItem(it)
  {
    hide ReadItem, ItemText, Misread, Cleaned, Carried;
    MisreadIsShorter(it);
    MisreadChars(it);
    HeadReads(Misread(it), rest);
    CleanedLength(it.id);
    CleanedLength(it.cat);
    CleanedLength(it.desc);
    CleanedLength(Misread(it).id);
    CleanedLength(Misread(it).cat);
    CleanedLength(Misread(it).desc);
  }

  /** The first line read is the first item's first line. */
  lemma FirstLine(items: seq<Item>)
    requires items != []
    ensures LinesOf(File(items)) != [] && LinesOf(File(items))[0] == Misread(items[0])
    ensures LF !in Line(items[0]) ==> LinesOf(File(items)) == [ReadLine(Line(items[0]))] + LinesOf(File(items[1..]))
  {
    hide Line, ReadLine, LinesOf, Upto;
    var line, rest := Line(items[0]), File(items[1..]);
    assert File(items) == line + ([LF] + rest);
    assert LF in File(items) by { assert File(items)[|line|] == LF; }
    LinesNext(File(items));
    UptoHead(line, LF, [LF] + rest);
    UptoIs(line, LF, rest);
    UptoIs(line, LF, "");
    UptoIs("", LF, rest);
    assert line + [LF] + rest == line + ([LF] + rest) && "" + [LF] + rest == [LF] + rest;
  }

  lemma TextFront(items: seq<Item>)
    requires items != []
    ensures exists tail :: ArrayBody(items) + "]" == ItemText(items[0]) + tail
  {
    hide ItemText, ArrayBody;
    if |items| == 1 {
      assert items == [] + [items[0]];
      ArrayNext([], items[0]);
      assert ArrayBody(items) + "]" == ItemText(items[0]) + "]";
    } else {
      ArrayFront(items);
      var tail := "," + ArrayBody(items[1..]) + "]";
      assert ArrayBody(items) + "]" == ItemText(items[0]) + tail;
    }
  }

  lemma {:induction false} NeverArrives(items: seq<Item>, k: nat)
    requires (forall it :: it in items ==> Sound(it)) && k < |items| && !Carried(items[k])
    ensures ReadItems(ArrayBody(LinesOf(File(items))) + "]") != Some(Collect(items, Cleaning()))
  {
    hide ReadItems, ReadItem, ItemText, Sound, CleanedItem, ArrayBody, LinesOf, File, Line, Carried, ReadLine, Misread;
    var lines := LinesOf(File(items));
    var text := ArrayBody(lines) + "]";
    FirstLine(items);
    if !Carried(items[0]) {
      TextFront(lines);
      var tail :| text == ItemText(lines[0]) + tail;
      ShorterIsOther(items[0], tail);
      ReadItemsHead(text);
    } else {
      var rest := items[1..];
      CarriedLine(items[0]);
      assert rest[k - 1] == items[k];
      NeverArrives(rest, k - 1);
      FirstLine(rest);
      assert lines[1..] == LinesOf(File(rest));
      ArrayFront(lines);
      var more := ArrayBody(lines[1..]) + "]";
      assert text == ItemText(items[0]) + ("," + more) && ("," + more)[1..] == more;
      ItemReads(items[0], "," + more);
      TextNotEmpty(items[0]);
      ReadItemsStep(text);
      var want := Collect(rest, Cleaning());
      assert Collect(items, Cleaning()) == [CleanedItem(items[0])] + want;
      assert lines[0] == items[0];
      match ReadItems(more)
      case None =>
      case Some(got) =>
        assert ([CleanedItem(items[0])] + got)[1..] == got && ([CleanedItem(items[0])] + want)[1..] == want;
    }
  }

  /**
   The whole way of a report's items: written line by line to the temporary file, read back,
   escaped and printed, they come out of the JSON array as they went in, in order, with control
   characters turned to spaces, if and only if every item can be carried.
   */
  lemma ItemsArrive(items: seq<Item>)
    requires forall it :: it in items ==> Sound(it)
    ensures ReadArray("[" + ArrayBody(LinesOf(File(items))) + "]") == Some(Collect(items, Cleaning()))
      <==> forall it :: it in items ==> Carried(it)
  {
    hide ReadItems, ReadLine, Escaped, ItemText, LinesOf, File, ArrayBody, Line, Carried, Status, Collect, Sound;
    var lines := LinesOf(File(items));
    var text := "[" + ArrayBody(lines) + "]";
    if items == [] {
      NoItemsNoLines();
      ArrayNext([], Item("", "", "", ""));
      assert text == "[]";
    } else {
      FirstLine(items);
      assert text[1..] == ArrayBody(lines) + "]";
      BodyNotEmpty(lines);
      if it :| it in items && !Carried(it) {
        var k :| 0 <= k < |items| && items[k] == it;
        NeverArrives(items, k);
      } else {
        forall it | it in items ensures LF !in Line(it) && ReadLine(Line(it)) == it { CarriedLine(it); }
        FileReads(items);
        ItemsRead(items);
      }
    }
  }

  /** The same for the temporary file on its own. */
  lemma FileRoundTrip(items: seq<Item>)
    requires forall it :: it in items ==> Sound(it)
    ensures LinesOf(File(items)) == items <==> forall it :: it in items ==> Carried(it)
  {
    hide ReadItems, ReadLine, Escaped, ItemText, LinesOf, File, ArrayBody, Line, Carried, Sound;
    if forall it :: it in items ==> Carried(it) {
      forall it | it in items ensures LF !in Line(it) && ReadLine(Line(it)) == it { CarriedLine(it); }
      FileReads(items);
    } else {
      var it :| it in items && !Carried(it);
      var k :| 0 <= k < |items| && items[k] == it;
      NeverArrives(items, k);
      ItemsRead(items);
    }
  }

  lemma NoItemsNoLines()
    ensures LinesOf(File([])) == [] && Collect([], Cleaning()) == []
  {
  }

  /** A newline in a description makes two items out of one. */
  lemma NewlineSplits(iid: string, cat: string, head: string, tail: string)
    requires LF !in iid + cat + head + tail && US !in iid + cat + head + tail
    ensures LinesOf(File([Item(iid, cat, "warn", head + [LF] + tail)]))
         == [Item(iid, cat, "warn", head), Item(tail, "", "", "")]
  {
    hide Upto, LinesOf;
    var it, first := Item(iid, cat, "warn", head + [LF] + tail), Item(iid, cat, "warn", head);
    assert [it][1..] == [];
    var file := File([it]);
    assert Line(it) == Line(first) + [LF] + tail;
    assert file == Line(it) + [LF] + File([]) && File([]) == "";
    assert file == Line(first) + [LF] + (tail + [LF]);
    assert LF !in Line(first);
    assert LF in file by { assert file[|Line(first)|] == LF; }
    UptoIs(Line(first), LF, tail + [LF]);
    LinesNext(file);
    ReadLineIs(first);
    assert tail + [LF] + "" == tail + [LF];
    UptoIs(tail, LF, "");
    LinesNext(tail + [LF]);
    LinesNext("");
    UptoIs(tail, US, "");
    UptoIs("", US, "");
  }

  lemma {:induction false} BodyNotEmpty(items: seq<Item>)
    requires items != []
    ensures ArrayBody(items) != ""
  {
  }
}
