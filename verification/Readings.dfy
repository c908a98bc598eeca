/**
 What the appliance drivers read out of a reply. A JSON object is known by its scalar fields, its
 lists of texts and its tables of further objects; the field names of one driver are a datatype
 `F`. A decimal number is kept as its text.
 */
module Readings {
  import opened Queries
  import opened Texts
  import opened Devices

  datatype Scalar = Null | Flag(on: bool) | Number(value: int) | Text(text: string)

  type Row<!F> = map<F, Scalar>

  datatype Dict<!F> = Dict(values: Row<F>, texts: map<F, seq<string>>, tables: map<F, seq<Row<F>>>)

  datatype Pattern = WeakSshAlgorithm | DefaultHostname

  /**
   The library calls that stay abstract: `int` and `float` on a text that is not all digits, the
   two case foldings, and the two regular expressions.
   */
  datatype Python = Python(readable: string -> Option<int>, lower: string -> string, upper: string -> string,
                           matches: (Pattern, string) -> bool)

  predicate Digit(c: char) { '0' <= c <= '9' }

  predicate Numeral(s: string) { s != "" && forall i :: 0 <= i < |s| ==> Digit(s[i]) }

  function NumeralValue(s: string): nat
    requires forall i :: 0 <= i < |s| ==> Digit(s[i])
  {
    if s == "" then 0
    else
      assert Digit(s[|s| - 1]);
      10 * NumeralValue(s[..|s| - 1]) + (s[|s| - 1] as int - '0' as int)
  }

  function Digits(n: nat): string {
    (if n < 10 then "" else Digits(n / 10)) + ['0' + (n % 10) as char]
  }

  /** `str` */
  function Str(s: Scalar): string {
    match s
    case Null => "None"
    case Flag(on) => if on then "True" else "False"
    case Number(n) => if n < 0 then "-" + Digits(-n) else Digits(n)
    case Text(t) => t
  }

  predicate Truthy(s: Scalar) {
    match s
    case Null => false
    case Flag(on) => on
    case Number(n) => n != 0
    case Text(t) => t != ""
  }

  /** `to_int` */
  function ToInt(s: Scalar, py: Python): Option<int> {
    match s
    case Null => None
    case Flag(_) => None
    case Number(n) => Some(n)
    case Text(t) =>
      var stripped := Strip(t);
      if stripped == "" then None
      else if Numeral(stripped) then Some(NumeralValue(stripped))
      else py.readable(stripped)
  }

  lemma {:induction false} DigitsRoundTrip(n: nat)
    ensures Numeral(Digits(n)) && NumeralValue(Digits(n)) == n
  {
    var s := Digits(n);
    if n >= 10 {
      DigitsRoundTrip(n / 10);
      assert s[..|s| - 1] == Digits(n / 10);
    } else {
      assert s[..|s| - 1] == "";
    }
  }

  lemma DigitIsNoSpace(c: char)
    requires Digit(c)
    ensures !Space(c)
  {
    assert 0x30 <= c as int <= 0x39;
  }

  /** A number sent as a text is read as that number. */
  lemma NumberRoundTrip(n: nat, py: Python)
    ensures ToInt(Text(Str(Number(n))), py) == Some(n)
  {
    var s := Digits(n);
    DigitsRoundTrip(n);
    assert Digit(s[0]) && Digit(s[|s| - 1]);
    DigitIsNoSpace(s[0]);
    DigitIsNoSpace(s[|s| - 1]);
    assert LeftStrip(s) == s && RightStrip(s) == s;
  }

  /** `src.get(field, default)` */
  function Get<F(==)>(row: Row<F>, field: F, default: Scalar): Scalar { if field in row then row[field] else default }

  /** `src.get(field)` */
  function Value<F(==)>(row: Row<F>, field: F): Scalar { Get(row, field, Null) }

  /** `num(src, field)`: a missing field and one that is not a number are both no number. */
  function Num<F(==)>(row: Row<F>, field: F, py: Python): Option<int> {
    if field !in row then None else ToInt(row[field], py)
  }

  /** `src.get(field) or []` */
  function TextsAt<F(==)>(d: Dict<F>, field: F): seq<string> { if field in d.texts then d.texts[field] else [] }
  function RowsAt<F(==)>(d: Dict<F>, field: F): seq<Row<F>> { if field in d.tables then d.tables[field] else [] }

  /** `str(src.get(field, "") or "").strip()` */
  function Trimmed(s: Scalar): string { Strip(if Truthy(s) then Str(s) else "") }

  lemma NothingRead(py: Python)
    ensures Trimmed(Null) == "" && ToInt(Null, py) == None
  {
  }

  /** A field that is not there is no evidence either way. */
  function Required(s: Scalar, good: bool): Status { if s.Null? then Manual else PassIf(good) }

  /** A field that has to be there, and then to say the right thing. */
  method AddRequired<I>(before: seq<Item<I>>, id: I, s: Scalar, good: bool) returns (items: seq<Item<I>>)
    ensures items == before + [Item(id, Required(s, good))]
  {
    if s.Null? {
      items := before + [Item(id, Manual)];
    } else {
      items := before + [Item(id, if good then Pass else Fail)];
    }
  }

  // ----- lost fields -----

  function WithoutIn<F(==)>(gone: set<F>): Row<F> -> Row<F> { (r: Row<F>) => r - gone }

  /** The same object without some fields, at the top and inside its tables. */
  function Without<F(==)>(d: Dict<F>, gone: set<F>): Dict<F> {
    Dict(d.values - gone, d.texts - gone, map f | f in d.tables && f !in gone :: Collect(d.tables[f], WithoutIn(gone)))
  }

  /** Some text of the list is the word asked for. */
  method AnyIs(texts: seq<string>, fold: string -> string, word: string) returns (found: bool)
    ensures found <==> exists t :: t in texts && fold(t) == word
  {
    found := false;
    for i := 0 to |texts|
      invariant found <==> exists t :: t in texts[..i] && fold(t) == word
    {
      if fold(texts[i]) == word {
        found := true;
      }
    }
  }

  /** Some row has the given text in a field. */
  method AnyHas<F(==)>(rows: seq<Row<F>>, field: F, word: string) returns (found: bool)
    ensures found <==> HasText(rows, field, word)
  {
    found := false;
    for i := 0 to |rows|
      invariant found <==> HasText(rows[..i], field, word)
    {
      if Value(rows[i], field) == Text(word) {
        found := true;
      }
    }
    assert rows[..|rows|] == rows;
  }

  predicate HasText<F(==)>(rows: seq<Row<F>>, field: F, word: string) {
    exists i :: 0 <= i < |rows| && Value(rows[i], field) == Text(word)
  }

  lemma SameTexts<F>(a: seq<Row<F>>, b: seq<Row<F>>, field: F, word: string)
    requires |a| == |b| && forall i :: 0 <= i < |a| ==> Value(a[i], field) == Value(b[i], field)
    ensures HasText(a, field, word) <==> HasText(b, field, word)
  {
  }

  // ----- the same readings, said of the reply itself -----

  /** The field is there and counts as true. */
  ghost predicate Holds<F>(row: Row<F>, f: F) {
    && f in row
    && (row[f] == Flag(true) || (row[f].Number? && row[f].value != 0) || (row[f].Text? && row[f].text != ""))
  }

  /** What the field says, white space aside; the empty text when it is absent or does not count. */
  ghost predicate Spells<F>(row: Row<F>, f: F, t: string) {
    if f !in row then t == ""
    else
      match row[f]
      case Null => t == ""
      case Flag(on) => t == if on then "True" else ""
      case Number(n) => t == if n == 0 then "" else if n < 0 then "-" + Digits(-n) else Digits(n)
      case Text(s) => IsStripped(s, t)
  }

  /** The text is this number: its digits say so, or else `int` or `float` does. */
  ghost predicate ReadsText(s: string, n: int, py: Python) {
    exists t ::
      && IsStripped(s, t) && t != ""
      && if forall i :: 0 <= i < |t| ==> '0' <= t[i] <= '9' then n == NumeralValue(t) else py.readable(t) == Some(n)
  }

  /** The field is this number, sent as one or as a text. */
  ghost predicate Reads<F>(row: Row<F>, f: F, n: int, py: Python) {
    f in row && (row[f] == Number(n) || (row[f].Text? && ReadsText(row[f].text, n, py)))
  }

  lemma HoldsIs<F>(row: Row<F>, f: F)
    ensures Truthy(Value(row, f)) <==> Holds(row, f)
  {
  }

  lemma DigitsUnstripped(n: int)
    ensures Strip(Str(Number(n))) == Str(Number(n)) != ""
  {
    hide Space, Strip, Digits, NumeralValue;
    var s := Digits(if n < 0 then -n else n);
    DigitsRoundTrip(if n < 0 then -n else n);
    assert Digit(s[0]) && Digit(s[|s| - 1]);
    DigitIsNoSpace(s[0]);
    DigitIsNoSpace(s[|s| - 1]);
    MinusIsNoSpace('-');
    assert n < 0 ==> ("-" + s)[|s|] == s[|s| - 1];
    Clean(Str(Number(n)));
  }

  lemma MinusIsNoSpace(c: char)
    requires c == '-' || c == 'T' || c == 'e'
    ensures !Space(c)
  {
    assert c as int in {0x2D, 0x54, 0x65};
  }

  lemma SpellsIs<F>(row: Row<F>, f: F, t: string)
    ensures Spells(row, f, t) <==> t == Trimmed(Value(row, f))
  {
    hide IsStripped, Digits, Strip;
    EmptyStripped();
    if f in row && row[f].Number? { DigitsUnstripped(row[f].value); }
    if f in row && row[f].Flag? { TrueUnstripped(); }
    if f in row && row[f].Text? { StripIs(row[f].text); }
  }

  lemma EmptyStripped()
    ensures Strip("") == ""
  {
  }

  lemma TrueUnstripped()
    ensures Strip("True") == "True"
  {
    MinusIsNoSpace('T');
    MinusIsNoSpace('e');
  }

  lemma ReadsTextIs(s: string, n: int, py: Python)
    ensures ToInt(Text(s), py) == Some(n) <==> ReadsText(s, n, py)
  {
    hide IsStripped, Strip;
    StripIs(s);
    var t := Strip(s);
    assert Numeral(t) <==> t != "" && forall i :: 0 <= i < |t| ==> '0' <= t[i] <= '9';
  }

  lemma ReadsIs<F>(row: Row<F>, f: F, n: int, py: Python)
    ensures Num(row, f, py) == Some(n) <==> Reads(row, f, n, py)
    ensures ToInt(Value(row, f), py) == Some(n) <==> Reads(row, f, n, py)
  {
    hide ReadsText, Strip, Numeral;
    if f in row && row[f].Text? { ReadsTextIs(row[f].text, n, py); }
  }

  /** What a number between two bounds deserves: judged when the field is a number, else left to a person. */
  ghost function Ranged<F>(row: Row<F>, f: F, low: int, high: int, py: Python): Status {
    if exists n :: low <= n <= high && Reads(row, f, n, py) then Pass
    else if exists n :: Reads(row, f, n, py) then Fail
    else Manual
  }

  ghost function RangedFrom<F>(row: Row<F>, f: F, low: int, py: Python): Status {
    if exists n :: low <= n && Reads(row, f, n, py) then Pass
    else if exists n :: Reads(row, f, n, py) then Fail
    else Manual
  }

  lemma RangedIs<F>(row: Row<F>, f: F, low: int, high: int, py: Python)
    ensures Ranged(row, f, low, high, py)
         == match Num(row, f, py) case None => Manual case Some(n) => if low <= n <= high then Pass else Fail
    ensures RangedFrom(row, f, low, py)
         == match Num(row, f, py) case None => Manual case Some(n) => if low <= n then Pass else Fail
  {
    hide Num, Reads;
    forall n ensures Num(row, f, py) == Some(n) <==> Reads(row, f, n, py) { ReadsIs(row, f, n, py); }
    if Num(row, f, py).Some? { assert Reads(row, f, Num(row, f, py).value, py); }
  }

  ghost predicate Says<F>(row: Row<F>, f: F, word: string) { f in row && row[f] == Text(word) }

  /** A field that has to be there: pass when it is as wanted, else fail; absent or null it is left to a person. */
  ghost function Wanted<F>(row: Row<F>, f: F, good: bool): Status {
    if f !in row || row[f].Null? then Manual else if good then Pass else Fail
  }

  lemma SaysIs<F>(row: Row<F>, f: F, word: string)
    ensures Value(row, f) == Text(word) <==> Says(row, f, word)
  {
  }

  lemma WantedIs<F>(row: Row<F>, f: F, word: string)
    ensures Required(Value(row, f), Value(row, f) == Text(word)) == Wanted(row, f, Says(row, f, word))
  {
  }

  /** A number in text is all digits, a minus sign aside. */
  lemma NumberText(n: int)
    ensures var t := Str(Number(n));
      && t != "" && NoSpace(t)
      && if n < 0 then t[0] == '-' else Numeral(t) && NumeralValue(t) == n
  {
    hide Space, Digits, NumeralValue;
    var s := Digits(if n < 0 then -n else n);
    DigitsRoundTrip(if n < 0 then -n else n);
    forall i | 0 <= i < |s| ensures !Space(s[i]) {
      assert Digit(s[i]);
      DigitIsNoSpace(s[i]);
    }
    MinusIsNoSpace('-');
  }

  /** The value's text is this one: it is that text, or prints as it. */
  lemma StrIs(s: Scalar, t: string)
    requires t !in {"None", "True", "False"} && (t != "" ==> t[0] != '-') && !Numeral(t)
    ensures Str(s) == t <==> s == Text(t)
  {
    hide Numeral, Digits, NoSpace;
    if s.Number? { NumberText(s.value); }
  }

  lemma PortIs(s: Scalar, t: string, k: nat)
    requires Numeral(t) && NumeralValue(t) == k && Digits(k) == t
    ensures Str(s) in [t, "None"] <==> s in {Null, Number(k), Text(t), Text("None")}
  {
    hide Digits, NumeralValue, NoSpace;
    assert Digit(t[0]);
    if s.Number? {
      NumberText(s.value);
      NotDigit('N');
      assert Digit(Str(s)[0]) || Str(s)[0] == '-';
    }
    if s.Flag? {
      NotDigit('T');
      NotDigit('F');
    }
  }

  lemma NotDigit(c: char)
    requires c in {'N', 'T', 'F'}
    ensures !Digit(c)
  {
  }

  /** Some row of the table has this text in the field. */
  lemma HasTextIs<F>(rows: seq<Row<F>>, f: F, word: string)
    ensures HasText(rows, f, word) <==> exists row :: row in rows && Says(row, f, word)
  {
    if HasText(rows, f, word) {
      var i :| 0 <= i < |rows| && Value(rows[i], f) == Text(word);
      assert rows[i] in rows && Says(rows[i], f, word);
    }
    if row :| row in rows && Says(row, f, word) {
      var i :| 0 <= i < |rows| && rows[i] == row;
      assert Value(rows[i], f) == Text(word);
    }
  }
}
