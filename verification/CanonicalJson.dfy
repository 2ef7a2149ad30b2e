/** Canonical JSON lines: sorted keys, no spaces, control characters escaped, one line feed at
    the end (integration/evidence/capture_private_replay.py, _canonical and
    _read_canonical_value). Text is a sequence of characters; UTF-8 encoding is not modelled. */
module CanonicalJson {
  import opened Wrappers
  import opened TextOrder

  datatype Field = Field(key: string, value: Json)

  /** A float is given by a decimal text. */
  datatype Json =
    | Null
    | Bool(b: bool)
    | Num(n: int)
    | Flt(text: string)
    | Str(s: string)
    | Arr(items: seq<Json>)
    | Obj(fields: seq<Field>)

  /** Which number texts are the shortest form of the float they denote, the one Python prints. Any
      predicate serves: binary rounding is not modelled. */
  type Shortest = string -> bool

  predicate Digit(c: char) { '0' <= c <= '9' }

  predicate NumberChar(c: char) { Digit(c) || c in {'-', '+', '.', 'e', 'E'} }

  /** The end of the run of digits that starts at `i`. */
  function DigitsEnd(t: string, i: nat): (r: nat)
    requires i <= |t|
    ensures i <= r <= |t| && (forall k :: i <= k < r ==> Digit(t[k])) && (r < |t| ==> !Digit(t[r]))
    decreases |t| - i
  {
    if i < |t| && Digit(t[i]) then DigitsEnd(t, i + 1) else i
  }

  function AfterSign(t: string): (r: nat)
    ensures r <= |t|
  {
    if t != "" && t[0] == '-' then 1 else 0
  }

  function IntegerEnd(t: string): (r: nat)
    ensures r <= |t|
  {
    DigitsEnd(t, AfterSign(t))
  }

  /** The end of a fraction that starts at `i`, or `i` if none does. */
  function FractionEnd(t: string, i: nat): (r: nat)
    requires i <= |t|
    ensures i <= r <= |t|
  {
    if i < |t| && t[i] == '.' && DigitsEnd(t, i + 1) > i + 1 then DigitsEnd(t, i + 1) else i
  }

  /** The end of an exponent that starts at `i`, or `i` if none does. */
  function ExponentEnd(t: string, i: nat): (r: nat)
    requires i <= |t|
    ensures i <= r <= |t|
  {
    if i < |t| && t[i] in {'e', 'E'} then
      var from := if i + 1 < |t| && t[i + 1] in {'+', '-'} then i + 2 else i + 1;
      if DigitsEnd(t, from) > from then DigitsEnd(t, from) else i
    else i
  }

  /** The text starts with a JSON integer part (section 6 of RFC 8259): no leading zeros. */
  predicate IntegerPart(t: string) {
    IntegerEnd(t) > AfterSign(t) && (t[AfterSign(t)] == '0' ==> IntegerEnd(t) == AfterSign(t) + 1)
  }

  predicate IsInteger(t: string) { IntegerPart(t) && IntegerEnd(t) == |t| }

  /** A JSON number with a fraction or an exponent. */
  predicate IsFloat(t: string) {
    IntegerPart(t) && IntegerEnd(t) < |t| && ExponentEnd(t, FractionEnd(t, IntegerEnd(t))) == |t|
  }

  predicate KeysSorted(fields: seq<Field>) {
    forall i :: 0 <= i < |fields| - 1 ==> Less(fields[i].key, fields[i + 1].key)
  }

  /** Values the printer can write: floats by their shortest text, keys sorted without repetition. */
  predicate WellFormed(shortest: Shortest, v: Json)
    decreases v
  {
    match v
    case Flt(t) => IsFloat(t) && shortest(t)
    case Arr(items) => forall x :: x in items ==> WellFormed(shortest, x)
    case Obj(fields) => KeysSorted(fields) && forall f :: f in fields ==> WellFormed(shortest, f.value)
    case _ => true
  }

  // ----- printing -----

  function NatText(n: nat): (t: string)
    ensures t != ""
  {
    (if n < 10 then "" else NatText(n / 10)) + [(('0' as int) + n % 10) as char]
  }

  function IntText(n: int): string { if n < 0 then "-" + NatText(-n) else NatText(n) }

  function HexDigit(d: int): char
    requires 0 <= d < 16
  {
    if d < 10 then (('0' as int) + d) as char else (('a' as int) + d - 10) as char
  }

  function Escape(c: char): string {
    if c == '\"' then "\\\""
    else if c == '\\' then "\\\\"
    else if c == '\n' then "\\n"
    else if c == '\r' then "\\r"
    else if c == '\t' then "\\t"
    else if c as int == 8 then "\\b"
    else if c as int == 12 then "\\f"
    else if c as int < 32 then "\\u00" + [HexDigit(c as int / 16), HexDigit(c as int % 16)]
    else [c]
  }

  /** Only quotes, backslashes and control characters are escaped (section 7 of RFC 8259), as two characters
      or as a code point in four digits. */
  lemma EscapeIs(c: char)
    ensures Escape(c) == [c] <==> c != '\"' && c != '\\' && c as int >= 32
    ensures Escape(c) != [c] ==> Escape(c)[0] == '\\' && |Escape(c)| in {2, 6}
    ensures |Escape(c)| == 6 ==> c as int < 32 && Escape(c)[..4] == "\\u00"
    ensures |Escape(c)| == 2 && c as int < 32 ==> c in {'\n', '\r', '\t'} || c as int in {8, 12}
  {
  }

  function EscapeAll(s: string): string {
    if s == "" then "" else Escape(s[0]) + EscapeAll(s[1..])
  }

  function Quote(s: string): string { "\"" + EscapeAll(s) + "\"" }

  function Print(v: Json): string
    decreases v, 1
  {
    match v
    case Null => "null"
    case Bool(b) => if b then "true" else "false"
    case Num(n) => IntText(n)
    case Flt(t) => t
    case Str(s) => Quote(s)
    case Arr(items) => "[" + (if items == [] then "]" else Print(items[0]) + PrintItems(items[1..]))
    case Obj(fields) => "{" + (if fields == [] then "}" else PrintField(fields[0]) + PrintFields(fields[1..]))
  }

  function PrintItems(items: seq<Json>): string
    decreases items, 0
  {
    if items == [] then "]" else "," + (Print(items[0]) + PrintItems(items[1..]))
  }

  function PrintField(f: Field): string
    decreases f, 0
  {
    Quote(f.key) + (":" + Print(f.value))
  }

  function PrintFields(fields: seq<Field>): string
    decreases fields, 0
  {
    if fields == [] then "}" else "," + (PrintField(fields[0]) + PrintFields(fields[1..]))
  }

  function Canonical(v: Json): string { Print(v) + "\n" }

  // ----- reading -----

  function NatValue(t: string): nat {
    if t == "" then 0
    else
      var c := t[|t| - 1];
      10 * NatValue(t[..|t| - 1]) + (if '0' <= c <= '9' then c as int - '0' as int else 0)
  }

  function NumberLength(s: string): (n: nat)
    ensures n <= |s|
  {
    if s != "" && NumberChar(s[0]) then 1 + NumberLength(s[1..]) else 0
  }

  function NumberOf(t: string): Option<Json> {
    if IsFloat(t) then Some(Flt(t))
    else if !IsInteger(t) then None
    else if t[0] == '-' then Some(Num(0 - NatValue(t[1..])))
    else Some(Num(NatValue(t)))
  }

  function HexValue(c: char): Option<nat> {
    if '0' <= c <= '9' then Some(c as int - '0' as int)
    else if 'a' <= c <= 'f' then Some(c as int - 'a' as int + 10)
    else None
  }

  /** One character after the opening quote, escaped or plain. The escapes are those a canonical
      text can contain. */
  function ReadChar(s: string): (r: Option<(char, string)>)
    ensures r.Some? ==> |r.value.1| < |s|
  {
    if s == "" || s[0] == '\"' || s[0] as int < 32 then None
    else if s[0] != '\\' then Some((s[0], s[1..]))
    else if |s| < 2 then None
    else match s[1]
      case '\"' => Some(('\"', s[2..]))
      case '\\' => Some(('\\', s[2..]))
      case 'n' => Some(('\n', s[2..]))
      case 'r' => Some(('\r', s[2..]))
      case 't' => Some(('\t', s[2..]))
      case 'b' => Some((8 as char, s[2..]))
      case 'f' => Some((12 as char, s[2..]))
      case 'u' =>
        if |s| < 6 || s[2] != '0' || s[3] != '0' then None
        else
          var hi, lo := HexValue(s[4]), HexValue(s[5]);
          if hi.None? || lo.None? then None else Some(((16 * hi.value + lo.value) as char, s[6..]))
      case _ => None
  }

  function ReadChars(s: string): (r: Option<(string, string)>)
    ensures r.Some? ==> |r.value.1| < |s|
    decreases |s|
  {
    if s != "" && s[0] == '\"' then Some(("", s[1..]))
    else
      match ReadChar(s)
      case None => None
      case Some((c, rest)) =>
        match ReadChars(rest)
        case None => None
        case Some((t, rest')) => Some(([c] + t, rest'))
  }

  function ReadValue(s: string): (r: Option<(Json, string)>)
    ensures r.Some? ==> |r.value.1| < |s|
    decreases |s|, 0
  {
    if s == "" then None
    else if s[0] == '\"' then
      match ReadChars(s[1..])
      case None => None
      case Some((t, rest)) => Some((Str(t), rest))
    else if s[0] == '[' then
      if |s| > 1 && s[1] == ']' then Some((Arr([]), s[2..]))
      else
        match ReadValue(s[1..])
        case None => None
        case Some((v, rest)) =>
          match ReadItems(rest)
          case None => None
          case Some((vs, rest')) => Some((Arr([v] + vs), rest'))
    else if s[0] == '{' then
      if |s| > 1 && s[1] == '}' then Some((Obj([]), s[2..]))
      else
        match ReadField(s[1..])
        case None => None
        case Some((f, rest)) =>
          match ReadFields(rest)
          case None => None
          case Some((fs, rest')) => Some((Obj([f] + fs), rest'))
    else if "null" <= s then Some((Null, s[4..]))
    else if "true" <= s then Some((Bool(true), s[4..]))
    else if "false" <= s then Some((Bool(false), s[5..]))
    else
      var n := NumberLength(s);
      match NumberOf(s[..n])
      case None => None
      case Some(v) => assert n > 0; Some((v, s[n..]))
  }

  function ReadItems(s: string): (r: Option<(seq<Json>, string)>)
    ensures r.Some? ==> |r.value.1| < |s|
    decreases |s|, 0
  {
    if s == "" then None
    else if s[0] == ']' then Some(([], s[1..]))
    else if s[0] != ',' then None
    else
      match ReadValue(s[1..])
      case None => None
      case Some((v, rest)) =>
        match ReadItems(rest)
        case None => None
        case Some((vs, rest')) => Some(([v] + vs, rest'))
  }

  function ReadField(s: string): (r: Option<(Field, string)>)
    ensures r.Some? ==> |r.value.1| < |s|
    decreases |s|, 1
  {
    if s == "" || s[0] != '\"' then None
    else
      match ReadChars(s[1..])
      case None => None
      case Some((key, rest)) =>
        if rest == "" || rest[0] != ':' then None
        else
          match ReadValue(rest[1..])
          case None => None
          case Some((v, rest')) => Some((Field(key, v), rest'))
  }

  function ReadFields(s: string): (r: Option<(seq<Field>, string)>)
    ensures r.Some? ==> |r.value.1| < |s|
    decreases |s|, 2
  {
    if s == "" then None
    else if s[0] == '}' then Some(([], s[1..]))
    else if s[0] != ',' then None
    else
      match ReadField(s[1..])
      case None => None
      case Some((f, rest)) =>
        match ReadFields(rest)
        case None => None
        case Some((fs, rest')) => Some(([f] + fs, rest'))
  }

  /** The canonical reader: parse, then insist that printing the value gives the same text. */
  function Read(shortest: Shortest, s: string): Option<Json> {
    match ReadValue(s)
    case None => None
    case Some((v, rest)) => if WellFormed(shortest, v) && Canonical(v) == s then Some(v) else None
  }

  // ----- reading back what was printed -----

  /** What may follow a value: nothing that could continue a number. */
  predicate Delimited(r: string) { r == "" || !NumberChar(r[0]) }

  lemma {:induction false} NatRoundTrip(n: nat)
    ensures NatValue(NatText(n)) == n
    ensures forall i :: 0 <= i < |NatText(n)| ==> Digit(NatText(n)[i])
    ensures NatText(n)[0] == '0' ==> n == 0 && |NatText(n)| == 1
  {
    var t := NatText(n);
    if n >= 10 {
      NatRoundTrip(n / 10);
      assert t[..|t| - 1] == NatText(n / 10);
    } else {
      assert t[..|t| - 1] == "";
    }
  }

  lemma NumberOfInt(n: int)
    ensures NumberOf(IntText(n)) == Some(Num(n)) && IsInteger(IntText(n))
  {
    hide NatText, NatValue;
    var t, a := IntText(n), if n < 0 then -n else n;
    NatRoundTrip(a);
    if n < 0 {
      assert t[1..] == NatText(a);
    }
  }

  /** Every character of a number is one the tokenizer takes. */
  lemma NumberChars(t: string)
    requires IsInteger(t) || IsFloat(t)
    ensures t != "" && (t[0] == '-' || Digit(t[0]))
    ensures forall i :: 0 <= i < |t| ==> NumberChar(t[i])
  {
  }

  lemma {:induction false} NumberEnds(t: string, r: string)
    requires forall i :: 0 <= i < |t| ==> NumberChar(t[i])
    requires Delimited(r)
    ensures NumberLength(t + r) == |t|
  {
    if t == "" {
      assert t + r == r;
    } else {
      assert (t + r)[1..] == t[1..] + r;
      NumberEnds(t[1..], r);
    }
  }

  lemma NumberIs(t: string)
    ensures NumberOf(t).Some? <==> IsInteger(t) || IsFloat(t)
  {
  }

  /** A number token is read as a number: it opens no string, array, object or word. */
  lemma ReadNumber(t: string, v: Json, r: string)
    requires NumberOf(t) == Some(v) && Delimited(r)
    ensures ReadValue(t + r) == Some((v, r))
  {
    hide ReadChars, ReadField, ReadFields, ReadItems, IsInteger, IsFloat, NatValue;
    assert IsInteger(t) || IsFloat(t) by { NumberIs(t); }
    NumberChars(t);
    NumberEnds(t, r);
    var s := t + r;
    assert s[..|t|] == t && s[|t|..] == r;
    assert s[0] == t[0];
  }

  lemma ReadEscaped(c: char, r: string)
    ensures ReadChar(Escape(c) + r) == Some((c, r))
    ensures Escape(c)[0] != '\"'
  {
    var e := Escape(c);
    assert (e + r)[|e|..] == r;
    if |e| == 6 {
      assert e[4] == HexDigit(c as int / 16) && e[5] == HexDigit(c as int % 16);
      assert 16 * (c as int / 16) + c as int % 16 == c as int;
    }
  }

  lemma {:induction false} ReadQuoted(s: string, r: string)
    ensures ReadChars(EscapeAll(s) + "\"" + r) == Some((s, r))
  {
    hide Escape, ReadChar;
    if s == "" {
      assert (EscapeAll(s) + "\"" + r)[1..] == r;
    } else {
      var tail := EscapeAll(s[1..]) + "\"" + r;
      assert EscapeAll(s) + "\"" + r == Escape(s[0]) + tail;
      ReadEscaped(s[0], tail);
      ReadQuoted(s[1..], r);
      assert [s[0]] + s[1..] == s;
    }
  }

  /** The first character of a printed value never closes a list. */
  lemma PrintStarts(shortest: Shortest, v: Json)
    requires WellFormed(shortest, v)
    ensures Print(v) != "" && Print(v)[0] != ']' && Print(v)[0] != '}'
  {
    match v
    case Num(n) => NumberOfInt(n);
    case _ =>
  }

  lemma ReadWord(v: Json, r: string)
    requires v.Null? || v.Bool?
    ensures ReadValue(Print(v) + r) == Some((v, r))
  {
    hide ReadChars, ReadField, ReadFields, ReadItems, NumberOf, NumberLength;
    var t := Print(v);
    assert (t + r)[|t|..] == r;
    assert v == Bool(true) ==> t[0] == 't';
    assert v == Bool(false) ==> t[0] == 'f';
  }

  /** Reading undoes printing for every well-formed value, whatever text follows. */
  lemma {:induction false} ReadPrinted(shortest: Shortest, v: Json, r: string)
    requires WellFormed(shortest, v) && Delimited(r)
    ensures ReadValue(Print(v) + r) == Some((v, r))
    decreases v, 1
  {
    hide ReadChars, EscapeAll, ReadField, ReadFields, ReadItems, PrintField, PrintFields, PrintItems, NatText;
    match v
    case Null => ReadWord(v, r);
    case Bool(b) => ReadWord(v, r);
    case Num(n) =>
      NumberOfInt(n);
      if n >= 0 { NatRoundTrip(n); }
      ReadNumber(IntText(n), v, r);
    case Flt(t) => ReadNumber(t, v, r);
    case Str(s) =>
      ReadQuoted(s, r);
      assert (Print(v) + r)[1..] == EscapeAll(s) + "\"" + r;
    case Arr(items) => ReadPrintedArray(shortest, items, r);
    case Obj(fields) => ReadPrintedObject(shortest, fields, r);
  }

  lemma {:induction false} ReadPrintedArray(shortest: Shortest, items: seq<Json>, r: string)
    requires WellFormed(shortest, Arr(items))
    ensures ReadValue(Print(Arr(items)) + r) == Some((Arr(items), r))
    decreases items, 1
  {
    var text := Print(Arr(items)) + r;
    if items == [] {
      assert text[2..] == r;
    } else {
      var rest := PrintItems(items[1..]) + r;
      assert text[1..] == Print(items[0]) + rest;
      PrintStarts(shortest, items[0]);
      ReadPrintedItems(shortest, items[1..], r);
      ReadPrinted(shortest, items[0], rest);
      assert [items[0]] + items[1..] == items;
    }
  }

  lemma FieldStarts(f: Field)
    ensures PrintField(f) != "" && PrintField(f)[0] == '\"'
  {
  }

  lemma {:induction false} ReadPrintedObject(shortest: Shortest, fields: seq<Field>, r: string)
    requires WellFormed(shortest, Obj(fields))
    ensures ReadValue(Print(Obj(fields)) + r) == Some((Obj(fields), r))
    decreases fields, 1
  {
    hide PrintField, PrintFields, ReadField, ReadFields, ReadChars, KeysSorted;
    var text := Print(Obj(fields)) + r;
    if fields == [] {
      assert text[2..] == r;
    } else {
      var rest := PrintFields(fields[1..]) + r;
      assert text[1..] == PrintField(fields[0]) + rest;
      FieldStarts(fields[0]);
      ReadPrintedFields(shortest, fields[1..], r);
      ReadPrintedField(shortest, fields[0], rest);
      assert [fields[0]] + fields[1..] == fields;
    }
  }

  lemma {:induction false} ReadPrintedItems(shortest: Shortest, items: seq<Json>, r: string)
    requires forall x :: x in items ==> WellFormed(shortest, x)
    ensures ReadItems(PrintItems(items) + r) == Some((items, r))
    ensures Delimited(PrintItems(items) + r)
    decreases items, 0
  {
    hide Print, ReadValue, WellFormed;
    var text := PrintItems(items) + r;
    if items == [] {
      assert text[1..] == r;
    } else {
      var rest := PrintItems(items[1..]) + r;
      assert text[1..] == Print(items[0]) + rest;
      ReadPrintedItems(shortest, items[1..], r);
      ReadPrinted(shortest, items[0], rest);
      assert [items[0]] + items[1..] == items;
    }
  }

  lemma {:induction false} ReadPrintedField(shortest: Shortest, f: Field, r: string)
    requires WellFormed(shortest, f.value) && Delimited(r)
    ensures ReadField(PrintField(f) + r) == Some((f, r))
    decreases f, 0
  {
    hide EscapeAll, ReadChars, ReadValue, Print;
    var rest := ":" + Print(f.value) + r;
    assert (PrintField(f) + r)[1..] == EscapeAll(f.key) + "\"" + rest;
    ReadQuoted(f.key, rest);
    assert rest[1..] == Print(f.value) + r;
    ReadPrinted(shortest, f.value, r);
  }

  lemma {:induction false} ReadPrintedFields(shortest: Shortest, fields: seq<Field>, r: string)
    requires forall f :: f in fields ==> WellFormed(shortest, f.value)
    ensures ReadFields(PrintFields(fields) + r) == Some((fields, r))
    ensures Delimited(PrintFields(fields) + r)
    decreases fields, 0
  {
    hide PrintField, ReadField, WellFormed;
    var text := PrintFields(fields) + r;
    if fields == [] {
      assert text[1..] == r;
    } else {
      var rest := PrintFields(fields[1..]) + r;
      assert text[1..] == PrintField(fields[0]) + rest;
      ReadPrintedFields(shortest, fields[1..], r);
      ReadPrintedField(shortest, fields[0], rest);
      assert [fields[0]] + fields[1..] == fields;
    }
  }

  /** The canonical reader accepts exactly the canonical texts, each as its own value. */
  lemma ReadIffCanonical(shortest: Shortest, s: string, v: Json)
    ensures Read(shortest, s) == Some(v) <==> WellFormed(shortest, v) && Canonical(v) == s
  {
    if WellFormed(shortest, v) && Canonical(v) == s { ReadPrinted(shortest, v, "\n"); }
  }

  /** Distinct values have distinct canonical texts. */
  lemma CanonicalInjective(shortest: Shortest, v: Json, w: Json)
    requires WellFormed(shortest, v) && WellFormed(shortest, w) && Canonical(v) == Canonical(w)
    ensures v == w
  {
    ReadIffCanonical(shortest, Canonical(v), v);
    ReadIffCanonical(shortest, Canonical(v), w);
  }

  // ----- one value, one line -----

  predicate OneLine(s: string) { forall i :: 0 <= i < |s| ==> s[i] != '\n' && s[i] != '\r' }

  lemma {:induction false} EscapedOneLine(s: string)
    ensures OneLine(EscapeAll(s))
  {
    if s != "" { EscapedOneLine(s[1..]); }
  }

  lemma QuotedOneLine(s: string)
    ensures OneLine(Quote(s))
  {
    EscapedOneLine(s);
  }

  lemma WordsOneLine()
    ensures OneLine("null") && OneLine("true") && OneLine("false")
  {
  }

  lemma NumberOneLine(t: string)
    requires IsInteger(t) || IsFloat(t)
    ensures OneLine(t)
  {
    hide IsInteger, IsFloat;
    NumberChars(t);
  }

  lemma OneLineJoins()
    ensures OneLine("[") && OneLine("{") && OneLine("]") && OneLine("}")
    ensures forall a, b :: OneLine(a) && OneLine(b) ==> OneLine(a + b)
  {
  }

  /** Line breaks inside strings are escaped, so a printed value is a single line. */
  lemma {:induction false} PrintOneLine(shortest: Shortest, v: Json)
    requires WellFormed(shortest, v)
    ensures OneLine(Print(v))
    decreases v, 1
  {
    hide EscapeAll, NatText, IsInteger, IsFloat, NumberOf, OneLine;
    match v
    case Null => WordsOneLine();
    case Bool(_) => WordsOneLine();
    case Num(n) =>
      NumberOfInt(n);
      NumberOneLine(IntText(n));
    case Flt(t) => NumberOneLine(t);
    case Str(s) => QuotedOneLine(s);
    case Arr(items) =>
      if items != [] {
        PrintOneLine(shortest, items[0]);
        ItemsOneLine(shortest, items[1..]);
      }
      OneLineJoins();
    case Obj(fields) =>
      if fields != [] {
        FieldOneLine(shortest, fields[0]);
        FieldsOneLine(shortest, fields[1..]);
      }
      OneLineJoins();
  }

  lemma {:induction false} ItemsOneLine(shortest: Shortest, items: seq<Json>)
    requires forall x :: x in items ==> WellFormed(shortest, x)
    ensures OneLine(PrintItems(items))
    decreases items, 0
  {
    if items != [] { PrintOneLine(shortest, items[0]); ItemsOneLine(shortest, items[1..]); }
  }

  lemma {:induction false} FieldOneLine(shortest: Shortest, f: Field)
    requires WellFormed(shortest, f.value)
    ensures OneLine(PrintField(f))
    decreases f, 0
  {
    hide Print, Quote;
    QuotedOneLine(f.key);
    PrintOneLine(shortest, f.value);
  }

  lemma {:induction false} FieldsOneLine(shortest: Shortest, fields: seq<Field>)
    requires forall f :: f in fields ==> WellFormed(shortest, f.value)
    ensures OneLine(PrintFields(fields))
    decreases fields, 0
  {
    hide PrintField;
    if fields != [] { FieldOneLine(shortest, fields[0]); FieldsOneLine(shortest, fields[1..]); }
  }
}
