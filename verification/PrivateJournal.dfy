/** The create-once, hash-chained private journal and its prefix loader
    (integration/evidence/capture_private_replay.py). */
module PrivateJournal {
  import opened Wrappers
  import opened CanonicalJson
  import opened TextOrder

  /** What the interpreter brings: SHA-256 as hexadecimal text, and the shortest texts of floats. Any
      function and any predicate serve. */
  datatype Python = Python(sha256: string -> string, shortest: Shortest)

  function Schema(): string { "onec-agent-capture-private-journal-entry-v1" }

  predicate EventKind(kind: string) {
    kind in {"call_response", "call_started", "cleanup", "complete", "outcome", "postflight", "private_marker", "stage"}
  }

  function ZeroHash(): string { seq(64, _ => '0') }

  // ----- lines, as bytes.splitlines(keepends=True) sees them -----

  function FirstLine(s: string): (n: nat)
    requires s != ""
    ensures 1 <= n <= |s|
  {
    if s[0] == '\n' then 1
    else if s[0] == '\r' then if |s| > 1 && s[1] == '\n' then 2 else 1
    else if |s| == 1 then 1
    else 1 + FirstLine(s[1..])
  }

  function SplitLines(s: string): seq<string> {
    if s == "" then [] else [s[..FirstLine(s)]] + SplitLines(s[FirstLine(s)..])
  }

  function Join(lines: seq<string>): string {
    if lines == [] then "" else lines[0] + Join(lines[1..])
  }

  /** Splitting loses nothing, whatever line ends the text has. */
  lemma {:induction false} JoinSplit(s: string)
    ensures Join(SplitLines(s)) == s
  {
    if s != "" { JoinSplit(s[FirstLine(s)..]); }
  }

  lemma {:induction false} FirstLineOf(line: string, rest: string)
    requires OneLine(line)
    ensures FirstLine(line + "\n" + rest) == |line| + 1
  {
    if line != "" {
      assert (line + "\n" + rest)[1..] == line[1..] + "\n" + rest;
      FirstLineOf(line[1..], rest);
    }
  }

  predicate TerminatedLine(l: string) { l != "" && l[|l| - 1] == '\n' && OneLine(l[..|l| - 1]) }

  /** Lines that hold one line feed, at the end, are what splitting their text gives back. */
  lemma {:induction false} SplitJoin(lines: seq<string>)
    requires forall l :: l in lines ==> TerminatedLine(l)
    ensures SplitLines(Join(lines)) == lines
  {
    if lines != [] {
      var l, rest := lines[0], Join(lines[1..]);
      assert TerminatedLine(l);
      assert l == l[..|l| - 1] + "\n";
      FirstLineOf(l[..|l| - 1], rest);
      assert (l + rest)[..|l|] == l && (l + rest)[|l|..] == rest;
      SplitJoin(lines[1..]);
    }
  }

  // ----- entries -----

  datatype Entry = Entry(attempt: Json, hash: string, kind: string, payload: seq<Field>,
                         previous: string, schema: string, sequence: Json)

  function Unsigned(e: Entry): Json {
    Obj([Field("attempt", e.attempt), Field("kind", Str(e.kind)), Field("payload", Obj(e.payload)),
         Field("previous_sha256", Str(e.previous)), Field("schema", Str(e.schema)), Field("sequence", e.sequence)])
  }

  function Signed(e: Entry): Json {
    Obj([Field("attempt", e.attempt), Field("entry_sha256", Str(e.hash)), Field("kind", Str(e.kind)),
         Field("payload", Obj(e.payload)), Field("previous_sha256", Str(e.previous)),
         Field("schema", Str(e.schema)), Field("sequence", e.sequence)])
  }

  /** The entry an object stands for: the exact key set, with text and object fields in place. */
  function Decode(v: Json): (r: Option<Entry>)
    ensures r.Some? ==> v == Signed(r.value)
  {
    if v.Obj? && |v.fields| == 7
       && v.fields[0].key == "attempt" && v.fields[1].key == "entry_sha256" && v.fields[2].key == "kind"
       && v.fields[3].key == "payload" && v.fields[4].key == "previous_sha256"
       && v.fields[5].key == "schema" && v.fields[6].key == "sequence"
       && v.fields[1].value.Str? && v.fields[2].value.Str? && v.fields[3].value.Obj?
       && v.fields[4].value.Str? && v.fields[5].value.Str?
    then Some(Entry(v.fields[0].value, v.fields[1].value.s, v.fields[2].value.s, v.fields[3].value.fields,
                    v.fields[4].value.s, v.fields[5].value.s, v.fields[6].value))
    else None
  }

  predicate EntryWellFormed(py: Python, e: Entry) {
    WellFormed(py.shortest, e.attempt) && WellFormed(py.shortest, e.sequence) && WellFormed(py.shortest, Obj(e.payload))
  }

  lemma EntryKeysSorted(e: Entry)
    ensures KeysSorted(Signed(e).fields) && KeysSorted(Unsigned(e).fields)
  {
    hide Less;
    EarlyKeys();
    LateKeys();
  }

  lemma EarlyKeys()
    ensures Less("attempt", "entry_sha256") && Less("entry_sha256", "kind") && Less("attempt", "kind")
    ensures Less("kind", "payload")
  {
  }

  lemma LateKeys()
    ensures Less("payload", "previous_sha256") && Less("previous_sha256", "schema") && Less("schema", "sequence")
  {
    LessAfter("s", "chema", "equence");
    assert "s" + "chema" == "schema" && "s" + "equence" == "sequence";
  }

  lemma LessAfter(prefix: string, a: string, b: string)
    requires |prefix| == 1 && Less(a, b)
    ensures Less(prefix + a, prefix + b)
  {
    assert (prefix + a)[1..] == a && (prefix + b)[1..] == b;
  }

  lemma EntryJsonWellFormed(py: Python, e: Entry)
    ensures WellFormed(py.shortest, Signed(e)) <==> EntryWellFormed(py, e)
    ensures WellFormed(py.shortest, Unsigned(e)) <==> EntryWellFormed(py, e)
  {
    hide KeysSorted;
    EntryKeysSorted(e);
    SignedWellFormed(py, e);
    var u := Unsigned(e).fields;
    assert u[0] in u && u[2] in u && u[5] in u;
  }

  lemma SignedWellFormed(py: Python, e: Entry)
    requires KeysSorted(Signed(e).fields)
    ensures WellFormed(py.shortest, Signed(e)) <==> EntryWellFormed(py, e)
  {
    hide KeysSorted;
    var s := Signed(e).fields;
    assert s[0] in s && s[3] in s && s[6] in s;
  }

  /** Python's `==` between a decoded value and an integer: 2, 2.0 and, for 1, true are equal. */
  predicate PyEqual(v: Json, n: int) {
    match v
    case Num(k) => k == n
    case Bool(b) => n == if b then 1 else 0
    case Flt(t) => t == IntText(n) + ".0"
    case _ => false
  }

  /** Of numbers only the same integer, its float and, for 1 and 0, a bool are equal to an integer; the
      forms of one integer are equal to no other. */
  lemma PyEqualIs(k: int, n: int, on: bool)
    ensures PyEqual(Num(k), n) <==> k == n
    ensures PyEqual(Flt(IntText(k) + ".0"), n) <==> k == n
    ensures PyEqual(Bool(on), n) <==> (on && n == 1) || (!on && n == 0)
  {
    if PyEqual(Flt(IntText(k) + ".0"), n) { FloatIntUnique(k, n); }
  }

  /** The loader's checks on the n-th entry after an entry hashed `previous`. */
  predicate EntryChecks(py: Python, e: Entry, n: nat, previous: string) {
    && (EventKind(e.kind) || e.kind == "fixture")
    && e.schema == Schema() && PyEqual(e.attempt, 2) && PyEqual(e.sequence, n) && e.previous == previous
    && IsHash(e.hash) && e.hash == py.sha256(Canonical(Unsigned(e)))
  }

  /** Every entry passes the checks, numbered from `n`, each naming its predecessor's hash. */
  predicate ChainFrom(py: Python, es: seq<Entry>, n: nat, previous: string) {
    es == [] || (EntryWellFormed(py, es[0]) && EntryChecks(py, es[0], n, previous)
        && ChainFrom(py, es[1..], n + 1, es[0].hash))
  }

  predicate Chain(py: Python, es: seq<Entry>) { ChainFrom(py, es, 1, ZeroHash()) }

  /** What must hold of the i-th entry of a journal. */
  ghost predicate LinkedAt(py: Python, es: seq<Entry>, i: nat)
    requires i < |es|
  {
    && EntryWellFormed(py, es[i]) && (EventKind(es[i].kind) || es[i].kind == "fixture")
    && es[i].schema == "onec-agent-capture-private-journal-entry-v1"
    && PyEqual(es[i].attempt, 2) && PyEqual(es[i].sequence, i + 1)
    && es[i].previous == (if i == 0 then seq(64, _ => '0') else es[i - 1].hash)
    && IsHash(es[i].hash) && es[i].hash == py.sha256(Canonical(Unsigned(es[i])))
  }

  /** A chain, entry by entry. */
  lemma ChainIff(py: Python, es: seq<Entry>)
    ensures Chain(py, es) <==> forall i :: 0 <= i < |es| ==> LinkedAt(py, es, i)
  {
    hide ChainFrom, EntryWellFormed, IsHash, Canonical, Unsigned, PyEqual, EventKind;
    if Chain(py, es) {
      forall i | 0 <= i < |es| ensures LinkedAt(py, es, i) { ChainMember(py, es, 1, ZeroHash(), i); }
    }
    if forall i :: 0 <= i < |es| ==> LinkedAt(py, es, i) {
      forall i | 0 <= i < |es|
        ensures EntryWellFormed(py, es[i]) && EntryChecks(py, es[i], 1 + i, Before(es, i, ZeroHash()))
      {
        assert LinkedAt(py, es, i);
      }
      LinksChain(py, es, 1, ZeroHash());
    }
  }

  function Before(es: seq<Entry>, i: nat, previous: string): string
    requires i <= |es|
  {
    if i == 0 then previous else es[i - 1].hash
  }

  lemma {:induction false} LinksChain(py: Python, es: seq<Entry>, n: nat, previous: string)
    requires forall i :: 0 <= i < |es| ==>
               EntryWellFormed(py, es[i]) && EntryChecks(py, es[i], n + i, Before(es, i, previous))
    ensures ChainFrom(py, es, n, previous)
  {
    hide EntryWellFormed, EntryChecks;
    if es != [] {
      var rest := es[1..];
      forall i | 0 <= i < |rest|
        ensures EntryWellFormed(py, rest[i]) && EntryChecks(py, rest[i], n + 1 + i, Before(rest, i, es[0].hash))
      {
        assert rest[i] == es[i + 1] && Before(rest, i, es[0].hash) == Before(es, i + 1, previous);
      }
      LinksChain(py, rest, n + 1, es[0].hash);
    }
  }

  /** What is hashed is the entry without its hash. */
  lemma UnsignedIs(e: Entry)
    ensures Signed(e).fields[1] == Field("entry_sha256", Str(e.hash))
    ensures Unsigned(e).fields == Signed(e).fields[..1] + Signed(e).fields[2..]
  {
  }

  function Line(e: Entry): string { Canonical(Signed(e)) }

  function Lines(es: seq<Entry>): (lines: seq<string>)
    ensures |lines| == |es| && forall i :: 0 <= i < |es| ==> lines[i] == Line(es[i])
  {
    seq(|es|, i requires 0 <= i < |es| => Line(es[i]))
  }

  function FileText(es: seq<Entry>): string { Join(Lines(es)) }

  predicate BindsFixture(e: Entry, digest: string) {
    e.kind == "fixture" && e.payload == [Field("fixture_sha256", Str(digest))]
  }

  /** `text` is the journal with the entries `es` for the fixture hashed `digest`. */
  predicate Accepted(py: Python, text: string, digest: string, es: seq<Entry>) {
    es != [] && Chain(py, es) && BindsFixture(es[0], digest) && text == FileText(es)
  }

  // ----- the loader -----

  function CheckLine(py: Python, raw: string, n: nat, previous: string): Option<Entry> {
    match Read(py.shortest, raw)
    case None => None
    case Some(v) =>
      match Decode(v)
      case None => None
      case Some(e) => if EntryChecks(py, e, n, previous) then Some(e) else None
  }

  lemma CheckLineIff(py: Python, raw: string, n: nat, previous: string, e: Entry)
    ensures CheckLine(py, raw, n, previous) == Some(e) <==>
              raw == Line(e) && EntryWellFormed(py, e) && EntryChecks(py, e, n, previous)
  {
    hide Read, WellFormed, Canonical, EntryChecks, EntryWellFormed;
    ReadIffCanonical(py.shortest, raw, Signed(e));
    EntryJsonWellFormed(py, e);
    assert Decode(Signed(e)) == Some(e);
    if Read(py.shortest, raw).Some? && Decode(Read(py.shortest, raw).value) == Some(e) {
      assert Read(py.shortest, raw) == Some(Signed(e));
    }
  }

  lemma LineTerminated(py: Python, e: Entry)
    requires EntryWellFormed(py, e)
    ensures TerminatedLine(Line(e))
  {
    EntryJsonWellFormed(py, e);
    PrintOneLine(py.shortest, Signed(e));
    assert Line(e)[..|Line(e)| - 1] == Print(Signed(e));
  }

  lemma {:induction false} ChainLines(py: Python, es: seq<Entry>, n: nat, previous: string)
    requires ChainFrom(py, es, n, previous)
    ensures SplitLines(FileText(es)) == Lines(es)
  {
    forall l | l in Lines(es) ensures TerminatedLine(l) {
      var i :| 0 <= i < |es| && l == Line(es[i]);
      ChainMember(py, es, n, previous, i);
      LineTerminated(py, es[i]);
    }
    SplitJoin(Lines(es));
  }

  lemma {:induction false} ChainMember(py: Python, es: seq<Entry>, n: nat, previous: string, i: nat)
    requires ChainFrom(py, es, n, previous) && i < |es|
    ensures EntryWellFormed(py, es[i])
    ensures EntryChecks(py, es[i], n + i, if i == 0 then previous else es[i - 1].hash)
  {
    hide EntryWellFormed, EntryChecks;
    if i > 0 { ChainMember(py, es[1..], n + 1, es[0].hash, i - 1); }
  }

  function ScanLines(py: Python, raw: seq<string>, n: nat, previous: string): Option<seq<Entry>> {
    if raw == [] then Some([])
    else
      match CheckLine(py, raw[0], n, previous)
      case None => None
      case Some(e) => Prepend([e], ScanLines(py, raw[1..], n + 1, e.hash))
  }

  function Prepend(es: seq<Entry>, r: Option<seq<Entry>>): Option<seq<Entry>> {
    match r case None => None case Some(rest) => Some(es + rest)
  }

  lemma PrependLaws(a: seq<Entry>, b: seq<Entry>, r: Option<seq<Entry>>)
    ensures Prepend([], r) == r && Prepend(a + b, r) == Prepend(a, Prepend(b, r))
  {
    if r.Some? {
      assert [] + r.value == r.value;
      assert (a + b) + r.value == a + (b + r.value);
    }
  }

  lemma {:induction false} ScanLinesIff(py: Python, raw: seq<string>, n: nat, previous: string, es: seq<Entry>)
    ensures ScanLines(py, raw, n, previous) == Some(es) <==> raw == Lines(es) && ChainFrom(py, es, n, previous)
  {
    hide CheckLine, EntryChecks, EntryWellFormed, Line;
    if raw != [] && es != [] {
      hide ScanLines, Lines;
      CheckLineIff(py, raw[0], n, previous, es[0]);
      ScanLinesIff(py, raw[1..], n + 1, es[0].hash, es[1..]);
      ScanOneLine(py, raw, n, previous, es);
      LinesStep(raw, es);
    }
  }

  lemma ScanOneLine(py: Python, raw: seq<string>, n: nat, previous: string, es: seq<Entry>)
    requires raw != [] && es != []
    ensures ScanLines(py, raw, n, previous) == Some(es) <==>
              && CheckLine(py, raw[0], n, previous) == Some(es[0])
              && ScanLines(py, raw[1..], n + 1, es[0].hash) == Some(es[1..])
  {
    hide CheckLine;
    assert es == [es[0]] + es[1..];
    if CheckLine(py, raw[0], n, previous).Some? {
      var e := CheckLine(py, raw[0], n, previous).value;
      var rest := ScanLines(py, raw[1..], n + 1, e.hash);
      if rest.Some? { assert ([e] + rest.value)[0] == e && ([e] + rest.value)[1..] == rest.value; }
    }
  }

  lemma LinesStep(raw: seq<string>, es: seq<Entry>)
    requires raw != [] && es != []
    ensures raw == Lines(es) <==> raw[0] == Line(es[0]) && raw[1..] == Lines(es[1..])
  {
    hide Line;
    assert raw == [raw[0]] + raw[1..] && Lines(es) == [Line(es[0])] + Lines(es[1..]);
  }

  /** The entries of an accepted text. */
  function Loaded(py: Python, text: string, digest: string): (r: Option<seq<Entry>>)
    ensures r.Some? ==> r.value != []
  {
    match ScanLines(py, SplitLines(text), 1, ZeroHash())
    case None => None
    case Some(es) => if es != [] && BindsFixture(es[0], digest) then Some(es) else None
  }

  lemma LoadedIff(py: Python, text: string, digest: string, es: seq<Entry>)
    ensures Loaded(py, text, digest) == Some(es) <==> Accepted(py, text, digest, es)
  {
    hide SplitLines, ChainFrom, ScanLines;
    var raw := SplitLines(text);
    ScanLinesIff(py, raw, 1, ZeroHash(), es);
    if Chain(py, es) && text == FileText(es) { ChainLines(py, es, 1, ZeroHash()); }
    JoinSplit(text);
  }

  /** Loads and authenticates a journal prefix: it succeeds exactly on the texts that are the
      concatenated canonical lines of a chained entry list bound to the fixture. */
  method LoadPrefix(py: Python, text: string, digest: string) returns (r: Option<seq<Entry>>)
    ensures r == Loaded(py, text, digest)
    ensures forall es :: r == Some(es) <==> Accepted(py, text, digest, es)
  {
    hide CheckLine, SplitLines, ChainFrom, Accepted;
    forall es ensures Loaded(py, text, digest) == Some(es) <==> Accepted(py, text, digest, es) {
      LoadedIff(py, text, digest, es);
    }
    var raw := SplitLines(text);
    if raw == [] { return None; }
    var entries: seq<Entry>, previous := [], ZeroHash();
    var i := 0;
    assert raw[0..] == raw;
    PrependLaws([], [], ScanLines(py, raw, 1, ZeroHash()));
    while i < |raw|
      invariant 0 <= i <= |raw| && |entries| == i
      invariant ScanLines(py, raw, 1, ZeroHash()) == Prepend(entries, ScanLines(py, raw[i..], i + 1, previous))
    {
      var e := CheckLine(py, raw[i], i + 1, previous);
      assert raw[i..][0] == raw[i] && raw[i..][1..] == raw[i + 1..];
      if e.None? { return None; }
      PrependLaws(entries, [e.value], ScanLines(py, raw[i + 1..], i + 2, e.value.hash));
      entries, previous := entries + [e.value], e.value.hash;
      i := i + 1;
    }
    assert raw[i..] == [] && entries + [] == entries;
    assert ScanLines(py, raw, 1, ZeroHash()) == Some(entries);
    if !BindsFixture(entries[0], digest) { return None; }
    return Some(entries);
  }

  /** One text, one entry list. */
  lemma AcceptedOnce(py: Python, text: string, digest: string, es: seq<Entry>, fs: seq<Entry>)
    requires Accepted(py, text, digest, es) && Accepted(py, text, digest, fs)
    ensures es == fs
  {
    LoadedIff(py, text, digest, es);
    LoadedIff(py, text, digest, fs);
  }

  // ----- the chain head -----

  lemma FloatIntUnique(i: int, j: int)
    requires IntText(i) + ".0" == IntText(j) + ".0"
    ensures i == j
  {
    var a, b := IntText(i) + ".0", IntText(j) + ".0";
    assert a[..|a| - 2] == IntText(i) && b[..|b| - 2] == IntText(j);
    NumberOfInt(i);
    NumberOfInt(j);
  }

  lemma SequenceUnique(v: Json, i: int, j: int)
    requires PyEqual(v, i) && PyEqual(v, j)
    ensures i == j
  {
    if v.Flt? { FloatIntUnique(i, j); }
  }

  /** The last entry's hash commits to the whole history: two chained journals with the same head
      agree entry by entry, or a collision of the hash function is at hand. */
  lemma {:induction false} HeadCommits(py: Python, es: seq<Entry>, fs: seq<Entry>) returns (x: string, y: string)
    requires es != [] && fs != [] && Chain(py, es) && Chain(py, fs)
    requires es[|es| - 1].hash == fs[|fs| - 1].hash
    ensures es == fs || (x != y && py.sha256(x) == py.sha256(y))
  {
    hide ChainFrom, EntryWellFormed, WellFormed, Canonical, Unsigned, IsHash, PyEqual, ZeroHash, Schema, EventKind;
    var n, m := |es|, |fs|;
    var e, f := es[n - 1], fs[m - 1];
    x, y := Canonical(Unsigned(e)), Canonical(Unsigned(f));
    ChainMember(py, es, 1, ZeroHash(), n - 1);
    ChainMember(py, fs, 1, ZeroHash(), m - 1);
    if x == y {
      UnsignedCommits(py, e, f);
      SequenceUnique(e.sequence, n, m);
      ChainPrefix(py, es, n - 1);
      ChainPrefix(py, fs, n - 1);
      assert es == es[..n - 1] + [e] && fs == fs[..n - 1] + [f];
      if n > 1 { x, y := HeadCommits(py, es[..n - 1], fs[..n - 1]); }
    }
  }

  /** Two accepted files with the same head hash are the same file for the same fixture, or a
      collision is at hand. */
  lemma HeadDeterminesFile(py: Python, text: string, digest: string, es: seq<Entry>,
                           text': string, digest': string, fs: seq<Entry>) returns (x: string, y: string)
    requires Accepted(py, text, digest, es) && Accepted(py, text', digest', fs)
    requires es[|es| - 1].hash == fs[|fs| - 1].hash
    ensures (text == text' && digest == digest') || (x != y && py.sha256(x) == py.sha256(y))
  {
    hide ChainFrom;
    x, y := HeadCommits(py, es, fs);
    if es == fs {
      var a, b := [Field("fixture_sha256", Str(digest))], [Field("fixture_sha256", Str(digest'))];
      assert es[0].payload == a && fs[0].payload == b && a[0].value.s == b[0].value.s;
    }
  }

  lemma UnsignedCommits(py: Python, e: Entry, f: Entry)
    requires EntryWellFormed(py, e) && EntryWellFormed(py, f) && e.hash == f.hash
    requires Canonical(Unsigned(e)) == Canonical(Unsigned(f))
    ensures e == f
  {
    hide EntryWellFormed, WellFormed, Canonical;
    EntryJsonWellFormed(py, e);
    EntryJsonWellFormed(py, f);
    CanonicalInjective(py.shortest, Unsigned(e), Unsigned(f));
    var a, b := Unsigned(e).fields, Unsigned(f).fields;
    assert a[0] == b[0] && a[1] == b[1] && a[2] == b[2] && a[3] == b[3] && a[4] == b[4] && a[5] == b[5];
  }

  lemma {:induction false} ChainExtend(py: Python, es: seq<Entry>, n: nat, previous: string, e: Entry)
    ensures ChainFrom(py, es + [e], n, previous) <==>
              ChainFrom(py, es, n, previous) && EntryWellFormed(py, e)
              && EntryChecks(py, e, n + |es|, if es == [] then previous else es[|es| - 1].hash)
  {
    hide EntryWellFormed, EntryChecks;
    if es == [] {
      assert [] + [e] == [e];
    } else {
      assert (es + [e])[1..] == es[1..] + [e];
      ChainExtend(py, es[1..], n + 1, es[0].hash, e);
    }
  }

  lemma {:induction false} ChainPrefix(py: Python, es: seq<Entry>, n: nat)
    requires Chain(py, es) && n <= |es|
    ensures Chain(py, es[..n])
    decreases |es| - n
  {
    hide EntryWellFormed, EntryChecks, ChainFrom;
    if n < |es| {
      ChainPrefix(py, es, n + 1);
      assert es[..n + 1] == es[..n] + [es[n]];
      ChainExtend(py, es[..n], 1, ZeroHash(), es[n]);
    } else {
      assert es[..n] == es;
    }
  }

  // ----- the writer -----

  datatype Event = Event(kind: string, payload: seq<Field>)
  type Validator = (string, seq<Field>) -> bool

  ghost predicate HashShaped(py: Python) { forall x :: IsHash(py.sha256(x)) }

  function MakeEntry(py: Python, n: nat, previous: string, kind: string, payload: seq<Field>): (e: Entry)
    ensures e.kind == kind && e.payload == payload && e.hash == py.sha256(Canonical(Unsigned(e)))
    ensures e.attempt == Num(2) && e.sequence == Num(n)
  {
    var unsigned := Entry(Num(2), "", kind, payload, previous, Schema(), Num(n));
    unsigned.(hash := py.sha256(Canonical(Unsigned(unsigned))))
  }

  /** The entries of a journal created for a fixture and appended to event by event. */
  function Written(py: Python, digest: string, events: seq<Event>): (es: seq<Entry>)
    ensures |es| == |events| + 1
  {
    if events == [] then [MakeEntry(py, 1, ZeroHash(), "fixture", [Field("fixture_sha256", Str(digest))])]
    else
      var es, last := Written(py, digest, events[..|events| - 1]), events[|events| - 1];
      es + [MakeEntry(py, |es| + 1, es[|es| - 1].hash, last.kind, last.payload)]
  }

  predicate EventOk(py: Python, valid: Validator, kind: string, payload: seq<Field>) {
    EventKind(kind) && valid(kind, payload) && WellFormed(py.shortest, Obj(payload))
  }

  /** Every event passes validation and none follows `complete`. */
  predicate Admissible(py: Python, valid: Validator, events: seq<Event>) {
    forall i :: 0 <= i < |events| ==>
      EventOk(py, valid, events[i].kind, events[i].payload) && (i + 1 < |events| ==> events[i].kind != "complete")
  }

  lemma FixtureEntryOk(py: Python, digest: string)
    requires HashShaped(py)
    ensures Chain(py, Written(py, digest, []))
  {
    hide EntryWellFormed, EntryChecks, MakeEntry, ZeroHash;
    var payload := [Field("fixture_sha256", Str(digest))];
    var e := MakeEntry(py, 1, ZeroHash(), "fixture", payload);
    MadeEntryOk(py, 1, ZeroHash(), "fixture", payload);
    ChainExtend(py, [], 1, ZeroHash(), e);
    assert [] + [e] == Written(py, digest, []);
  }

  lemma MadeEntryOk(py: Python, n: nat, previous: string, kind: string, payload: seq<Field>)
    requires HashShaped(py) && WellFormed(py.shortest, Obj(payload)) && (EventKind(kind) || kind == "fixture")
    ensures EntryWellFormed(py, MakeEntry(py, n, previous, kind, payload))
    ensures EntryChecks(py, MakeEntry(py, n, previous, kind, payload), n, previous)
  {
    var e := MakeEntry(py, n, previous, kind, payload);
    assert IsHash(py.sha256(Canonical(Unsigned(e))));
  }

  lemma EventOkFacts(py: Python, valid: Validator, kind: string, payload: seq<Field>)
    requires EventOk(py, valid, kind, payload)
    ensures EventKind(kind) && WellFormed(py.shortest, Obj(payload))
  {
  }

  lemma {:induction false} WrittenChain(py: Python, digest: string, valid: Validator, events: seq<Event>)
    requires HashShaped(py) && Admissible(py, valid, events)
    ensures Chain(py, Written(py, digest, events))
  {
    hide ChainFrom, EntryChecks, EntryWellFormed, WellFormed, MakeEntry, EventOk;
    if events == [] {
      FixtureEntryOk(py, digest);
    } else {
      var last := events[|events| - 1];
      EventOkFacts(py, valid, last.kind, last.payload);
      WrittenChain(py, digest, valid, events[..|events| - 1]);
      var es := Written(py, digest, events[..|events| - 1]);
      MadeEntryOk(py, |es| + 1, es[|es| - 1].hash, last.kind, last.payload);
      ChainExtend(py, es, 1, ZeroHash(), NextEntry(py, es, last.kind, last.payload));
    }
  }

  lemma {:induction false} WrittenEvents(py: Python, digest: string, events: seq<Event>)
    ensures EventsOf(Written(py, digest, events)) == events
    ensures BindsFixture(Written(py, digest, events)[0], digest)
  {
    hide MakeEntry;
    if events != [] {
      var n := |events| - 1;
      WrittenEvents(py, digest, events[..n]);
      assert forall i :: 0 <= i < n ==> EventsOf(Written(py, digest, events[..n]))[i] == events[i];
    }
  }

  /** Create followed by any sequence of successful appends leaves a file the loader accepts, and
      the loaded entries are the fixture entry and then the events, in order. */
  lemma WrittenIsAccepted(py: Python, digest: string, valid: Validator, events: seq<Event>)
    requires HashShaped(py) && Admissible(py, valid, events)
    ensures var es := Written(py, digest, events);
            Accepted(py, FileText(es), digest, es) && EventsOf(es) == events
  {
    hide Chain, FileText, BindsFixture, Written;
    WrittenChain(py, digest, valid, events);
    WrittenEvents(py, digest, events);
  }

  /** What distinguishes the writer's entries among those the loader accepts. */
  predicate WriterLike(py: Python, valid: Validator, es: seq<Entry>) {
    forall i :: 0 <= i < |es| ==>
      && es[i].attempt == Num(2) && es[i].sequence == Num(i + 1)
      && (i > 0 ==> EventOk(py, valid, es[i].kind, es[i].payload) && (i + 1 < |es| ==> es[i].kind != "complete"))
  }

  function EventsOf(es: seq<Entry>): (events: seq<Event>)
    requires es != []
    ensures |events| == |es| - 1
    ensures forall i :: 0 <= i < |events| ==> events[i] == Event(es[i + 1].kind, es[i + 1].payload)
  {
    seq(|es| - 1, i requires 0 <= i < |es| - 1 => Event(es[i + 1].kind, es[i + 1].payload))
  }

  lemma MadeEntryIs(py: Python, e: Entry, n: nat, previous: string)
    requires EntryChecks(py, e, n, previous) && e.attempt == Num(2) && e.sequence == Num(n)
    ensures e == MakeEntry(py, n, previous, e.kind, e.payload)
  {
    assert Unsigned(e) == Unsigned(MakeEntry(py, n, previous, e.kind, e.payload));
  }

  lemma {:induction false} AcceptedIsWritten(py: Python, digest: string, valid: Validator, es: seq<Entry>)
    requires es != [] && Chain(py, es) && BindsFixture(es[0], digest) && WriterLike(py, valid, es)
    ensures es == Written(py, digest, EventsOf(es))
  {
    hide ChainFrom, EntryChecks, EntryWellFormed, WellFormed, EventOk, MakeEntry, WriterLike, ZeroHash;
    var n := |es| - 1;
    ChainMember(py, es, 1, ZeroHash(), n);
    WriterLikeLast(py, valid, es);
    MadeEntryIs(py, es[n], n + 1, if n == 0 then ZeroHash() else es[n - 1].hash);
    if n > 0 {
      hide EventsOf, BindsFixture;
      ChainPrefix(py, es, n);
      AcceptedIsWritten(py, digest, valid, es[..n]);
      EventsOfPrefix(es);
      assert es == es[..n] + [es[n]];
    } else {
      assert es == [es[0]] && EventsOf(es) == [];
    }
  }

  lemma WriterLikeLast(py: Python, valid: Validator, es: seq<Entry>)
    requires es != [] && WriterLike(py, valid, es)
    ensures es[|es| - 1].attempt == Num(2) && es[|es| - 1].sequence == Num(|es|)
    ensures WriterLike(py, valid, es[..|es| - 1])
  {
    hide EventOk;
  }

  lemma EventsOfPrefix(es: seq<Entry>)
    requires |es| > 1
    ensures EventsOf(es)[..|es| - 2] == EventsOf(es[..|es| - 1])
    ensures EventsOf(es)[|es| - 2] == Event(es[|es| - 1].kind, es[|es| - 1].payload)
  {
  }

  lemma WriterLikeAdmissible(py: Python, valid: Validator, es: seq<Entry>)
    requires es != [] && WriterLike(py, valid, es)
    ensures Admissible(py, valid, EventsOf(es))
  {
    hide EventOk;
  }

  /** A file is the outcome of create and valid appends if and only if the prefix loader accepts
      it and its entries are writer-like. */
  lemma WriterFilesExactly(py: Python, text: string, digest: string, valid: Validator)
    requires HashShaped(py)
    ensures (exists events :: Admissible(py, valid, events) && text == FileText(Written(py, digest, events))) <==>
              exists es :: Accepted(py, text, digest, es) && WriterLike(py, valid, es)
  {
    hide ChainFrom, EntryChecks, EntryWellFormed, WellFormed, EventOk, FileText;
    if events :| Admissible(py, valid, events) && text == FileText(Written(py, digest, events)) {
      WrittenIsAccepted(py, digest, valid, events);
      WrittenIsWriterLike(py, digest, valid, events);
    }
    if es :| Accepted(py, text, digest, es) && WriterLike(py, valid, es) {
      AcceptedIsWritten(py, digest, valid, es);
      WriterLikeAdmissible(py, valid, es);
    }
  }

  lemma {:induction false} WrittenIsWriterLike(py: Python, digest: string, valid: Validator, events: seq<Event>)
    requires Admissible(py, valid, events)
    ensures WriterLike(py, valid, Written(py, digest, events))
  {
    hide EventOk, MakeEntry, Schema, ZeroHash;
    if events != [] { WrittenIsWriterLike(py, digest, valid, events[..|events| - 1]); }
  }

  lemma TwoIsFloat()
    ensures IsFloat("2.0")
  {
    var t := "2.0";
    assert DigitsEnd(t, 2) == 3 && DigitsEnd(t, 0) == 1;
  }

  /** The loader is more liberal than the writer: Python's `==` lets a first entry whose attempt
      is the float 2.0 pass, though no append writes one. */
  lemma LoaderAcceptsFloatAttempt(py: Python, digest: string, valid: Validator) returns (es: seq<Entry>)
    requires HashShaped(py) && py.shortest("2.0")
    ensures Accepted(py, FileText(es), digest, es) && !WriterLike(py, valid, es)
  {
    hide EntryWellFormed, EntryChecks, FloatEntry, FileText;
    var e := FloatEntry(py, digest);
    FloatEntryOk(py, digest);
    es := [e];
    ChainExtend(py, [], 1, ZeroHash(), e);
    assert [] + [e] == es;
  }

  /** A first entry whose attempt is the float 2.0. */
  function FloatEntry(py: Python, digest: string): (e: Entry)
    ensures e.attempt == Flt("2.0") && e.sequence == Num(1) && BindsFixture(e, digest)
    ensures e.previous == ZeroHash() && e.schema == Schema() && e.hash == py.sha256(Canonical(Unsigned(e)))
  {
    var e := MakeEntry(py, 1, ZeroHash(), "fixture", [Field("fixture_sha256", Str(digest))]).(attempt := Flt("2.0"));
    e.(hash := py.sha256(Canonical(Unsigned(e))))
  }

  lemma FloatEntryOk(py: Python, digest: string)
    requires HashShaped(py) && py.shortest("2.0")
    ensures EntryWellFormed(py, FloatEntry(py, digest))
    ensures EntryChecks(py, FloatEntry(py, digest), 1, ZeroHash())
  {
    hide Canonical, IsFloat, IsHash, ZeroHash, Schema, FloatEntry, Unsigned;
    var e := FloatEntry(py, digest);
    TwoIsFloat();
    assert IntText(2) == "2";
    assert KeysSorted(e.payload) && forall f :: f in e.payload ==> WellFormed(py.shortest, f.value);
    assert IsHash(py.sha256(Canonical(Unsigned(e))));
  }

  class PrivateAttempt {
    const py: Python
    const validFixture: Json -> bool
    const validEvent: Validator
    var fixture: Option<string>
    var manifest: Option<string>
    var journal: Option<string>
    ghost var events: seq<Event>

    constructor (py: Python, validFixture: Json -> bool, validEvent: Validator)
      ensures this.py == py && this.validFixture == validFixture && this.validEvent == validEvent
      ensures fixture == manifest == journal == None && Intact()
    {
      this.py, this.validFixture, this.validEvent := py, validFixture, validEvent;
      fixture, manifest, journal, events := None, None, None, [];
    }

    /** The digest of the stored fixture, None unless the fixture and its manifest agree. */
    function Digest(): Option<string>
      reads this`fixture, this`manifest
    {
      match fixture
      case None => None
      case Some(text) =>
        match Read(py.shortest, text)
        case None => None
        case Some(v) =>
          if v.Obj? && validFixture(v) && manifest == Some(py.sha256(text) + "  fixture.json\n")
          then Some(py.sha256(text)) else None
    }

    /** Nobody but this object has written the files. */
    ghost predicate Intact()
      reads this
    {
      && (journal.None? ==> fixture.None?)
      && (journal.Some? ==>
            && Digest().Some? && Admissible(py, validEvent, events)
            && journal.value == FileText(Written(py, Digest().value, events)))
    }

    method Create(value: Json) returns (ok: bool)
      modifies this
      ensures ok <==> value.Obj? && validFixture(value) && WellFormed(py.shortest, value) && old(fixture).None?
      ensures !ok ==> unchanged(this)
      ensures ok ==> Intact() && Digest() == Some(py.sha256(Canonical(value))) && events == [] && journal.Some?
    {
      hide Read, WellFormed, Canonical, MakeEntry, FileText, Line;
      if !value.Obj? || !validFixture(value) || !WellFormed(py.shortest, value) || fixture.Some? { return false; }
      var payload := Canonical(value);
      ReadIffCanonical(py.shortest, payload, value);
      var digest := py.sha256(payload);
      fixture, manifest := Some(payload), Some(digest + "  fixture.json\n");
      var first := MakeEntry(py, 1, ZeroHash(), "fixture", [Field("fixture_sha256", Str(digest))]);
      FirstFile(first);
      journal, events := Some(Line(first)), [];
      return true;
    }

    /** What the prefix loader makes of the stored files. */
    function Current(): Option<seq<Entry>>
      reads this`fixture, this`manifest, this`journal
    {
      if Digest().None? || journal.None? then None else Loaded(py, journal.value, Digest().value)
    }

    method Load() returns (r: Option<seq<Entry>>)
      ensures r == Current()
    {
      if Digest().None? || journal.None? { return None; }
      r := LoadPrefix(py, journal.value, Digest().value);
    }

    /** Appends one event after authenticating the prefix. Nothing changes on refusal; success
        adds exactly one line. An intact journal stays intact, and an intact journal refuses a
        valid event exactly when it is complete. */
    method Append(kind: string, payload: seq<Field>) returns (r: Option<Entry>)
      modifies this`journal, this`events
      ensures r.None? ==> unchanged(this)
      ensures r.Some? <==>
                && EventOk(py, validEvent, kind, payload)
                && old(Current()).Some? && !Complete(old(Current()).value)
      ensures r.Some? ==>
                && r.value == NextEntry(py, old(Current()).value, kind, payload)
                && journal == Some(old(journal).value + Line(r.value))
                && events == old(events) + [Event(kind, payload)]
      ensures HashShaped(py) && old(Intact()) ==> Intact()
      ensures HashShaped(py) && old(Intact()) && old(journal).Some? ==>
                (r.Some? <==> EventOk(py, validEvent, kind, payload)
                              && (old(events) == [] || old(events)[|old(events)| - 1].kind != "complete"))
    {
      hide Accepted, Written, Read, FileText, EventOk, WellFormed, MakeEntry, Line, HashShaped, Loaded, Digest;
      hide Admissible;
      ghost var sound := HashShaped(py) && Intact() && journal.Some?;
      if sound {
        WrittenIsAccepted(py, Digest().value, validEvent, events);
        LoadedIff(py, journal.value, Digest().value, Written(py, Digest().value, events));
        WrittenEnds(py, Digest().value, events);
      }
      if !EventOk(py, validEvent, kind, payload) { return None; }
      var loaded := Load();
      if loaded.None? || Complete(loaded.value) { return None; }
      var entry := NextEntry(py, loaded.value, kind, payload);
      if sound {
        WrittenExtend(py, Digest().value, events, Event(kind, payload));
        AdmissibleExtend(py, validEvent, events, Event(kind, payload));
      }
      journal, events := Some(journal.value + Line(entry)), events + [Event(kind, payload)];
      return Some(entry);
    }
  }

  predicate Complete(es: seq<Entry>)
    requires es != []
  {
    es[|es| - 1].kind == "complete"
  }

  function NextEntry(py: Python, es: seq<Entry>, kind: string, payload: seq<Field>): Entry
    requires es != []
  {
    MakeEntry(py, |es| + 1, es[|es| - 1].hash, kind, payload)
  }

  lemma AdmissibleExtend(py: Python, valid: Validator, events: seq<Event>, ev: Event)
    requires Admissible(py, valid, events) && EventOk(py, valid, ev.kind, ev.payload)
    requires events == [] || events[|events| - 1].kind != "complete"
    ensures Admissible(py, valid, events + [ev])
  {
  }

  lemma WrittenEnds(py: Python, digest: string, events: seq<Event>)
    ensures Written(py, digest, events)[|events|].kind == if events == [] then "fixture" else events[|events| - 1].kind
  {
  }

  lemma {:induction false} JoinAppend(lines: seq<string>, l: string)
    ensures Join(lines + [l]) == Join(lines) + l
  {
    if lines != [] {
      assert (lines + [l])[1..] == lines[1..] + [l];
      JoinAppend(lines[1..], l);
    }
  }

  lemma WrittenExtend(py: Python, digest: string, events: seq<Event>, ev: Event)
    ensures var es := Written(py, digest, events);
            var e := NextEntry(py, es, ev.kind, ev.payload);
            && Written(py, digest, events + [ev]) == es + [e]
            && FileText(es + [e]) == FileText(es) + Line(e)
  {
    hide FileText, MakeEntry, Line;
    assert (events + [ev])[..|events|] == events;
    var es := Written(py, digest, events);
    FileTextAppend(es, NextEntry(py, es, ev.kind, ev.payload));
  }

  lemma FileTextAppend(es: seq<Entry>, e: Entry)
    ensures FileText(es + [e]) == FileText(es) + Line(e)
  {
    hide Line, Join;
    assert Lines(es + [e]) == Lines(es) + [Line(e)];
    JoinAppend(Lines(es), Line(e));
  }

  lemma FirstFile(e: Entry)
    ensures FileText([e]) == Line(e)
  {
    hide Line;
    FileTextAppend([], e);
    assert [] + [e] == [e] && Lines([]) == [] && "" + Line(e) == Line(e);
  }
}
