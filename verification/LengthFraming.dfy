/** Length-framed digests: every part is fed to the hash after its length in a fixed number of
    big-endian bytes, so the byte stream determines the parts. A char stands for a byte; parts are
    given already encoded. */
module LengthFraming {
  import opened Wrappers
  import opened CanonicalJson

  datatype FramingError = EmptySalt | Overflow

  // ----- fixed-width lengths -----

  function Pow256(width: nat): (r: nat)
    ensures r >= 1
  {
    if width == 0 then 1 else 256 * Pow256(width - 1)
  }

  /** n.to_bytes(width, "big"), which raises OverflowError when n does not fit. */
  function BigEndian(n: nat, width: nat): (r: string)
    ensures |r| == width
  {
    if width == 0 then "" else BigEndian(n / 256, width - 1) + [(n % 256) as char]
  }

  function BigEndianValue(s: string): nat {
    if s == "" then 0 else 256 * BigEndianValue(s[..|s| - 1]) + s[|s| - 1] as int
  }

  /** A length is read back exactly when it fits its field. */
  lemma {:induction false} BigEndianRoundTrip(n: nat, width: nat)
    ensures BigEndianValue(BigEndian(n, width)) < Pow256(width)
    ensures BigEndianValue(BigEndian(n, width)) == n <==> n < Pow256(width)
  {
    if width > 0 {
      var s := BigEndian(n, width);
      assert s[..|s| - 1] == BigEndian(n / 256, width - 1);
      BigEndianRoundTrip(n / 256, width - 1);
    }
  }

  // ----- framed streams -----

  /** The bytes the loop feeds for `parts`, the part at position i having a length field of
      `width(i)` bytes. */
  function Stream(parts: seq<string>, width: nat -> nat): string {
    if parts == [] then ""
    else
      var n := |parts| - 1;
      Stream(parts[..n], width) + BigEndian(|parts[n]|, width(n)) + parts[n]
  }

  lemma StreamAppend(parts: seq<string>, width: nat -> nat, part: string)
    ensures Stream(parts + [part], width) == Stream(parts, width) + BigEndian(|part|, width(|parts|)) + part
  {
    hide BigEndian;
    assert (parts + [part])[..|parts|] == parts;
  }

  predicate Fits(parts: seq<string>, width: nat -> nat) {
    forall i :: 0 <= i < |parts| ==> |parts[i]| < Pow256(width(i))
  }

  ghost predicate HasFields(width: nat -> nat) { forall k :: width(k) > 0 }

  /** The same bytes, from position `i` on. */
  function StreamFrom(parts: seq<string>, width: nat -> nat, i: nat): string
    requires i <= |parts|
    decreases |parts| - i
  {
    if i == |parts| then ""
    else BigEndian(|parts[i]|, width(i)) + parts[i] + StreamFrom(parts, width, i + 1)
  }

  lemma {:induction false} StreamSplit(parts: seq<string>, width: nat -> nat, i: nat)
    requires i <= |parts|
    ensures Stream(parts, width) == Stream(parts[..i], width) + StreamFrom(parts, width, i)
    decreases |parts| - i
  {
    hide Stream, BigEndian;
    if i == |parts| {
      assert parts[..i] == parts;
    } else {
      StreamSplit(parts, width, i + 1);
      assert parts[..i + 1] == parts[..i] + [parts[i]];
      StreamAppend(parts[..i], width, parts[i]);
    }
  }

  /** Reading parts back: a length field, then that many bytes, until the stream ends. */
  function Parse(s: string, width: nat -> nat, i: nat): Option<seq<string>> {
    if s == "" then Some([])
    else if width(i) == 0 || |s| < width(i) then None
    else
      var n := BigEndianValue(s[..width(i)]);
      var rest := s[width(i)..];
      if |rest| < n then None
      else
        match Parse(rest[n..], width, i + 1)
        case None => None
        case Some(parts) => Some([rest[..n]] + parts)
  }

  lemma ParseStep(part: string, later: string, width: nat -> nat, i: nat)
    requires |part| < Pow256(width(i)) && width(i) > 0 && Parse(later, width, i + 1).Some?
    ensures Parse(BigEndian(|part|, width(i)) + part + later, width, i)
         == Some([part] + Parse(later, width, i + 1).value)
  {
    hide BigEndian, BigEndianValue, Pow256;
    var w := width(i);
    var s := BigEndian(|part|, w) + part + later;
    BigEndianRoundTrip(|part|, w);
    assert s[..w] == BigEndian(|part|, w);
    assert s[w..] == part + later;
    assert s[w..][..|part|] == part;
    assert s[w..][|part|..] == later;
  }

  lemma ParseNothing(width: nat -> nat, i: nat)
    ensures Parse("", width, i) == Some([])
  {
  }

  lemma {:induction false} ParseFrom(parts: seq<string>, width: nat -> nat, i: nat)
    requires i <= |parts| && Fits(parts, width) && HasFields(width)
    ensures Parse(StreamFrom(parts, width, i), width, i) == Some(parts[i..])
    decreases |parts| - i
  {
    hide BigEndian, BigEndianValue, Pow256, Parse;
    if i == |parts| {
      ParseNothing(width, i);
    } else {
      ParseFrom(parts, width, i + 1);
      ParseStep(parts[i], StreamFrom(parts, width, i + 1), width, i);
      assert parts[i..] == [parts[i]] + parts[i + 1..];
    }
  }

  lemma StreamOfNone(width: nat -> nat)
    ensures Stream([], width) == ""
  {
  }

  lemma ParseStream(parts: seq<string>, width: nat -> nat)
    requires Fits(parts, width) && HasFields(width)
    ensures Parse(Stream(parts, width), width, 0) == Some(parts)
  {
    hide Stream, Parse, BigEndian, Pow256, Fits;
    assert parts[..0] == [] && parts[0..] == parts;
    StreamSplit(parts, width, 0);
    StreamOfNone(width);
    var all := StreamFrom(parts, width, 0);
    assert Stream(parts, width) == "" + all == all;
    ParseFrom(parts, width, 0);
  }

  /** Equal streams come from equal part lists, so concatenated parts can never be confused. */
  lemma StreamInjective(parts: seq<string>, others: seq<string>, width: nat -> nat)
    requires Fits(parts, width) && Fits(others, width) && HasFields(width)
    ensures Stream(parts, width) == Stream(others, width) <==> parts == others
  {
    ParseStream(parts, width);
    ParseStream(others, width);
  }

  // ----- the digest object -----

  /** A hash in progress: hashlib keeps state equivalent to the bytes fed so far. */
  class Digest {
    var fed: string

    constructor ()
      ensures fed == ""
    {
      fed := "";
    }

    method Update(chunk: string)
      modifies this
      ensures fed == old(fed) + chunk
    {
      fed := fed + chunk;
    }
  }

  function Eight(i: nat): nat { 8 }

  /** evidence_identity: salt and parts behind 8-byte lengths. `h` is SHA-256 in hexadecimal. */
  method EvidenceIdentity(h: string -> string, salt: string, parts: seq<string>)
    returns (r: Result<string, FramingError>)
    ensures salt == "" ==> r == Err(EmptySalt)
    ensures r.Ok? <==> salt != "" && Fits([salt] + parts, Eight)
    ensures r.Ok? ==> r.value == h(Stream([salt] + parts, Eight))
  {
    if salt == "" {
      return Err(EmptySalt);
    }
    r := FramedDigest(h, [salt] + parts);
  }

  /** The digest loop shared in form by evidence_identity, process_identity_sha256 and
      _database_identity_sha256. */
  method FramedDigest(h: string -> string, parts: seq<string>) returns (r: Result<string, FramingError>)
    ensures r.Ok? <==> Fits(parts, Eight)
    ensures r.Err? ==> r == Err(Overflow)
    ensures r.Ok? ==> r.value == h(Stream(parts, Eight))
  {
    hide Stream, BigEndian, Pow256;
    var digest := new Digest();
    StreamOfNone(Eight);
    assert parts[..0] == [];
    for i := 0 to |parts|
      invariant forall k :: 0 <= k < i ==> |parts[k]| < Pow256(Eight(k))
      invariant digest.fed == Stream(parts[..i], Eight)
    {
      var encoded := parts[i];
      if |encoded| >= Pow256(8) {
        return Err(Overflow);
      }
      digest.Update(BigEndian(|encoded|, 8));
      digest.Update(encoded);
      assert parts[..i + 1] == parts[..i] + [encoded];
      StreamAppend(parts[..i], Eight, encoded);
    }
    assert parts[..|parts|] == parts;
    r := Ok(h(digest.fed));
  }

  /** Salt and parts, in order and separately, are fixed by the identity unless `h` collides. */
  lemma IdentityCommits(h: string -> string, salt: string, parts: seq<string>, salt': string, parts': seq<string>)
    returns (x: string, y: string)
    requires Fits([salt] + parts, Eight) && Fits([salt'] + parts', Eight)
    requires h(Stream([salt] + parts, Eight)) == h(Stream([salt'] + parts', Eight))
    ensures (salt == salt' && parts == parts') || (x != y && h(x) == h(y))
  {
    var a, b := [salt] + parts, [salt'] + parts';
    x, y := Stream(a, Eight), Stream(b, Eight);
    StreamInjective(a, b, Eight);
    assert a[0] == salt && a[1..] == parts && b[0] == salt' && b[1..] == parts';
  }

  // ----- process and database identities -----

  /** `created` is the float's hexadecimal text and `executable` the case-folded path. */
  function ProcessParts(attempt: nat, role: string, pid: nat, created: string, executable: string): seq<string> {
    ["onec-capture-process-v1", NatText(attempt), role, NatText(pid), created, executable]
  }

  function DatabaseParts(key: string, size: nat): seq<string> {
    ["onec-capture-database-v1", key, NatText(size)]
  }

  lemma ProcessIdentityDecides(a: nat, role: string, pid: nat, created: string, exe: string,
                               a': nat, role': string, pid': nat, created': string, exe': string)
    requires Fits(ProcessParts(a, role, pid, created, exe), Eight)
    requires Fits(ProcessParts(a', role', pid', created', exe'), Eight)
    ensures Stream(ProcessParts(a, role, pid, created, exe), Eight)
         == Stream(ProcessParts(a', role', pid', created', exe'), Eight)
       <==> a == a' && role == role' && pid == pid' && created == created' && exe == exe'
  {
    hide Stream, Fits, NatText, NatValue;
    var p, q := ProcessParts(a, role, pid, created, exe), ProcessParts(a', role', pid', created', exe');
    StreamInjective(p, q, Eight);
    NatRoundTrip(a);
    NatRoundTrip(a');
    NatRoundTrip(pid);
    NatRoundTrip(pid');
    assert p == q ==> p[1] == q[1] && p[2] == q[2] && p[3] == q[3] && p[4] == q[4] && p[5] == q[5];
  }

  /** A reader of a process stream finds the tag, the attempt, the role, the process number, the creation
      time and the executable, in this order; of a database stream the tag, the key and the size. */
  lemma IdentityReads(a: nat, role: string, pid: nat, created: string, exe: string, key: string, size: nat)
    requires Fits(ProcessParts(a, role, pid, created, exe), Eight) && Fits(DatabaseParts(key, size), Eight)
    ensures Parse(Stream(ProcessParts(a, role, pid, created, exe), Eight), Eight, 0)
         == Some(["onec-capture-process-v1", NatText(a), role, NatText(pid), created, exe])
    ensures Parse(Stream(DatabaseParts(key, size), Eight), Eight, 0)
         == Some(["onec-capture-database-v1", key, NatText(size)])
  {
    hide Stream, Parse, NatText, Fits;
    ParseStream(ProcessParts(a, role, pid, created, exe), Eight);
    ParseStream(DatabaseParts(key, size), Eight);
  }

  lemma DatabaseIdentityDecides(key: string, size: nat, key': string, size': nat)
    requires Fits(DatabaseParts(key, size), Eight) && Fits(DatabaseParts(key', size'), Eight)
    ensures Stream(DatabaseParts(key, size), Eight) == Stream(DatabaseParts(key', size'), Eight)
       <==> key == key' && size == size'
  {
    hide Stream, Fits, NatText, NatValue;
    var p, q := DatabaseParts(key, size), DatabaseParts(key', size');
    StreamInjective(p, q, Eight);
    NatRoundTrip(size);
    NatRoundTrip(size');
    assert p == q ==> p[1] == q[1] && p[2] == q[2];
  }

  /** A process and a database never share an identity stream. */
  lemma IdentityKindsApart(a: nat, role: string, pid: nat, created: string, exe: string, key: string, size: nat)
    requires Fits(ProcessParts(a, role, pid, created, exe), Eight) && Fits(DatabaseParts(key, size), Eight)
    ensures Stream(ProcessParts(a, role, pid, created, exe), Eight) != Stream(DatabaseParts(key, size), Eight)
  {
    hide Stream, Fits, NatText;
    StreamInjective(ProcessParts(a, role, pid, created, exe), DatabaseParts(key, size), Eight);
  }

  // ----- source files: 4-byte path lengths, 8-byte payload lengths -----

  datatype SourceFile = SourceFile(path: string, payload: string)

  function Alternating(i: nat): nat { if i % 2 == 0 then 4 else 8 }

  function Flattened(files: seq<SourceFile>): (r: seq<string>)
    ensures |r| == 2 * |files|
    ensures forall i :: 0 <= i < |files| ==> r[2 * i] == files[i].path && r[2 * i + 1] == files[i].payload
  {
    if files == [] then []
    else
      var n := |files| - 1;
      Flattened(files[..n]) + [files[n].path, files[n].payload]
  }

  predicate FilesFit(files: seq<SourceFile>) {
    forall i :: 0 <= i < |files| ==> |files[i].path| < Pow256(4) && |files[i].payload| < Pow256(8)
  }

  /** _source_digest over the files in sorted order. */
  method SourceDigest(h: string -> string, files: seq<SourceFile>) returns (r: Result<string, FramingError>)
    ensures r.Ok? <==> FilesFit(files)
    ensures r.Ok? ==> r.value == h(Stream(Flattened(files), Alternating))
  {
    hide BigEndian, Pow256, Stream, Flattened;
    var digest := new Digest();
    StreamOfNone(Alternating);
    assert Flattened([]) == [] && files[..0] == [];
    for i := 0 to |files|
      invariant FilesFit(files[..i])
      invariant digest.fed == Stream(Flattened(files[..i]), Alternating)
    {
      var file := files[i];
      if |file.path| >= Pow256(4) {
        return Err(Overflow);
      }
      digest.Update(BigEndian(|file.path|, 4));
      digest.Update(file.path);
      if |file.payload| >= Pow256(8) {
        return Err(Overflow);
      }
      digest.Update(BigEndian(|file.payload|, 8));
      digest.Update(file.payload);
      StreamOneMoreFile(files[..i], file);
      assert files[..i + 1] == files[..i] + [file];
    }
    assert files[..|files|] == files;
    r := Ok(h(digest.fed));
  }

  lemma StreamOneMoreFile(files: seq<SourceFile>, file: SourceFile)
    ensures Stream(Flattened(files + [file]), Alternating)
         == Stream(Flattened(files), Alternating)
            + BigEndian(|file.path|, 4) + file.path + BigEndian(|file.payload|, 8) + file.payload
  {
    hide Stream, Flattened, BigEndian;
    var flat := Flattened(files);
    FlattenedAppend(files, file);
    assert flat + [file.path, file.payload] == flat + [file.path] + [file.payload];
    StreamAppend(flat, Alternating, file.path);
    StreamAppend(flat + [file.path], Alternating, file.payload);
  }

  lemma FlattenedAppend(files: seq<SourceFile>, file: SourceFile)
    ensures Flattened(files + [file]) == Flattened(files) + [file.path, file.payload]
  {
    assert (files + [file])[..|files|] == files;
  }

  /** The stream fixes which files there are, their order, their paths and their contents: bytes can
      not move between a path and a payload or between neighbouring files. */
  lemma SourceDigestDecides(files: seq<SourceFile>, others: seq<SourceFile>)
    requires FilesFit(files) && FilesFit(others)
    ensures Stream(Flattened(files), Alternating) == Stream(Flattened(others), Alternating) <==> files == others
  {
    hide Stream, Flattened, Pow256;
    var a, b := Flattened(files), Flattened(others);
    FlattenedFits(files);
    FlattenedFits(others);
    StreamInjective(a, b, Alternating);
    if a == b {
      forall i | 0 <= i < |files|
        ensures files[i] == others[i]
      {
        assert a[2 * i] == b[2 * i] && a[2 * i + 1] == b[2 * i + 1];
      }
      assert files == others;
    }
  }

  lemma FlattenedFits(files: seq<SourceFile>)
    requires FilesFit(files)
    ensures Fits(Flattened(files), Alternating)
  {
    hide Flattened, Pow256;
    var a := Flattened(files);
    forall k | 0 <= k < |a|
      ensures |a[k]| < Pow256(Alternating(k))
    {
      var i := k / 2;
      assert k == 2 * i || k == 2 * i + 1;
      assert a[2 * i] == files[i].path && a[2 * i + 1] == files[i].payload;
    }
  }
}
