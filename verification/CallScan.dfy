/** Matching of concurrent call starts and responses in a complete private journal, and the
    acceptance of a whole replay (integration/evidence/capture_private_replay.py,
    _load_call_evidence, _one_event, _validate_event and load_capture_private_replay). */
module CallScan {
  import opened Wrappers
  import opened CanonicalJson
  import opened PrivateJournal

  datatype Call = Call(index: int, stage: string, publicLabel: Option<string>, group: Option<string>, name: string)

  datatype CallEvent =
    | Started(call: Call)
    | Response(call: Call, accepted: bool, path: string, sha256: string)
    | Stage(publicLabel: Option<string>)
    | Outcome(pass: bool, details: seq<Field>)
    | Complete(pass: bool)
    | Other(kind: string)

  /** The *.json files of the raw-mcp directory, by relative path. */
  type RawFiles = map<string, string>

  function Get(fields: seq<Field>, key: string): Option<Json> {
    if fields == [] then None else if fields[0].key == key then Some(fields[0].value) else Get(fields[1..], key)
  }

  predicate EnvelopeOk(v: Json) {
    v.Obj? && Get(v.fields, "ok") == Some(Bool(true)) && Get(v.fields, "value").Some?
  }

  /** The raw file a response names is present, hashes as bound, is canonical, and is a success
      envelope if the response was accepted. */
  predicate RawOk(py: Python, raw: RawFiles, e: CallEvent)
    requires e.Response?
  {
    && e.path in raw && py.sha256(raw[e.path]) == e.sha256 && Read(py.shortest, raw[e.path]).Some?
    && (e.accepted ==> EnvelopeOk(Read(py.shortest, raw[e.path]).value))
  }

  /** The public label an event contributes, if any. */
  function LabelOf(e: CallEvent): seq<string> {
    match e
    case Response(call, true, _, _) => if call.publicLabel.Some? then [call.publicLabel.value] else []
    case Stage(l) => if l.Some? then [l.value] else []
    case _ => []
  }

  function Labels(events: seq<CallEvent>): seq<string> {
    if events == [] then [] else Labels(events[..|events| - 1]) + LabelOf(events[|events| - 1])
  }

  function StartCount(events: seq<CallEvent>): nat {
    if events == [] then 0
    else StartCount(events[..|events| - 1]) + if events[|events| - 1].Started? then 1 else 0
  }

  /** The starts carry the indices 1, 2, ... in order. */
  ghost predicate StartsNumbered(events: seq<CallEvent>) {
    forall i :: 0 <= i < |events| && events[i].Started? ==> events[i].call.index == 1 + StartCount(events[..i])
  }

  /** Each response follows a start with the same identity. */
  ghost predicate ResponsesFollowStarts(events: seq<CallEvent>) {
    forall i :: 0 <= i < |events| && events[i].Response? ==>
      exists j :: 0 <= j < i && events[j] == Started(events[i].call)
  }

  ghost predicate OneResponseEach(events: seq<CallEvent>) {
    forall i, j :: 0 <= i < j < |events| && events[i].Response? && events[j].Response? ==>
      events[i].call.index != events[j].call.index
  }

  ghost predicate AllAnswered(events: seq<CallEvent>) {
    forall j :: 0 <= j < |events| && events[j].Started? ==>
      exists i :: j < i < |events| && events[i].Response? && events[i].call == events[j].call
  }

  ghost predicate RawFilesOk(py: Python, events: seq<CallEvent>, raw: RawFiles) {
    forall i :: 0 <= i < |events| && events[i].Response? ==> RawOk(py, raw, events[i])
  }

  function Referenced(events: seq<CallEvent>): set<string> {
    set i | 0 <= i < |events| && events[i].Response? :: events[i].path
  }

  ghost predicate ProperSoFar(py: Python, events: seq<CallEvent>, raw: RawFiles) {
    && StartsNumbered(events) && ResponsesFollowStarts(events) && OneResponseEach(events)
    && RawFilesOk(py, events, raw)
  }

  /** The journals the call scanner must accept. */
  ghost predicate ProperCalls(py: Python, events: seq<CallEvent>, raw: RawFiles) {
    ProperSoFar(py, events, raw) && AllAnswered(events) && raw.Keys == Referenced(events)
  }

  lemma PrefixProper(py: Python, events: seq<CallEvent>, raw: RawFiles, k: nat)
    requires k <= |events| && ProperSoFar(py, events, raw)
    ensures ProperSoFar(py, events[..k], raw)
  {
    hide RawOk, StartCount;
    var p := events[..k];
    forall i | 0 <= i < k && p[i].Started? ensures p[i].call.index == 1 + StartCount(p[..i]) {
      assert p[..i] == events[..i] && p[i] == events[i];
    }
    forall i | 0 <= i < k && p[i].Response? ensures exists j :: 0 <= j < i && p[j] == Started(p[i].call) {
      assert p[i] == events[i];
      var j :| 0 <= j < i && events[j] == Started(events[i].call);
      assert p[j] == events[j];
    }
  }

  /** Adding one event keeps the prefix proper exactly when the scanner's tests pass. */
  ghost predicate StepOk(py: Python, before: seq<CallEvent>, e: CallEvent, raw: RawFiles) {
    match e
    case Started(call) => call.index == 1 + StartCount(before)
    case Response(call, _, _, _) =>
      && Started(call) in before && RawOk(py, raw, e)
      && forall i :: 0 <= i < |before| && before[i].Response? ==> before[i].call.index != call.index
    case _ => true
  }

  lemma ProperStep(py: Python, before: seq<CallEvent>, e: CallEvent, raw: RawFiles)
    ensures ProperSoFar(py, before + [e], raw) <==> ProperSoFar(py, before, raw) && StepOk(py, before, e, raw)
  {
    hide RawOk, StartCount;
    var events, n := before + [e], |before|;
    assert events[..n] == before && events[n] == e;
    if ProperSoFar(py, events, raw) {
      PrefixProper(py, events, raw, n);
      if e.Response? {
        var j :| 0 <= j < n && events[j] == Started(events[n].call);
        assert before[j] == events[j];
        forall i | 0 <= i < n && before[i].Response? ensures before[i].call.index != e.call.index {
          assert before[i] == events[i];
        }
      }
    }
    if ProperSoFar(py, before, raw) && StepOk(py, before, e, raw) { ProperExtends(py, before, e, raw); }
  }

  lemma ProperExtends(py: Python, before: seq<CallEvent>, e: CallEvent, raw: RawFiles)
    requires ProperSoFar(py, before, raw) && StepOk(py, before, e, raw)
    ensures ProperSoFar(py, before + [e], raw)
  {
    hide RawOk, StartCount;
    var events, n := before + [e], |before|;
    forall i | 0 <= i < |events| && events[i].Started? ensures events[i].call.index == 1 + StartCount(events[..i]) {
      assert events[..i] == before[..i];
      assert before[..n] == before;
    }
    forall i | 0 <= i < |events| && events[i].Response?
      ensures exists j :: 0 <= j < i && events[j] == Started(events[i].call)
    {
      if i < n {
        var j :| 0 <= j < i && before[j] == Started(before[i].call);
        assert events[j] == before[j];
      } else {
        var j :| 0 <= j < n && before[j] == Started(e.call);
        assert events[j] == before[j];
      }
    }
  }

  lemma {:induction false} StartCountGrows(events: seq<CallEvent>, j: nat, k: nat)
    requires j < k <= |events| && events[j].Started?
    ensures StartCount(events[..k]) > StartCount(events[..j])
    decreases k
  {
    assert events[..k][..k - 1] == events[..k - 1];
    if k - 1 > j { StartCountGrows(events, j, k - 1); }
  }

  /** A start's index identifies its position. */
  lemma StartUnique(events: seq<CallEvent>, i: nat, j: nat)
    requires StartsNumbered(events) && i < |events| && j < |events|
    requires events[i].Started? && events[j].Started? && events[i].call.index == events[j].call.index
    ensures i == j
  {
    if i < j { StartCountGrows(events, i, j); }
    if j < i { StartCountGrows(events, j, i); }
  }

  /** When every started index has a response, every start is answered later by its own call. */
  lemma AnsweredByIndex(py: Python, events: seq<CallEvent>, raw: RawFiles)
    requires ProperSoFar(py, events, raw)
    requires forall j :: 0 <= j < |events| && events[j].Started? ==>
               exists i :: 0 <= i < |events| && events[i].Response? && events[i].call.index == events[j].call.index
    ensures AllAnswered(events)
  {
    hide RawOk, StartCount;
    forall j | 0 <= j < |events| && events[j].Started?
      ensures exists i :: j < i < |events| && events[i].Response? && events[i].call == events[j].call
    {
      var i :| 0 <= i < |events| && events[i].Response? && events[i].call.index == events[j].call.index;
      var s :| 0 <= s < i && events[s] == Started(events[i].call);
      StartUnique(events, s, j);
    }
  }

  /** What the scanner knows after some events: the started calls by index, the answered indices and the
      index the next start must carry. */
  ghost predicate Tracks(events: seq<CallEvent>, starts: map<int, Call>, responded: set<int>, expected: int) {
    && expected == 1 + StartCount(events)
    && (forall j :: 0 <= j < |events| && events[j].Started? ==>
          events[j].call.index in starts && starts[events[j].call.index] == events[j].call)
    && (forall n :: n in starts ==> n < expected && starts[n].index == n && Started(starts[n]) in events)
    && (forall j :: 0 <= j < |events| && events[j].Response? ==> events[j].call.index in responded)
    && (forall n :: n in responded ==>
          n in starts && exists j :: 0 <= j < |events| && events[j].Response? && events[j].call.index == n)
  }

  /** The scanner's tests of one event are the step condition. */
  lemma TestsDecide(py: Python, before: seq<CallEvent>, e: CallEvent, raw: RawFiles,
                    starts: map<int, Call>, responded: set<int>, expected: int)
    requires Tracks(before, starts, responded, expected)
    ensures StepOk(py, before, e, raw) <==>
              match e
              case Started(call) => call.index == expected && call.index !in starts
              case Response(call, _, _, _) =>
                && call.index in starts && call.index !in responded
                && starts[call.index] == call && RawOk(py, raw, e)
              case _ => true
  {
    hide RawOk, StartCount;
    if e.Response? && Started(e.call) in before {
      var j :| 0 <= j < |before| && before[j] == Started(e.call);
      assert before[j].Started?;
    }
  }

  lemma TracksStep(before: seq<CallEvent>, e: CallEvent, starts: map<int, Call>, responded: set<int>, expected: int)
    requires Tracks(before, starts, responded, expected)
    requires e.Started? ==> e.call.index == expected
    requires e.Response? ==> e.call.index in starts
    ensures e.Started? ==> Tracks(before + [e], starts[e.call.index := e.call], responded, expected + 1)
    ensures e.Response? ==> Tracks(before + [e], starts, responded + {e.call.index}, expected)
    ensures !e.Started? && !e.Response? ==> Tracks(before + [e], starts, responded, expected)
  {
    StartCountStep(before, e);
    hide StartCount;
    if e.Started? {
      TracksKept(before, e, starts, starts[e.call.index := e.call], responded, responded, expected, expected + 1);
    }
    if e.Response? { TracksKept(before, e, starts, starts, responded, responded + {e.call.index}, expected, expected); }
    if !e.Started? && !e.Response? { TracksKept(before, e, starts, starts, responded, responded, expected, expected); }
  }

  lemma StartCountStep(before: seq<CallEvent>, e: CallEvent)
    ensures StartCount(before + [e]) == StartCount(before) + if e.Started? then 1 else 0
  {
    assert (before + [e])[..|before|] == before;
  }

  lemma TracksKept(before: seq<CallEvent>, e: CallEvent, starts: map<int, Call>, starts': map<int, Call>,
                   responded: set<int>, responded': set<int>, expected: int, expected': int)
    requires Tracks(before, starts, responded, expected) && expected' == 1 + StartCount(before + [e])
    requires starts' == if e.Started? then starts[expected := e.call] else starts
    requires responded' == if e.Response? then responded + {e.call.index} else responded
    requires e.Started? ==> e.call.index == expected && expected' == expected + 1
    requires !e.Started? ==> expected' == expected
    requires e.Response? ==> e.call.index in starts
    ensures Tracks(before + [e], starts', responded', expected')
  {
    hide StartCount;
    var events, k := before + [e], |before|;
    assert events[k] == e && forall j :: 0 <= j < k ==> events[j] == before[j];
    forall j | 0 <= j < |events| && events[j].Started?
      ensures events[j].call.index in starts' && starts'[events[j].call.index] == events[j].call
    {
      if j < k { assert before[j].Started?; }
    }
    forall n | n in starts' ensures n < expected' && starts'[n].index == n && Started(starts'[n]) in events {
      if n in starts && n != expected { assert Started(starts[n]) in before; }
    }
    forall j | 0 <= j < |events| && events[j].Response? ensures events[j].call.index in responded' {
      if j < k { assert before[j].Response?; }
    }
    forall n | n in responded'
      ensures n in starts' && exists j :: 0 <= j < |events| && events[j].Response? && events[j].call.index == n
    {
      if n in responded {
        var j :| 0 <= j < k && before[j].Response? && before[j].call.index == n;
        assert events[j].Response?;
      } else {
        assert events[k].Response?;
      }
    }
  }

  /** Every call is answered exactly when the answered indices are the started ones. */
  lemma AnsweredIff(py: Python, events: seq<CallEvent>, raw: RawFiles, starts: map<int, Call>, responded: set<int>,
                    expected: int)
    requires ProperSoFar(py, events, raw) && Tracks(events, starts, responded, expected)
    ensures responded == starts.Keys <==> AllAnswered(events)
  {
    hide RawOk, StartCount;
    if responded == starts.Keys { AnsweredByIndex(py, events, raw); }
    if AllAnswered(events) {
      forall n ensures n in responded <==> n in starts.Keys {
        if n in starts {
          var j :| 0 <= j < |events| && events[j] == Started(starts[n]);
          assert events[j].Started?;
        }
      }
    }
  }

  /** Scans the events once, keeping the started calls, the answered indices, the public labels
      and the referenced raw files. It succeeds exactly on the proper journals and returns the
      labels of accepted responses and stages in journal order. */
  method ScanCalls(py: Python, events: seq<CallEvent>, raw: RawFiles) returns (r: Option<seq<string>>)
    ensures r.Some? <==> ProperCalls(py, events, raw)
    ensures r.Some? ==> r.value == Labels(events)
  {
    hide RawOk, StartCount, ProperSoFar, Labels, Referenced, StepOk, Tracks;
    var starts: map<int, Call>, responded: set<int> := map[], {};
    var publicCalls: seq<string>, referenced: set<string>, expected := [], {}, 1;
    EmptyProper(py, raw);
    var i := 0;
    while i < |events|
      invariant 0 <= i <= |events|
      invariant ProperSoFar(py, events[..i], raw)
      invariant Tracks(events[..i], starts, responded, expected)
      invariant publicCalls == Labels(events[..i]) && referenced == Referenced(events[..i])
    {
      var e := events[i];
      ghost var before := events[..i];
      assert events[..i + 1] == before + [e];
      ProperStep(py, before, e, raw);
      if ProperSoFar(py, events, raw) { PrefixProper(py, events, raw, i + 1); }
      LabelsStep(before, e);
      TestsDecide(py, before, e, raw, starts, responded, expected);
      if StepOk(py, before, e, raw) { TracksStep(before, e, starts, responded, expected); }
      match e {
      case Started(call) =>
        if call.index != expected || call.index in starts { return None; }
        starts, expected := starts[call.index := call], expected + 1;
      case Response(call, accepted, path, sha256) =>
        if call.index !in starts || call.index in responded { return None; }
        if starts[call.index] != call || !RawOk(py, raw, e) { return None; }
        if accepted && call.publicLabel.Some? { publicCalls := publicCalls + [call.publicLabel.value]; }
        referenced, responded := referenced + {path}, responded + {call.index};
      case Stage(l) =>
        if l.Some? { publicCalls := publicCalls + [l.value]; }
      case _ =>
      }
      i := i + 1;
    }
    assert events[..i] == events;
    AnsweredIff(py, events, raw, starts, responded, expected);
    if responded != starts.Keys { return None; }
    if raw.Keys != referenced { return None; }
    return Some(publicCalls);
  }

  lemma EmptyProper(py: Python, raw: RawFiles)
    ensures ProperSoFar(py, [], raw) && Tracks([], map[], {}, 1) && Labels([]) == [] && Referenced([]) == {}
  {
  }

  lemma LabelsStep(before: seq<CallEvent>, e: CallEvent)
    ensures Labels(before + [e]) == Labels(before) + LabelOf(e)
    ensures Referenced(before + [e]) == Referenced(before) + if e.Response? then {e.path} else {}
  {
    var events := before + [e];
    assert events[..|before|] == before;
    forall p ensures p in Referenced(events) <==> p in Referenced(before) + if e.Response? then {e.path} else {} {
      if p in Referenced(before) {
        var i :| 0 <= i < |before| && before[i].Response? && before[i].path == p;
        assert events[i] == before[i];
      }
      if e.Response? && p == e.path { assert events[|before|].path == p; }
    }
  }

  lemma {:induction false} StartWithIndex(events: seq<CallEvent>, n: nat) returns (j: nat)
    requires StartsNumbered(events) && 1 <= n <= StartCount(events)
    ensures j < |events| && events[j].Started? && events[j].call.index == n
  {
    var k := |events| - 1;
    if events[k].Started? && n == StartCount(events) {
      j := k;
    } else {
      assert forall i :: 0 <= i < k ==> events[..k][..i] == events[..i];
      j := StartWithIndex(events[..k], n);
    }
  }

  lemma {:induction false} StartIndexBound(events: seq<CallEvent>, j: nat)
    requires StartsNumbered(events) && j < |events| && events[j].Started?
    ensures 1 <= events[j].call.index <= StartCount(events)
  {
    StartCountGrows(events, j, |events|);
    assert events[..|events|] == events;
  }

  /** In an accepted journal the responses carry exactly the indices 1..n of the n starts; with
      one response each, calls and responses correspond one to one. */
  lemma ResponsesMatchStarts(py: Python, events: seq<CallEvent>, raw: RawFiles, n: int)
    requires ProperCalls(py, events, raw)
    ensures 1 <= n <= StartCount(events) <==>
              exists i :: 0 <= i < |events| && events[i].Response? && events[i].call.index == n
  {
    hide RawOk, StartCount;
    if 1 <= n <= StartCount(events) {
      var j := StartWithIndex(events, n);
      var i :| j < i < |events| && events[i].Response? && events[i].call == events[j].call;
    }
    if i :| 0 <= i < |events| && events[i].Response? && events[i].call.index == n {
      var j :| 0 <= j < i && events[j] == Started(events[i].call);
      StartIndexBound(events, j);
    }
  }

  // ----- the whole replay -----

  /** The positions of one event kind. */
  function Matches(kinds: seq<string>, kind: string): seq<nat> {
    if kinds == [] then []
    else Matches(kinds[..|kinds| - 1], kind) + if kinds[|kinds| - 1] == kind then [|kinds| - 1] else []
  }

  function OneEvent(kinds: seq<string>, kind: string): Option<nat> {
    var m := Matches(kinds, kind);
    if |m| == 1 then Some(m[0]) else None
  }

  predicate CompletionOrderOk(kinds: seq<string>) {
    var cleanup, postflight := OneEvent(kinds, "cleanup"), OneEvent(kinds, "postflight");
    var outcome, complete := OneEvent(kinds, "outcome"), OneEvent(kinds, "complete");
    && cleanup.Some? && postflight.Some? && outcome.Some? && complete.Some?
    && cleanup.value <= postflight.value <= outcome.value <= complete.value
    && complete.value == |kinds| - 1
  }

  ghost predicate OnlyIndex(kinds: seq<string>, kind: string, i: int) {
    0 <= i < |kinds| && forall j :: 0 <= j < |kinds| ==> (kinds[j] == kind <==> j == i)
  }

  lemma {:induction false} MatchesAre(kinds: seq<string>, kind: string)
    ensures forall i :: i in Matches(kinds, kind) <==> 0 <= i < |kinds| && kinds[i] == kind
    ensures forall a, b :: 0 <= a < b < |Matches(kinds, kind)| ==> Matches(kinds, kind)[a] < Matches(kinds, kind)[b]
  {
    if kinds != [] {
      var k := |kinds| - 1;
      MatchesAre(kinds[..k], kind);
      var m := Matches(kinds[..k], kind);
      forall a | 0 <= a < |m| ensures m[a] < k { assert m[a] in m; }
    }
  }

  lemma OneEventIff(kinds: seq<string>, kind: string, i: nat)
    ensures OneEvent(kinds, kind) == Some(i) <==> OnlyIndex(kinds, kind, i)
  {
    MatchesAre(kinds, kind);
    var m := Matches(kinds, kind);
    assert |m| >= 2 ==> m[0] in m && m[1] in m && m[0] < m[1];
    if OnlyIndex(kinds, kind, i) {
      assert i in m;
    }
    if OneEvent(kinds, kind) == Some(i) {
      assert m == [i];
      forall j | 0 <= j < |kinds| ensures kinds[j] == kind <==> j == i {
        assert j in m <==> j == i;
      }
      assert i in m;
    }
  }

  /** A replay completes properly exactly when it has one cleanup, one postflight, one outcome
      and one complete event, in that order, the last one ending the journal. */
  lemma CompletionOrderIff(kinds: seq<string>)
    ensures CompletionOrderOk(kinds) <==>
              exists c, p, o :: c < p < o < |kinds| - 1 && OnlyIndex(kinds, "cleanup", c)
                && OnlyIndex(kinds, "postflight", p) && OnlyIndex(kinds, "outcome", o)
                && OnlyIndex(kinds, "complete", |kinds| - 1)
  {
    hide Matches, OneEvent;
    forall kind, i: nat ensures OneEvent(kinds, kind) == Some(i) <==> OnlyIndex(kinds, kind, i) {
      OneEventIff(kinds, kind, i);
    }
    if CompletionOrderOk(kinds) {
      var c, p := OneEvent(kinds, "cleanup").value, OneEvent(kinds, "postflight").value;
      var o := OneEvent(kinds, "outcome").value;
      assert OnlyIndex(kinds, "cleanup", c) && OnlyIndex(kinds, "postflight", p) && OnlyIndex(kinds, "outcome", o);
      assert OnlyIndex(kinds, "complete", |kinds| - 1);
      assert kinds[c] != kinds[p] && kinds[p] != kinds[o] && kinds[o] != kinds[|kinds| - 1];
    }
    if c, p, o :| c < p < o < |kinds| - 1 && OnlyIndex(kinds, "cleanup", c) && OnlyIndex(kinds, "postflight", p)
                  && OnlyIndex(kinds, "outcome", o) && OnlyIndex(kinds, "complete", |kinds| - 1) {
      assert OneEvent(kinds, "cleanup") == Some(c) && OneEvent(kinds, "postflight") == Some(p);
      assert OneEvent(kinds, "outcome") == Some(o) && OneEvent(kinds, "complete") == Some(|kinds| - 1);
    }
  }

  /** The event kind a call event was made from. */
  function KindOf(e: CallEvent): string {
    match e
    case Started(_) => "call_started"
    case Response(_, _, _, _) => "call_response"
    case Stage(_) => "stage"
    case Outcome(_, _) => "outcome"
    case Complete(_) => "complete"
    case Other(kind) => kind
  }

  function Kinds(events: seq<CallEvent>): seq<string> {
    seq(|events|, i requires 0 <= i < |events| => KindOf(events[i]))
  }

  /** The parts of validation that are given: identifiers in the sense of str.isidentifier, and the
      payloads of private markers, cleanups and postflights. */
  datatype Checks = Checks(identifier: string -> bool, other: Validator)

  function Keys(fields: seq<Field>): seq<string> {
    if fields == [] then [] else [fields[0].key] + Keys(fields[1..])
  }

  /** A failure names four sanitized identifiers. */
  predicate FailureOk(checks: Checks, failure: seq<Field>) {
    && |failure| == 4 && Keys(failure) == ["boundary", "last_completed_phase", "public_type", "raw_error_type"]
    && forall i :: 0 <= i < 4 ==>
         failure[i].value.Str? && checks.identifier(failure[i].value.s) && |failure[i].value.s| <= 128
  }

  function Texts(labels: seq<string>): Json { Arr(seq(|labels|, i requires 0 <= i < |labels| => Str(labels[i]))) }

  /** The observations of a success are those of this attempt and of the calls in the journal. */
  predicate ObservationsOk(labels: seq<string>, observations: seq<Field>) {
    && Get(observations, "schema") == Some(Str("onec-agent-capture-live-observations-v1"))
    && Get(observations, "attempt").Some? && PyEqual(Get(observations, "attempt").value, 2)
    && Get(observations, "result") == Some(Str("PASS"))
    && Get(observations, "call_sequence") == Some(Texts(labels))
  }

  predicate OutcomeOk(checks: Checks, labels: seq<string>, e: CallEvent)
    requires e.Outcome?
  {
    if e.pass then ObservationsOk(labels, e.details) else FailureOk(checks, e.details)
  }

  /** What an outcome must hold, by the keys of its failure or its observations. */
  lemma OutcomeOkIff(checks: Checks, labels: seq<string>, e: CallEvent, n: nat)
    requires e.Outcome?
    ensures e.pass && OutcomeOk(checks, labels, e) ==>
              && Get(e.details, "schema") == Some(Str("onec-agent-capture-live-observations-v1"))
              && Get(e.details, "attempt").Some? && PyEqual(Get(e.details, "attempt").value, 2)
              && Get(e.details, "result") == Some(Str("PASS"))
              && Get(e.details, "call_sequence").Some? && Get(e.details, "call_sequence").value.Arr?
              && |Get(e.details, "call_sequence").value.items| == |labels|
              && (n < |labels| ==> Get(e.details, "call_sequence").value.items[n] == Str(labels[n]))
    ensures !e.pass && OutcomeOk(checks, labels, e) ==>
              && |e.details| == 4
              && forall i :: 0 <= i < 4 ==>
                   && e.details[i].key in {"boundary", "last_completed_phase", "public_type", "raw_error_type"}
                   && e.details[i].value.Str? && checks.identifier(e.details[i].value.s)
                   && |e.details[i].value.s| <= 128
  {
    if !e.pass && OutcomeOk(checks, labels, e) {
      KeysAre(e.details);
      forall i | 0 <= i < 4
        ensures e.details[i].key in {"boundary", "last_completed_phase", "public_type", "raw_error_type"}
      {
        assert Keys(e.details)[i] == e.details[i].key;
      }
    }
  }

  /** Outcome and complete event tell the same result, and the outcome bears it out. */
  ghost predicate VerdictOk(checks: Checks, events: seq<CallEvent>) {
    forall i, j :: 0 <= i < |events| && 0 <= j < |events|
                   && KindOf(events[i]) == "outcome" && KindOf(events[j]) == "complete" ==>
      && events[i].Outcome? && events[j].Complete? && events[i].pass == events[j].pass
      && OutcomeOk(checks, Labels(events), events[i])
  }

  /** The checks of load_capture_private_replay on decoded events: completion order, matched calls, a call
      sequence that is a prefix of the fixture's contract, and a consistent result. */
  ghost predicate ReplayOk(py: Python, checks: Checks, events: seq<CallEvent>, raw: RawFiles, contract: seq<string>) {
    && CompletionOrderOk(Kinds(events)) && ProperCalls(py, events, raw)
    && Labels(events) <= contract && VerdictOk(checks, events)
  }

  method CheckReplay(py: Python, checks: Checks, events: seq<CallEvent>, raw: RawFiles, contract: seq<string>)
      returns (r: Option<seq<string>>)
    ensures r.Some? <==> ReplayOk(py, checks, events, raw, contract)
    ensures r.Some? ==> r.value == Labels(events)
  {
    hide ProperCalls, Labels, OutcomeOk, VerdictOk, KindOf, OneEvent;
    if !CompletionOrderOk(Kinds(events)) { return None; }
    var calls := ScanCalls(py, events, raw);
    if calls.None? { return None; }
    var cut := if |calls.value| <= |contract| then contract[..|calls.value|] else contract;
    if calls.value != cut { return None; }
    var o := OneEvent(Kinds(events), "outcome").value;
    VerdictAt(checks, events, o);
    var outcome, complete := events[o], events[|events| - 1];
    if !outcome.Outcome? || !complete.Complete? || complete.pass != outcome.pass { return None; }
    if !OutcomeOk(checks, calls.value, outcome) { return None; }
    return calls;
  }

  /** In a journal that completes in order there is one outcome and one complete event to compare. */
  lemma VerdictAt(checks: Checks, events: seq<CallEvent>, o: nat)
    requires CompletionOrderOk(Kinds(events)) && OneEvent(Kinds(events), "outcome") == Some(o)
    ensures o < |events|
    ensures var outcome, complete := events[o], events[|events| - 1];
            VerdictOk(checks, events) <==>
              && outcome.Outcome? && complete.Complete? && outcome.pass == complete.pass
              && OutcomeOk(checks, Labels(events), outcome)
  {
    hide *;
    CompleteLast(events);
    OnlyEvent(events, "outcome", o);
    OnlyEvent(events, "complete", |events| - 1);
    VerdictBetween(checks, events, o, |events| - 1);
  }

  lemma CompleteLast(events: seq<CallEvent>)
    requires CompletionOrderOk(Kinds(events))
    ensures events != [] && OneEvent(Kinds(events), "complete") == Some(|events| - 1)
  {
    hide OneEvent, KindOf;
    assert |Kinds(events)| == |events|;
  }

  lemma OnlyEvent(events: seq<CallEvent>, kind: string, k: nat)
    requires OneEvent(Kinds(events), kind) == Some(k)
    ensures k < |events| && forall i :: 0 <= i < |events| ==> (KindOf(events[i]) == kind <==> i == k)
  {
    hide OneEvent, KindOf;
    OneEventIff(Kinds(events), kind, k);
    assert forall i :: 0 <= i < |events| ==> Kinds(events)[i] == KindOf(events[i]);
  }

  lemma VerdictBetween(checks: Checks, events: seq<CallEvent>, o: nat, c: nat)
    requires o < |events| && forall i :: 0 <= i < |events| ==> (KindOf(events[i]) == "outcome" <==> i == o)
    requires c < |events| && forall i :: 0 <= i < |events| ==> (KindOf(events[i]) == "complete" <==> i == c)
    ensures VerdictOk(checks, events) <==>
              && events[o].Outcome? && events[c].Complete? && events[o].pass == events[c].pass
              && OutcomeOk(checks, Labels(events), events[o])
  {
    hide OutcomeOk, Labels, KindOf;
    assert KindOf(events[o]) == "outcome" && KindOf(events[c]) == "complete";
    forall i, j | 0 <= i < |events| && 0 <= j < |events|
                  && KindOf(events[i]) == "outcome" && KindOf(events[j]) == "complete"
      ensures i == o && j == c {}
  }

  // ----- from journal bytes to events -----

  predicate MethodName(s: string) {
    && 1 <= |s| <= 128 && 'a' <= s[0] <= 'z'
    && forall i :: 0 <= i < |s| ==> 'a' <= s[i] <= 'z' || '0' <= s[i] <= '9' || s[i] in {'_', '.'}
  }

  /** A method name is a small letter and then at most 127 small letters, digits, underscores and dots. */
  lemma MethodNameIff(first: char, rest: string)
    ensures MethodName([first] + rest) <==>
              && 'a' <= first <= 'z' && |rest| <= 127
              && forall i :: 0 <= i < |rest| ==>
                   'a' <= rest[i] <= 'z' || '0' <= rest[i] <= '9' || rest[i] == '_' || rest[i] == '.'
    ensures !MethodName("")
  {
    var s := [first] + rest;
    assert s[0] == first && forall i :: 0 <= i < |rest| ==> s[i + 1] == rest[i];
    if 'a' <= first <= 'z' && forall i :: 0 <= i < |rest| ==>
         'a' <= rest[i] <= 'z' || '0' <= rest[i] <= '9' || rest[i] == '_' || rest[i] == '.'
    {
      forall i | 1 <= i < |s| ensures 'a' <= s[i] <= 'z' || '0' <= s[i] <= '9' || s[i] in {'_', '.'} {
        assert s[i] == rest[i - 1];
      }
    }
  }

  /** A text or null. */
  predicate Optional(v: Json) { v.Null? || v.Str? }

  function TextOf(v: Json): Option<string> { if v.Str? then Some(v.s) else None }

  /** _validate_call_identity. */
  function CallOf(index: Json, name: Json, stage: Json, publicLabel: Json, group: Json): Option<Call> {
    if index.Num? && index.n > 0 && name.Str? && MethodName(name.s) && stage.Str? && stage.s != ""
       && Optional(publicLabel) && Optional(group)
    then Some(Call(index.n, stage.s, TextOf(publicLabel), TextOf(group), name.s))
    else None
  }

  function Dashed(s: string): string {
    seq(|s|, i requires 0 <= i < |s| => if s[i] == '.' then '-' else s[i])
  }

  function Padded(s: string): string
    decreases 4 - |s|
  {
    if |s| < 4 then Padded("0" + s) else s
  }

  function RawPath(call: Call): string
    requires call.index > 0
  {
    "raw-mcp/" + Padded(NatText(call.index)) + "-" + Dashed(call.name) + ".json"
  }

  predicate AllDigits(s: string) { forall i :: 0 <= i < |s| ==> Digit(s[i]) }

  lemma {:induction false} LeadingZero(s: string)
    ensures NatValue("0" + s) == NatValue(s)
  {
    var t := "0" + s;
    if s == "" {
      assert t[..0] == "";
    } else {
      assert t[..|t| - 1] == "0" + s[..|s| - 1];
      LeadingZero(s[..|s| - 1]);
    }
  }

  lemma {:induction false} PaddedIs(s: string)
    requires AllDigits(s)
    ensures AllDigits(Padded(s)) && NatValue(Padded(s)) == NatValue(s)
    ensures |Padded(s)| == if |s| < 4 then 4 else |s|
    decreases 4 - |s|
  {
    if |s| < 4 {
      LeadingZero(s);
      PaddedIs("0" + s);
    }
  }

  /** The raw file of a call: its number in at least four digits and its method with dashes for dots. */
  lemma RawPathIs(call: Call) returns (digits: string, dashed: string)
    requires call.index > 0
    ensures RawPath(call) == "raw-mcp/" + digits + "-" + dashed + ".json"
    ensures AllDigits(digits) && NatValue(digits) == call.index
    ensures |digits| == 4 || (|digits| > 4 && digits == NatText(call.index))
    ensures |dashed| == |call.name|
    ensures forall i :: 0 <= i < |dashed| ==> dashed[i] == if call.name[i] == '.' then '-' else call.name[i]
  {
    NatRoundTrip(call.index);
    PaddedIs(NatText(call.index));
    digits, dashed := Padded(NatText(call.index)), Dashed(call.name);
  }

  /** Calls with different numbers have different raw files. */
  lemma RawPathsApart(a: Call, b: Call)
    requires a.index > 0 && b.index > 0 && RawPath(a) == RawPath(b)
    ensures a.index == b.index
  {
    hide RawPath, NatValue;
    var p, m := RawPathIs(a);
    var q, n := RawPathIs(b);
    AfterFolder("raw-mcp/", p, m);
    AfterFolder("raw-mcp/", q, n);
    DigitsApart(p, "-" + m + ".json", q, "-" + n + ".json");
  }

  lemma AfterFolder(folder: string, p: string, m: string)
    ensures (folder + p + "-" + m + ".json")[|folder|..] == p + ("-" + m + ".json")
  {
  }

  lemma HeadOf(p: string, r: string)
    requires r != ""
    ensures (p + r)[0] == if p != "" then p[0] else r[0]
  {
  }

  lemma {:induction false} DigitsApart(p: string, r: string, q: string, s: string)
    requires AllDigits(p) && AllDigits(q) && p + r == q + s
    requires r != "" && r[0] == '-' && s != "" && s[0] == '-'
    ensures p == q
  {
    HeadOf(p, r);
    HeadOf(q, s);
    if p != "" && q != "" {
      assert (p + r)[1..] == p[1..] + r && (q + s)[1..] == q[1..] + s;
      DigitsApart(p[1..], r, q[1..], s);
      assert p == [p[0]] + p[1..] && q == [q[0]] + q[1..];
    }
  }

  /** The raw binding of a response; its index is compared by Python's `==`. */
  predicate RawBinds(call: Call, raw: Json)
    requires call.index > 0
  {
    && raw.Obj? && |raw.fields| == 4 && Keys(raw.fields) == ["index", "method", "path", "sha256"]
    && PyEqual(raw.fields[0].value, call.index) && raw.fields[1].value == Str(call.name)
    && raw.fields[2].value == Str(RawPath(call))
    && raw.fields[3].value.Str? && IsHash(raw.fields[3].value.s)
  }

  function StartedOf(p: seq<Field>): Option<CallEvent> {
    if |p| != 6 || Keys(p) != ["arguments", "index", "method", "operation_group", "public_label", "stage"] then None
    else
      match CallOf(p[1].value, p[2].value, p[5].value, p[4].value, p[3].value)
      case None => None
      case Some(call) => if p[0].value.Obj? then Some(Started(call)) else None
  }

  function ResponseOf(p: seq<Field>): Option<CallEvent> {
    if |p| != 7
       || Keys(p) != ["accepted", "index", "method", "operation_group", "public_label", "raw", "stage"] then None
    else
      match CallOf(p[1].value, p[2].value, p[6].value, p[4].value, p[3].value)
      case None => None
      case Some(call) =>
        if p[0].value.Bool? && RawBinds(call, p[5].value)
        then Some(Response(call, p[0].value.b, RawPath(call), p[5].value.fields[3].value.s))
        else None
  }

  function StageOf(checks: Checks, p: seq<Field>): Option<CallEvent> {
    if |p| == 0 || |p| > 2 || Keys(p) != (if |p| == 1 then ["name"] else ["name", "public_label"]) then None
    else if !p[0].value.Str? || !checks.identifier(p[0].value.s) then None
    else if |p| == 1 || p[1].value.Null? then Some(Stage(None))
    else if p[1].value.Str? && p[1].value.s != "" then Some(Stage(Some(p[1].value.s)))
    else None
  }

  function OutcomeOf(p: seq<Field>): Option<CallEvent> {
    if |p| != 2 || !p[0].value.Obj? then None
    else if Keys(p) == ["failure", "result"] && p[1].value == Str("FAIL") then Some(Outcome(false, p[0].value.fields))
    else if Keys(p) == ["observations", "result"] && p[1].value == Str("PASS")
    then Some(Outcome(true, p[0].value.fields))
    else None
  }

  function CompleteOf(p: seq<Field>): Option<CallEvent> {
    if |p| != 1 || Keys(p) != ["result"] then None
    else if p[0].value == Str("PASS") then Some(Complete(true))
    else if p[0].value == Str("FAIL") then Some(Complete(false))
    else None
  }

  /** _validate_event: the event a journal entry stands for, None where validation raises. The keys of a
      loaded object are sorted, so an exact key set is an exact key list. */
  function EventOf(checks: Checks, e: Entry): (r: Option<CallEvent>)
    ensures r.Some? ==> KindOf(r.value) == e.kind && e.kind != "fixture"
  {
    if e.kind == "call_started" then StartedOf(e.payload)
    else if e.kind == "call_response" then ResponseOf(e.payload)
    else if e.kind == "stage" then StageOf(checks, e.payload)
    else if e.kind == "outcome" then OutcomeOf(e.payload)
    else if e.kind == "complete" then CompleteOf(e.payload)
    else if EventKind(e.kind) && checks.other(e.kind, e.payload) then Some(Other(e.kind))
    else None
  }

  // ----- decoded events by the keys of their payloads -----

  lemma {:induction false} GetAt(p: seq<Field>, i: nat)
    requires i < |p| && forall j :: 0 <= j < i ==> p[j].key != p[i].key
    ensures Get(p, p[i].key) == Some(p[i].value)
  {
    if i > 0 { GetAt(p[1..], i - 1); }
  }

  lemma {:induction false} KeysAre(p: seq<Field>)
    ensures |Keys(p)| == |p| && forall i :: 0 <= i < |p| ==> Keys(p)[i] == p[i].key
  {
    if p != [] { KeysAre(p[1..]); }
  }

  ghost predicate Distinct(keys: seq<string>) { forall i, j :: 0 <= i < j < |keys| ==> keys[i] != keys[j] }

  /** With distinct keys every field is found by its key. */
  lemma GetAll(p: seq<Field>, keys: seq<string>)
    requires Keys(p) == keys && Distinct(keys)
    ensures |p| == |keys| && forall i :: 0 <= i < |keys| ==> Get(p, keys[i]) == Some(p[i].value)
  {
    hide Get;
    KeysAre(p);
    forall i | 0 <= i < |keys| ensures Get(p, keys[i]) == Some(p[i].value) { GetAt(p, i); }
  }

  function StartedKeys(): seq<string> {
    ["arguments", "index", "method", "operation_group", "public_label", "stage"]
  }

  function ResponseKeys(): seq<string> {
    ["accepted", "index", "method", "operation_group", "public_label", "raw", "stage"]
  }

  function BindingKeys(): seq<string> { ["index", "method", "path", "sha256"] }

  lemma KeysDistinct()
    ensures Distinct(StartedKeys()) && Distinct(BindingKeys())
  {
  }

  lemma ResponseKeysDistinct()
    ensures Distinct(ResponseKeys())
  {
  }

  function Nullable(t: Option<string>): Json {
    match t case None => Null case Some(s) => Str(s)
  }

  /** The payload states the identity of the call. */
  predicate StatesCall(p: seq<Field>, call: Call) {
    && Get(p, "index") == Some(Num(call.index)) && call.index > 0
    && Get(p, "method") == Some(Str(call.name)) && MethodName(call.name)
    && Get(p, "stage") == Some(Str(call.stage)) && call.stage != ""
    && Get(p, "public_label") == Some(Nullable(call.publicLabel))
    && Get(p, "operation_group") == Some(Nullable(call.group))
  }

  /** A started event is decoded from exactly the payloads that state its call and hold arguments. */
  lemma StartedIff(p: seq<Field>, e: CallEvent)
    ensures StartedOf(p) == Some(e) <==>
              && Keys(p) == StartedKeys() && e.Started? && StatesCall(p, e.call)
              && Get(p, "arguments").Some? && Get(p, "arguments").value.Obj?
  {
    hide Get, Keys, MethodName;
    if Keys(p) == StartedKeys() {
      KeysDistinct();
      GetAll(p, StartedKeys());
      assert Get(p, StartedKeys()[0]) == Some(p[0].value) && Get(p, StartedKeys()[1]) == Some(p[1].value);
      assert Get(p, StartedKeys()[2]) == Some(p[2].value) && Get(p, StartedKeys()[3]) == Some(p[3].value);
      assert Get(p, StartedKeys()[4]) == Some(p[4].value) && Get(p, StartedKeys()[5]) == Some(p[5].value);
    }
  }

  /** The raw file a response names, by the keys of the binding. */
  predicate StatesBinding(raw: Json, call: Call, path: string, sha256: string) {
    && raw.Obj? && Keys(raw.fields) == BindingKeys()
    && Get(raw.fields, "index").Some? && PyEqual(Get(raw.fields, "index").value, call.index)
    && Get(raw.fields, "method") == Some(Str(call.name))
    && Get(raw.fields, "path") == Some(Str(path)) && call.index > 0 && path == RawPath(call)
    && Get(raw.fields, "sha256") == Some(Str(sha256)) && IsHash(sha256)
  }

  lemma BindingIff(raw: Json, call: Call, path: string, sha256: string)
    requires call.index > 0
    ensures StatesBinding(raw, call, path, sha256) <==>
              RawBinds(call, raw) && path == RawPath(call) && raw.fields[3].value == Str(sha256)
  {
    hide Get, Keys, RawPath, IsHash, PyEqual;
    if raw.Obj? && Keys(raw.fields) == BindingKeys() {
      var p := raw.fields;
      KeysDistinct();
      GetAll(p, BindingKeys());
      assert Get(p, BindingKeys()[0]) == Some(p[0].value) && Get(p, BindingKeys()[1]) == Some(p[1].value);
      assert Get(p, BindingKeys()[2]) == Some(p[2].value) && Get(p, BindingKeys()[3]) == Some(p[3].value);
    }
  }

  /** A response is decoded from exactly the payloads that state its call, its acceptance and its raw file. */
  lemma ResponseIff(p: seq<Field>, e: CallEvent)
    ensures ResponseOf(p) == Some(e) <==>
              && Keys(p) == ResponseKeys() && e.Response? && StatesCall(p, e.call)
              && Get(p, "accepted") == Some(Bool(e.accepted))
              && Get(p, "raw").Some? && StatesBinding(Get(p, "raw").value, e.call, e.path, e.sha256)
  {
    hide Get, Keys, MethodName, IsHash, PyEqual, RawPath;
    if Keys(p) == ResponseKeys() {
      ResponseKeysDistinct();
      GetAll(p, ResponseKeys());
      assert Get(p, ResponseKeys()[0]) == Some(p[0].value) && Get(p, ResponseKeys()[1]) == Some(p[1].value);
      assert Get(p, ResponseKeys()[2]) == Some(p[2].value) && Get(p, ResponseKeys()[3]) == Some(p[3].value);
      assert Get(p, ResponseKeys()[4]) == Some(p[4].value) && Get(p, ResponseKeys()[5]) == Some(p[5].value);
      assert Get(p, ResponseKeys()[6]) == Some(p[6].value);
      if e.Response? && e.call.index > 0 { BindingIff(p[5].value, e.call, e.path, e.sha256); }
    }
  }

  /** A stage is decoded from exactly the payloads with an identifier as name and no label or one that is
      not empty. */
  lemma StageIff(checks: Checks, p: seq<Field>, e: CallEvent)
    ensures StageOf(checks, p) == Some(e) <==>
              && e.Stage? && e.publicLabel != Some("")
              && Get(p, "name").Some? && Get(p, "name").value.Str? && checks.identifier(Get(p, "name").value.s)
              && if Keys(p) == ["name"] then e.publicLabel == None
                 else Keys(p) == ["name", "public_label"] && Get(p, "public_label") == Some(Nullable(e.publicLabel))
  {
    hide Get, Keys;
    KeysAre(p);
    if Keys(p) == ["name"] {
      GetAll(p, ["name"]);
      assert Get(p, ["name"][0]) == Some(p[0].value);
    }
    if Keys(p) == ["name", "public_label"] {
      var keys := ["name", "public_label"];
      GetAll(p, keys);
      assert Get(p, keys[0]) == Some(p[0].value) && Get(p, keys[1]) == Some(p[1].value);
    }
  }

  /** Outcome and complete events are decoded from exactly the payloads that state their result. */
  lemma VerdictIff(p: seq<Field>, e: CallEvent)
    ensures OutcomeOf(p) == Some(e) <==>
              && e.Outcome? && Get(p, "result") == Some(Str(if e.pass then "PASS" else "FAIL"))
              && Keys(p) == [if e.pass then "observations" else "failure", "result"]
              && Get(p, if e.pass then "observations" else "failure") == Some(Obj(e.details))
    ensures CompleteOf(p) == Some(e) <==>
              && e.Complete? && Keys(p) == ["result"]
              && Get(p, "result") == Some(Str(if e.pass then "PASS" else "FAIL"))
  {
    hide Get, Keys;
    KeysAre(p);
    if Keys(p) == ["result"] {
      GetAll(p, ["result"]);
      assert Get(p, ["result"][0]) == Some(p[0].value);
    }
    OutcomeKeys(p, "failure");
    OutcomeKeys(p, "observations");
  }

  lemma OutcomeKeys(p: seq<Field>, first: string)
    requires first != "result"
    ensures Keys(p) == [first, "result"] ==>
              |p| == 2 && Get(p, first) == Some(p[0].value) && Get(p, "result") == Some(p[1].value)
  {
    hide Get, Keys;
    var keys := [first, "result"];
    if Keys(p) == keys {
      GetAll(p, keys);
      assert Get(p, keys[0]) == Some(p[0].value) && Get(p, keys[1]) == Some(p[1].value);
    }
  }

  /** The label an entry contributes, by the keys of its payload. */
  function EntryLabel(e: Entry): seq<string> {
    if e.kind == "stage" || (e.kind == "call_response" && Get(e.payload, "accepted") == Some(Bool(true))) then
      match Get(e.payload, "public_label")
      case Some(Str(text)) => [text]
      case _ => []
    else []
  }

  function EntryLabels(es: seq<Entry>): seq<string> {
    if es == [] then [] else EntryLabels(es[..|es| - 1]) + EntryLabel(es[|es| - 1])
  }

  lemma LabelByKey(checks: Checks, e: Entry, event: CallEvent)
    requires EventOf(checks, e) == Some(event)
    ensures LabelOf(event) == EntryLabel(e)
  {
    hide StartedOf, ResponseOf, StageOf, OutcomeOf, CompleteOf, Keys, Get, RawPath, MethodName, StatesBinding;
    if e.kind == "stage" {
      StageIff(checks, e.payload, event);
      if Keys(e.payload) == ["name"] { StageLabelAbsent(e.payload); }
    } else if e.kind == "call_response" {
      ResponseIff(e.payload, event);
    }
  }

  lemma StageLabelAbsent(p: seq<Field>)
    requires Keys(p) == ["name"]
    ensures Get(p, "public_label") == None
  {
    KeysAre(p);
    assert Keys(p)[0] == "name" && p[1..] == [];
  }

  /** The labels of the decoded events are, entry by entry, the public labels of stages and of accepted
      responses. */
  lemma {:induction false} LabelsByKey(checks: Checks, es: seq<Entry>, events: seq<CallEvent>)
    requires EventsAre(checks, es, events) && es[0].kind == "fixture"
    ensures Labels(events) == EntryLabels(es)
  {
    hide EventOf, LabelOf, EntryLabel;
    var n := |es| - 1;
    if n > 0 {
      LabelsByKey(checks, es[..n], events[..n]);
      LabelByKey(checks, es[n], events[n]);
    } else {
      FixtureLabel(es[0]);
      assert events == [Other("fixture")] && es == [es[0]] && events[..0] == [] && es[..0] == [];
    }
  }

  lemma FixtureLabel(e: Entry)
    requires e.kind == "fixture"
    ensures EntryLabel(e) == [] && LabelOf(Other("fixture")) == []
  {
  }

  /** The events of a loaded journal: the fixture entry first, which is not validated again. */
  ghost predicate EventsAre(checks: Checks, es: seq<Entry>, events: seq<CallEvent>) {
    && es != [] && |events| == |es| && events[0] == Other("fixture")
    && forall i :: 1 <= i < |es| ==> EventOf(checks, es[i]) == Some(events[i])
  }

  lemma KindsKept(checks: Checks, es: seq<Entry>, events: seq<CallEvent>, i: nat)
    requires EventsAre(checks, es, events) && es[0].kind == "fixture" && i < |es|
    ensures Kinds(events)[i] == es[i].kind
  {
    hide EventOf;
  }

  /** The raw file a response entry names is there, has the hash the entry names, and is a success
      envelope if the entry says it was accepted. */
  ghost predicate RawBacked(py: Python, raw: RawFiles, e: Entry) {
    var binding := Get(e.payload, "raw");
    && binding.Some? && binding.value.Obj?
    && var path := Get(binding.value.fields, "path");
    && path.Some? && path.value.Str? && path.value.s in raw
    && Get(binding.value.fields, "sha256") == Some(Str(py.sha256(raw[path.value.s])))
    && var value := Read(py.shortest, raw[path.value.s]);
    && value.Some?
    && (Get(e.payload, "accepted") == Some(Bool(true)) ==>
          && value.value.Obj? && Get(value.value.fields, "ok") == Some(Bool(true))
          && Get(value.value.fields, "value").Some?)
  }

  lemma ResponseBacked(py: Python, checks: Checks, raw: RawFiles, e: Entry, event: CallEvent)
    requires e.kind == "call_response" && EventOf(checks, e) == Some(event) && event.Response? && RawOk(py, raw, event)
    ensures RawBacked(py, raw, e)
  {
    hide ResponseOf, Keys, Get, RawPath, MethodName, Read, IsHash, PyEqual;
    ResponseIff(e.payload, event);
    var binding, value := Get(e.payload, "raw").value.fields, Read(py.shortest, raw[event.path]).value;
    assert Get(binding, "path") == Some(Str(event.path)) && Get(binding, "sha256") == Some(Str(event.sha256));
  }

  /** In an accepted replay every response entry is backed by its raw file. */
  lemma EveryResponseBacked(py: Python, checks: Checks, es: seq<Entry>, events: seq<CallEvent>, raw: RawFiles,
                            contract: seq<string>, i: nat)
    requires EventsAre(checks, es, events) && ReplayOk(py, checks, events, raw, contract)
    requires i < |es| && es[0].kind == "fixture" && es[i].kind == "call_response"
    ensures RawBacked(py, raw, es[i])
  {
    hide EventOf, RawOk, RawBacked, CompletionOrderOk, VerdictOk, StartsNumbered, ResponsesFollowStarts, Referenced;
    hide OneResponseEach, AllAnswered;
    ResponseKind(checks, es[i], events[i]);
    assert RawOk(py, raw, events[i]);
    ResponseBacked(py, checks, raw, es[i], events[i]);
  }

  lemma ResponseKind(checks: Checks, e: Entry, event: CallEvent)
    requires EventOf(checks, e) == Some(event) && e.kind == "call_response"
    ensures event.Response?
  {
  }

  /** A journal text, raw files and contract that make an acceptable replay. */
  ghost predicate ReplayAccepted(py: Python, checks: Checks, text: string, digest: string, raw: RawFiles,
                                 contract: seq<string>, labels: seq<string>)
  {
    exists es, events :: Accepted(py, text, digest, es) && EventsAre(checks, es, events)
                         && ReplayOk(py, checks, events, raw, contract) && labels == Labels(events)
  }

  /** Loads a replay from the bytes of its journal. It succeeds, with the labels of accepted responses
      and stages in journal order, exactly on chained journals of valid events whose calls match, whose
      completion is in order and whose labels are a prefix of the contract. */
  method LoadReplay(py: Python, checks: Checks, text: string, digest: string, raw: RawFiles, contract: seq<string>)
      returns (r: Option<seq<string>>)
    ensures forall labels :: r == Some(labels) <==> ReplayAccepted(py, checks, text, digest, raw, contract, labels)
    ensures r.Some? ==> exists es :: Accepted(py, text, digest, es) && r.value == EntryLabels(es)
  {
    hide Accepted, ReplayOk, EventOf, Loaded, KindOf, Labels, EntryLabels;
    var loaded := LoadPrefix(py, text, digest);
    if loaded.None? { return None; }
    var es := loaded.value;
    forall fs | Accepted(py, text, digest, fs) ensures fs == es { AcceptedOnce(py, text, digest, es, fs); }
    AcceptedStarts(py, text, digest, es);
    if es[|es| - 1].kind != "complete" {
      forall events | EventsAre(checks, es, events) ensures !ReplayOk(py, checks, events, raw, contract) {
        KindsKept(checks, es, events, |es| - 1);
        CompleteEnds(py, checks, events, raw, contract);
      }
      return None;
    }
    var events := [Other("fixture")];
    for i := 1 to |es|
      invariant |events| == i && events[0] == Other("fixture")
      invariant forall k :: 1 <= k < i ==> EventOf(checks, es[k]) == Some(events[k])
    {
      var event := EventOf(checks, es[i]);
      if event.None? { return None; }
      events := events + [event.value];
    }
    r := CheckReplay(py, checks, events, raw, contract);
    forall other | EventsAre(checks, es, other) ensures other == events {
      assert forall i :: 0 <= i < |es| ==> other[i] == events[i];
    }
    assert EventsAre(checks, es, events);
    LabelsByKey(checks, es, events);
  }

  lemma AcceptedStarts(py: Python, text: string, digest: string, es: seq<Entry>)
    requires Accepted(py, text, digest, es)
    ensures es != [] && es[0].kind == "fixture"
  {
  }

  lemma CompleteEnds(py: Python, checks: Checks, events: seq<CallEvent>, raw: RawFiles, contract: seq<string>)
    ensures ReplayOk(py, checks, events, raw, contract) ==> events != [] && Kinds(events)[|events| - 1] == "complete"
  {
    hide ProperCalls, Labels, VerdictOk;
    CompletionOrderIff(Kinds(events));
  }

  // ----- a replay that is accepted -----

  /** The events of an attempt with one accepted call that then failed. */
  function OneCall(call: Call, path: string, sha256: string, failure: seq<Field>): seq<CallEvent> {
    [Other("fixture"), Started(call), Response(call, true, path, sha256), Other("cleanup"), Other("postflight"),
     Outcome(false, failure), Complete(false)]
  }

  lemma OneCallKinds(call: Call, path: string, sha256: string, failure: seq<Field>)
    ensures Kinds(OneCall(call, path, sha256, failure))
         == ["fixture", "call_started", "call_response", "cleanup", "postflight", "outcome", "complete"]
  {
  }

  lemma OneCallCompletes()
    ensures CompletionOrderOk(["fixture", "call_started", "call_response", "cleanup", "postflight", "outcome",
                               "complete"])
  {
    var kinds := ["fixture", "call_started", "call_response", "cleanup", "postflight", "outcome", "complete"];
    assert OnlyIndex(kinds, "cleanup", 3) && OnlyIndex(kinds, "postflight", 4);
    assert OnlyIndex(kinds, "outcome", 5) && OnlyIndex(kinds, "complete", 6);
    CompletionOrderIff(kinds);
  }

  /** What one more event does to a proper prefix. */
  lemma NextEvent(py: Python, before: seq<CallEvent>, e: CallEvent, raw: RawFiles)
    requires ProperSoFar(py, before, raw) && StepOk(py, before, e, raw)
    ensures ProperSoFar(py, before + [e], raw)
    ensures StartCount(before + [e]) == StartCount(before) + if e.Started? then 1 else 0
    ensures Labels(before + [e]) == Labels(before) + LabelOf(e)
    ensures Referenced(before + [e]) == Referenced(before) + if e.Response? then {e.path} else {}
  {
    hide ProperSoFar, StepOk, RawOk, StartCount, Labels, Referenced, LabelOf;
    ProperStep(py, before, e, raw);
    LabelsStep(before, e);
    StartCountStep(before, e);
  }

  lemma QuietEvent(py: Python, before: seq<CallEvent>, e: CallEvent, raw: RawFiles)
    requires ProperSoFar(py, before, raw) && (e.Other? || e.Outcome? || e.Complete?)
    ensures ProperSoFar(py, before + [e], raw)
    ensures StartCount(before + [e]) == StartCount(before)
    ensures Labels(before + [e]) == Labels(before) && Referenced(before + [e]) == Referenced(before)
  {
    hide ProperSoFar, RawOk, StartCount, Labels, Referenced;
    NextEvent(py, before, e, raw);
  }

  lemma FirstCall(py: Python, call: Call, path: string, text: string)
    requires call.index == 1 && Read(py.shortest, text).Some? && EnvelopeOk(Read(py.shortest, text).value)
    ensures var events := [Other("fixture"), Started(call), Response(call, true, path, py.sha256(text))];
            && ProperSoFar(py, events, map[path := text]) && Referenced(events) == {path}
            && Labels(events) == LabelOf(events[2])
  {
    hide Read, EnvelopeOk, ProperSoFar, Referenced, Labels, LabelOf, StartCount;
    var raw := map[path := text];
    var a, b, c := Other("fixture"), Started(call), Response(call, true, path, py.sha256(text));
    EmptyProper(py, raw);
    EmptyCount();
    QuietEvent(py, [], a, raw);
    assert [] + [a] == [a] && [a] + [b] == [a, b] && [a, b] + [c] == [a, b, c];
    NextEvent(py, [a], b, raw);
    assert [a, b][1] == b;
    NextEvent(py, [a, b], c, raw);
    StartLabel(call);
  }

  lemma EmptyCount()
    ensures StartCount([]) == 0
  {
  }

  lemma StartLabel(call: Call)
    ensures LabelOf(Started(call)) == []
  {
  }

  lemma OneCallProper(py: Python, call: Call, path: string, text: string, failure: seq<Field>)
    requires call.index == 1 && Read(py.shortest, text).Some? && EnvelopeOk(Read(py.shortest, text).value)
    ensures ProperCalls(py, OneCall(call, path, py.sha256(text), failure), map[path := text])
    ensures Labels(OneCall(call, path, py.sha256(text), failure))
         == if call.publicLabel.Some? then [call.publicLabel.value] else []
  {
    hide Read, EnvelopeOk, ProperSoFar, Referenced, Labels;
    var raw := map[path := text];
    var e2 := [Other("fixture"), Started(call), Response(call, true, path, py.sha256(text))];
    var cleanup, postflight := Other("cleanup"), Other("postflight");
    var outcome, complete := Outcome(false, failure), Complete(false);
    FirstCall(py, call, path, text);
    QuietEvent(py, e2, cleanup, raw);
    QuietEvent(py, e2 + [cleanup], postflight, raw);
    QuietEvent(py, e2 + [cleanup] + [postflight], outcome, raw);
    QuietEvent(py, e2 + [cleanup] + [postflight] + [outcome], complete, raw);
    var events := OneCall(call, path, py.sha256(text), failure);
    assert e2 + [cleanup] + [postflight] + [outcome] + [complete] == events;
    assert events[2].Response? && events[2].call == events[1].call;
  }

  /** An attempt whose one call was accepted and that then failed with a sanitized failure is an acceptable
      replay with the call's label, whatever the call. */
  lemma OneCallAccepted(py: Python, checks: Checks, call: Call, path: string, text: string, failure: seq<Field>,
                        contract: seq<string>)
    requires call.index == 1 && Read(py.shortest, text).Some? && EnvelopeOk(Read(py.shortest, text).value)
    requires FailureOk(checks, failure)
    requires (if call.publicLabel.Some? then [call.publicLabel.value] else []) <= contract
    ensures ReplayOk(py, checks, OneCall(call, path, py.sha256(text), failure), map[path := text], contract)
  {
    hide Read, EnvelopeOk, ProperCalls, Labels, FailureOk;
    OneCallKinds(call, path, py.sha256(text), failure);
    OneCallCompletes();
    OneCallProper(py, call, path, text, failure);
    VerdictAt(checks, OneCall(call, path, py.sha256(text), failure), 5) by {
      OneEventIff(Kinds(OneCall(call, path, py.sha256(text), failure)), "outcome", 5);
    }
  }
}
