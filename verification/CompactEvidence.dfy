/** Compact ZUP acceptance evidence: the record built from measured samples, its verification, and
    the choice between the pass and the nonpass file (integration/zup_worker_universe_acceptance.py). */
module CompactEvidence {
  import opened Wrappers
  import opened NearestRank
  import opened TextOrder

  /** The names the program fixes: the modes "main" and "capture", the component phases in pipeline
      order, the phase that spans them, and the parser-call counters (declared in a product module
      that is not part of this model). Nothing below depends on which names they are. */
  datatype Fields = Fields(modes: seq<string>, parts: seq<string>, total: string, counters: seq<string>)

  datatype Percentiles = Percentiles(p50: real, p95: real)

  type Samples = map<string, seq<real>>

  type Calls = map<string, seq<int>>

  datatype ModeEvidence = ModeEvidence(
    samples: Samples,
    parserCalls: Calls,
    percentiles: map<string, Percentiles>,
    endToEnd: Percentiles,
    dominant: string,
    componentSums: seq<real>,
    unattributed: seq<real>)

  /** Verdicts of the fixed-value checks on the sections that hold no measurements. */
  datatype Sections = Sections(
    publicText: bool,
    reference: bool,
    catalogSetup: bool,
    catalogExtension: bool,
    admission: bool,
    gates: bool,
    incremental: bool)

  datatype Record = Record(sections: Sections, warmup: int, measured: int, modes: map<string, ModeEvidence>)

  datatype Fault =
    | ReferenceFault | CatalogSetupFault | IterationFault | ModesFault | PhaseFault | SampleFault
    | PercentileFault | ParserCallFault | ParserCallMismatch | AccountingFault | EndToEndFault
    | SlaFault | DominantFault | PrivateFault | CatalogExtensionFault | AdmissionFault | GatesFault
    | IncrementalFault

  const MEASURED := 60
  const WARMUP := 3
  const SLA_MS := 2500.0
  const TOLERANCE := 0.000000001

  function Phases(f: Fields): (r: seq<string>)
    ensures f.total in r && forall p :: p in f.parts ==> p in r
  {
    assert (f.parts + [f.total])[|f.parts|] == f.total;
    f.parts + [f.total]
  }

  predicate Exactly<V>(m: map<string, V>, names: seq<string>) {
    (forall p :: p in m ==> p in names) && forall p :: p in names ==> p in m
  }

  predicate Measured(f: Fields, s: Samples, n: nat) {
    Exactly(s, Phases(f)) && forall p :: p in s ==> |s[p]| == n
  }

  // ----- component sums -----

  function Sum(parts: seq<string>, s: Samples, i: nat): real
    requires forall p :: p in parts ==> p in s && i < |s[p]|
  {
    if parts == [] then 0.0 else Sum(parts[..|parts| - 1], s, i) + s[parts[|parts| - 1]][i]
  }

  /** The sum over no part, over one, and over two groups: every part counts once. */
  lemma {:induction false} SumLaws(a: seq<string>, b: seq<string>, p: string, s: Samples, i: nat)
    requires forall q :: q in a + b + [p] ==> q in s && i < |s[q]|
    ensures Sum([], s, i) == 0.0 && Sum([p], s, i) == s[p][i]
    ensures Sum(a + b, s, i) == Sum(a, s, i) + Sum(b, s, i)
  {
    assert p in a + b + [p] && forall q :: q in a + b ==> q in a + b + [p];
    if b == [] {
      assert a + b == a;
    } else {
      var front := b[..|b| - 1];
      assert (a + b)[..|a + b| - 1] == a + front;
      assert forall q :: q in a + front + [p] ==> q in a + b + [p];
      SumLaws(a, front, p, s, i);
    }
  }

  lemma {:induction false} SumOfNothing(parts: seq<string>, s: Samples, i: nat)
    requires forall p :: p in parts ==> p in s && i < |s[p]| && s[p][i] == 0.0
    ensures Sum(parts, s, i) == 0.0
  {
    if parts != [] { SumOfNothing(parts[..|parts| - 1], s, i); }
  }

  function ComponentSums(f: Fields, s: Samples, n: nat): (r: seq<real>)
    requires Measured(f, s, n)
    ensures |r| == n && forall i :: 0 <= i < n ==> r[i] == Sum(f.parts, s, i)
  {
    seq(n, i requires 0 <= i < n => Sum(f.parts, s, i))
  }

  function Unattributed(f: Fields, s: Samples, n: nat): (r: seq<real>)
    requires Measured(f, s, n)
    ensures |r| == n && forall i :: 0 <= i < n ==> r[i] == s[f.total][i] - Sum(f.parts, s, i)
  {
    seq(n, i requires 0 <= i < n => s[f.total][i] - Sum(f.parts, s, i))
  }

  /** No iteration's parts exceed its end-to-end time by more than the tolerance. */
  predicate Accountable(f: Fields, s: Samples, n: nat)
    requires Measured(f, s, n)
  {
    forall i :: 0 <= i < n ==> s[f.total][i] - Sum(f.parts, s, i) >= -TOLERANCE
  }

  predicate NonNegative(s: Samples) { forall p, i :: p in s && 0 <= i < |s[p]| ==> s[p][i] >= 0.0 }

  // ----- parser calls -----

  predicate Naturals(values: seq<int>) { forall i :: 0 <= i < |values| ==> values[i] >= 0 }

  predicate Counted(f: Fields, calls: Calls, n: nat) {
    && Exactly(calls, f.counters)
    && forall c :: c in calls ==> |calls[c]| == n && Naturals(calls[c])
  }

  function Reading(f: Fields, calls: Calls, i: nat): (r: seq<int>)
    requires forall c :: c in f.counters ==> c in calls && i < |calls[c]|
  {
    seq(|f.counters|, k requires 0 <= k < |f.counters| => calls[f.counters[k]][i])
  }

  /** Every iteration parsed exactly once and reparsed nothing. */
  predicate OneParse(f: Fields, calls: Calls, n: nat)
    requires Counted(f, calls, n)
  {
    forall i :: 0 <= i < n ==> Reading(f, calls, i) == [1, 0, 0]
  }

  // ----- dominant phase -----

  /** The comparison of the keys (p50, name). */
  predicate KeyBelow(pct: map<string, Percentiles>, p: string, q: string)
    requires p in pct && q in pct
  {
    pct[p].p50 < pct[q].p50 || (pct[p].p50 == pct[q].p50 && Less(p, q))
  }

  /** max keeps the first of the greatest keys. */
  function Dominant(parts: seq<string>, pct: map<string, Percentiles>): (d: string)
    requires parts != [] && forall p :: p in parts ==> p in pct
    ensures d in parts
  {
    var last := parts[|parts| - 1];
    if |parts| == 1 then last
    else
      var best := Dominant(parts[..|parts| - 1], pct);
      if KeyBelow(pct, best, last) then last else best
  }

  ghost predicate IsDominant(parts: seq<string>, pct: map<string, Percentiles>, d: string)
    requires forall p :: p in parts ==> p in pct
  {
    && d in parts
    && forall p :: p in parts && p != d ==>
         pct[p].p50 < pct[d].p50 || (pct[p].p50 == pct[d].p50 && Less(p, d))
  }

  lemma {:induction false} DominantIsGreatest(parts: seq<string>, pct: map<string, Percentiles>)
    requires parts != [] && forall p :: p in parts ==> p in pct
    ensures IsDominant(parts, pct, Dominant(parts, pct))
  {
    if |parts| > 1 {
      var front, last := parts[..|parts| - 1], parts[|parts| - 1];
      DominantIsGreatest(front, pct);
      var best := Dominant(front, pct);
      assert parts == front + [last];
      forall p | p in parts && p != Dominant(parts, pct)
        ensures KeyBelow(pct, p, Dominant(parts, pct))
      {
        LessIsTotal(p, best, last);
      }
    }
  }

  lemma DominantIff(parts: seq<string>, pct: map<string, Percentiles>, d: string)
    requires parts != [] && forall p :: p in parts ==> p in pct
    ensures IsDominant(parts, pct, d) <==> d == Dominant(parts, pct)
  {
    hide Dominant;
    var best := Dominant(parts, pct);
    DominantIsGreatest(parts, pct);
    LessIsTotal(d, best, d);
  }

  // ----- what an honest mode section says -----

  ghost predicate Summarizes(pct: Percentiles, values: seq<real>) {
    IsQuantile(values, 0.5, pct.p50) && IsQuantile(values, 0.95, pct.p95)
  }

  ghost predicate PercentilesTrue(f: Fields, e: ModeEvidence) {
    && Exactly(e.samples, Phases(f)) && Exactly(e.percentiles, Phases(f))
    && forall p :: p in Phases(f) ==> Summarizes(e.percentiles[p], e.samples[p])
  }

  predicate AccountingTrue(f: Fields, e: ModeEvidence, n: nat)
    requires Measured(f, e.samples, n)
  {
    && |e.componentSums| == |e.unattributed| == n
    && forall i :: 0 <= i < n ==>
      && e.componentSums[i] == Sum(f.parts, e.samples, i)
      && e.unattributed[i] == e.samples[f.total][i] - Sum(f.parts, e.samples, i)
  }

  ghost predicate MeasurementsTrue(f: Fields, e: ModeEvidence, n: nat) {
    && Measured(f, e.samples, n) && NonNegative(e.samples) && n > 0
    && Accountable(f, e.samples, n) && AccountingTrue(f, e, n)
    && Counted(f, e.parserCalls, n) && OneParse(f, e.parserCalls, n)
    && PercentilesTrue(f, e) && e.endToEnd == e.percentiles[f.total]
  }

  ghost predicate DominantTrue(f: Fields, e: ModeEvidence)
    requires Exactly(e.percentiles, Phases(f))
  {
    IsDominant(f.parts, e.percentiles, e.dominant)
  }

  function Recomputed(values: seq<real>): Percentiles
    requires values != []
  {
    Percentiles(Percentile(values, 0.5), Percentile(values, 0.95))
  }

  lemma RecomputedIff(values: seq<real>, pct: Percentiles)
    requires values != []
    ensures Summarizes(pct, values) <==> pct == Recomputed(values)
  {
    hide IsQuantile, Percentile;
    PercentileIsQuantile(values, 0.5, pct.p50);
    PercentileIsQuantile(values, 0.95, pct.p95);
  }

  ghost predicate ModeTrue(f: Fields, e: ModeEvidence, n: nat) {
    MeasurementsTrue(f, e, n) && DominantTrue(f, e)
  }

  // ----- building -----

  ghost predicate Buildable(f: Fields, phases: Samples, calls: Calls, n: nat)
    requires Measured(f, phases, n)
  {
    && n > 0 && Accountable(f, phases, n) && NonNegative(phases)
    && Counted(f, calls, n) && OneParse(f, calls, n)
  }

  function Summaries(f: Fields, phases: Samples, n: nat): (r: map<string, Percentiles>)
    requires Measured(f, phases, n) && n > 0
    ensures Exactly(r, Phases(f))
    ensures forall p :: p in r ==> r[p] == Recomputed(phases[p])
  {
    map p | p in Phases(f) :: Recomputed(phases[p])
  }

  /** _mode_evidence. */
  method BuildMode(f: Fields, phases: Samples, calls: Calls, n: nat) returns (r: Result<ModeEvidence, Fault>)
    requires f.parts != [] && Measured(f, phases, n)
    ensures r.Ok? <==> Buildable(f, phases, calls, n)
    ensures r.Ok? ==>
      && r.value.samples == phases && r.value.parserCalls == calls
      && ModeTrue(f, r.value, n)
  {
    hide IsQuantile, Percentile, Sum, Dominant, Reading, KeyBelow, IsDominant, Summarizes, Recomputed;
    if !Accountable(f, phases, n) {
      return Err(AccountingFault);
    }
    if !Exactly(calls, f.counters) {
      return Err(ParserCallFault);
    }
    var normalized: Calls := map[];
    for k := 0 to |f.counters|
      invariant Exactly(normalized, f.counters[..k])
      invariant forall c :: c in normalized ==>
        && c in calls && normalized[c] == calls[c] && |calls[c]| == n && Naturals(calls[c])
    {
      var values := calls[f.counters[k]];
      if |values| != n || !Naturals(values) {
        return Err(ParserCallFault);
      }
      normalized := normalized[f.counters[k] := values];
    }
    assert f.counters[..|f.counters|] == f.counters;
    assert normalized == calls;
    if !OneParse(f, normalized, n) {
      return Err(ParserCallMismatch);
    }
    if n == 0 || !NonNegative(phases) {
      return Err(SampleFault);
    }
    var summaries := Summaries(f, phases, n);
    forall p | p in Phases(f)
      ensures Summarizes(summaries[p], phases[p])
    {
      RecomputedIff(phases[p], summaries[p]);
    }
    DominantIsGreatest(f.parts, summaries);
    r := Ok(ModeEvidence(phases, normalized, summaries, summaries[f.total], Dominant(f.parts, summaries),
                         ComponentSums(f, phases, n), Unattributed(f, phases, n)));
  }

  /** Where a part alone takes time, its time is the component sum, and the rest is unattributed. */
  lemma LonePart(f: Fields, e: ModeEvidence, n: nat, i: nat, p: string)
    requires ModeTrue(f, e, n) && i < n && p in f.parts
    requires forall j, k :: 0 <= j < k < |f.parts| ==> f.parts[j] != f.parts[k]
    requires forall q :: q in f.parts && q != p ==> e.samples[q][i] == 0.0
    ensures e.componentSums[i] == e.samples[p][i]
    ensures e.unattributed[i] == e.samples[f.total][i] - e.samples[p][i]
  {
    hide IsQuantile, Sum, IsDominant, Counted, OneParse, PercentilesTrue, Accountable, NonNegative;
    LonePartSum(f, e.samples, n, i, p);
  }

  /** A part that alone exceeds its iteration's end-to-end time is refused. */
  lemma LonePartRefused(f: Fields, phases: Samples, calls: Calls, n: nat, i: nat, p: string)
    requires Measured(f, phases, n) && i < n && p in f.parts
    requires forall j, k :: 0 <= j < k < |f.parts| ==> f.parts[j] != f.parts[k]
    requires forall q :: q in f.parts && q != p ==> phases[q][i] == 0.0
    requires phases[p][i] > phases[f.total][i] + 0.000000001
    ensures !Buildable(f, phases, calls, n)
  {
    hide Sum, Counted, OneParse, NonNegative;
    LonePartSum(f, phases, n, i, p);
  }

  /** The sum around one part. */
  lemma SumAround(before: seq<string>, p: string, after: seq<string>, s: Samples, i: nat)
    requires forall q :: q in before + [p] + after ==> q in s && i < |s[q]|
    ensures p in before + [p] + after && forall q :: q in before || q in after ==> q in before + [p] + after
    ensures Sum(before + [p] + after, s, i) == Sum(before, s, i) + s[p][i] + Sum(after, s, i)
  {
    hide Sum;
    assert (before + [p] + after)[|before|] == p;
    forall q | q in before || q in after ensures q in before + [p] + after {}
    SumLaws(before + [p], after, p, s, i);
    SumLaws(before, [p], p, s, i);
  }

  lemma OthersAround(parts: seq<string>, k: nat)
    requires k < |parts| && forall a, b :: 0 <= a < b < |parts| ==> parts[a] != parts[b]
    ensures parts == parts[..k] + [parts[k]] + parts[k + 1..]
    ensures forall q :: q in parts[..k] || q in parts[k + 1..] ==> q in parts && q != parts[k]
  {
  }

  lemma LonePartSum(f: Fields, s: Samples, n: nat, i: nat, p: string)
    requires Measured(f, s, n) && i < n && p in f.parts
    requires forall j, k :: 0 <= j < k < |f.parts| ==> f.parts[j] != f.parts[k]
    requires forall q :: q in f.parts && q != p ==> s[q][i] == 0.0
    ensures Sum(f.parts, s, i) == s[p][i]
  {
    var k :| 0 <= k < |f.parts| && f.parts[k] == p;
    assert forall q :: q in f.parts ==> q in s && i < |s[q]|;
    hide Sum, Measured, Phases;
    OthersAround(f.parts, k);
    SumAround(f.parts[..k], p, f.parts[k + 1..], s, i);
    SumOfNothing(f.parts[..k], s, i);
    SumOfNothing(f.parts[k + 1..], s, i);
  }

  lemma ExactlyIff<V>(m: map<string, V>, names: seq<string>)
    ensures Exactly(m, names) <==> m.Keys == set p | p in names
  {
  }

  /** The first counter reads 1 in every iteration and the two others read 0. */
  lemma OneParseIff(f: Fields, calls: Calls, n: nat)
    requires Counted(f, calls, n) && n > 0
    ensures OneParse(f, calls, n) <==>
              && |f.counters| == 3
              && forall i :: 0 <= i < n ==>
                   && calls[f.counters[0]][i] == 1
                   && calls[f.counters[1]][i] == 0 && calls[f.counters[2]][i] == 0
  {
    hide Naturals;
    if OneParse(f, calls, n) {
      assert |Reading(f, calls, 0)| == |[1, 0, 0]|;
      forall i | 0 <= i < n
        ensures calls[f.counters[0]][i] == 1 && calls[f.counters[1]][i] == 0 && calls[f.counters[2]][i] == 0
      {
        var r := Reading(f, calls, i);
        assert r[0] == 1 && r[1] == 0 && r[2] == 0;
      }
    }
  }

  // ----- verifying -----

  ghost predicate ModePasses(f: Fields, e: ModeEvidence, n: nat) {
    MeasurementsTrue(f, e, n) && e.endToEnd.p95 < SLA_MS && DominantTrue(f, e)
  }

  ghost predicate ModeMissesSla(f: Fields, e: ModeEvidence, n: nat) {
    MeasurementsTrue(f, e, n) && e.endToEnd.p95 >= SLA_MS
  }

  /** The pass over one mode in verify_compact_evidence: None when nothing is wrong. */
  method CheckMode(f: Fields, e: ModeEvidence, n: nat) returns (fault: Option<Fault>)
    requires f.parts != [] && n > 0
    ensures fault == None <==> ModePasses(f, e, n)
    ensures fault == Some(SlaFault) <==> ModeMissesSla(f, e, n)
  {
    hide IsQuantile, Percentile, Sum, Dominant, Reading, KeyBelow, IsDominant, Summarizes, Recomputed, Phases;
    if !Exactly(e.samples, Phases(f)) || !Exactly(e.percentiles, Phases(f)) {
      return Some(PhaseFault);
    }
    if !Exactly(e.parserCalls, f.counters) {
      return Some(ParserCallFault);
    }
    for k := 0 to |Phases(f)|
      invariant forall j :: 0 <= j < k ==>
        var p := Phases(f)[j];
        && |e.samples[p]| == n && (forall i :: 0 <= i < n ==> e.samples[p][i] >= 0.0)
        && Summarizes(e.percentiles[p], e.samples[p])
    {
      var p := Phases(f)[k];
      var values := e.samples[p];
      if |values| != n {
        return Some(PhaseFault);
      }
      if exists i :: 0 <= i < n && values[i] < 0.0 {
        return Some(SampleFault);
      }
      RecomputedIff(values, e.percentiles[p]);
      if e.percentiles[p] != Recomputed(values) {
        return Some(PercentileFault);
      }
    }
    for k := 0 to |f.counters|
      invariant forall j :: 0 <= j < k ==>
        |e.parserCalls[f.counters[j]]| == n && Naturals(e.parserCalls[f.counters[j]])
    {
      var values := e.parserCalls[f.counters[k]];
      if |values| != n || !Naturals(values) {
        return Some(ParserCallFault);
      }
    }
    if !OneParse(f, e.parserCalls, n) {
      return Some(ParserCallMismatch);
    }
    if !Accountable(f, e.samples, n)
      || e.componentSums != ComponentSums(f, e.samples, n)
      || e.unattributed != Unattributed(f, e.samples, n)
    {
      return Some(AccountingFault);
    }
    if e.endToEnd != e.percentiles[f.total] {
      return Some(EndToEndFault);
    }
    if e.endToEnd.p95 >= SLA_MS {
      return Some(SlaFault);
    }
    DominantIff(f.parts, e.percentiles, e.dominant);
    if e.dominant != Dominant(f.parts, e.percentiles) {
      return Some(DominantFault);
    }
    fault := None;
  }

  // ----- the whole record -----

  predicate Complete(f: Fields, warmup: int, measured: int,
                     phaseSamples: map<string, Samples>, callSamples: map<string, Calls>)
  {
    && warmup == WARMUP && measured == MEASURED
    && Exactly(phaseSamples, f.modes) && Exactly(callSamples, f.modes)
    && forall mode :: mode in f.modes ==> Measured(f, phaseSamples[mode], MEASURED)
  }

  ghost predicate Usable(f: Fields, warmup: int, measured: int,
                         phaseSamples: map<string, Samples>, callSamples: map<string, Calls>)
  {
    && Complete(f, warmup, measured, phaseSamples, callSamples)
    && forall mode :: mode in f.modes ==> Buildable(f, phaseSamples[mode], callSamples[mode], MEASURED)
  }

  /** The record carries these inputs, and each mode tells the truth about them. */
  ghost predicate Carries(f: Fields, rec: Record, sections: Sections,
                          phaseSamples: map<string, Samples>, callSamples: map<string, Calls>)
  {
    && rec.sections == sections && rec.warmup == WARMUP && rec.measured == MEASURED
    && Exactly(rec.modes, f.modes) && Exactly(phaseSamples, f.modes) && Exactly(callSamples, f.modes)
    && forall mode :: mode in f.modes ==>
      && rec.modes[mode].samples == phaseSamples[mode]
      && rec.modes[mode].parserCalls == callSamples[mode]
      && ModeTrue(f, rec.modes[mode], MEASURED)
  }

  /** _build_compact_evidence_candidate. */
  method Build(f: Fields, sections: Sections, warmup: int, measured: int,
               phaseSamples: map<string, Samples>, callSamples: map<string, Calls>)
    returns (r: Result<Record, Fault>)
    requires f.parts != []
    ensures r.Ok? <==>
      && sections.reference && sections.catalogSetup
      && Usable(f, warmup, measured, phaseSamples, callSamples)
    ensures r.Ok? ==> Carries(f, r.value, sections, phaseSamples, callSamples)
  {
    hide Measured, ModeTrue, Accountable, NonNegative, Counted, OneParse, Buildable;
    if !sections.reference {
      return Err(ReferenceFault);
    }
    if !sections.catalogSetup {
      return Err(CatalogSetupFault);
    }
    if warmup != WARMUP || measured != MEASURED {
      return Err(IterationFault);
    }
    if !Exactly(phaseSamples, f.modes) || !Exactly(callSamples, f.modes) {
      return Err(ModesFault);
    }
    var modes: map<string, ModeEvidence> := map[];
    for k := 0 to |f.modes|
      invariant Exactly(modes, f.modes[..k])
      invariant forall mode :: mode in f.modes[..k] ==>
        && Measured(f, phaseSamples[mode], MEASURED)
        && Buildable(f, phaseSamples[mode], callSamples[mode], MEASURED)
        && modes[mode].samples == phaseSamples[mode] && modes[mode].parserCalls == callSamples[mode]
        && ModeTrue(f, modes[mode], MEASURED)
    {
      var mode := f.modes[k];
      if !Measured(f, phaseSamples[mode], MEASURED) {
        return Err(PhaseFault);
      }
      var built := BuildMode(f, phaseSamples[mode], callSamples[mode], MEASURED);
      if built.Err? {
        return Err(built.error);
      }
      modes := modes[mode := built.value];
    }
    assert f.modes[..|f.modes|] == f.modes;
    r := Ok(Record(sections, warmup, measured, modes));
  }

  /** The checks verify_compact_evidence makes before it looks at the modes. */
  predicate OpeningValid(s: Sections) {
    s.publicText && s.catalogSetup && s.reference && s.catalogExtension && s.admission && s.gates
  }

  predicate HeaderValid(f: Fields, rec: Record) {
    && OpeningValid(rec.sections) && rec.warmup == WARMUP && rec.measured == MEASURED
    && Exactly(rec.modes, f.modes)
  }

  ghost predicate Passes(f: Fields, rec: Record) {
    && HeaderValid(f, rec) && rec.sections.incremental
    && forall mode :: mode in f.modes ==> ModePasses(f, rec.modes[mode], MEASURED)
  }

  /** Some mode misses the limit, and every mode looked at before it passes. */
  ghost predicate MissesSla(f: Fields, rec: Record) {
    && HeaderValid(f, rec)
    && exists k :: 0 <= k < |f.modes| && ModeMissesSla(f, rec.modes[f.modes[k]], MEASURED)
                   && forall mode :: mode in f.modes[..k] ==> ModePasses(f, rec.modes[mode], MEASURED)
  }

  /** verify_compact_evidence on a record of status PASS: None when it is accepted. */
  method Verify(f: Fields, rec: Record) returns (fault: Option<Fault>)
    requires f.parts != []
    ensures fault == None <==> Passes(f, rec)
    ensures fault == Some(SlaFault) <==> MissesSla(f, rec)
  {
    hide ModePasses, ModeMissesSla;
    var s := rec.sections;
    if !s.publicText {
      return Some(PrivateFault);
    }
    if !s.catalogSetup {
      return Some(CatalogSetupFault);
    }
    if rec.warmup != WARMUP || rec.measured != MEASURED {
      return Some(IterationFault);
    }
    if !s.reference {
      return Some(ReferenceFault);
    }
    if !s.catalogExtension {
      return Some(CatalogExtensionFault);
    }
    if !s.admission {
      return Some(AdmissionFault);
    }
    if !s.gates {
      return Some(GatesFault);
    }
    if !Exactly(rec.modes, f.modes) {
      return Some(ModesFault);
    }
    forall mode | mode in f.modes {
      PassOrMiss(f, rec.modes[mode], MEASURED);
    }
    for k := 0 to |f.modes|
      invariant forall mode :: mode in f.modes[..k] ==> ModePasses(f, rec.modes[mode], MEASURED)
    {
      fault := CheckMode(f, rec.modes[f.modes[k]], MEASURED);
      if fault != None {
        assert forall j :: k < j < |f.modes| ==> f.modes[k] in f.modes[..j];
        return;
      }
    }
    fault := if s.incremental then None else Some(IncrementalFault);
  }

  lemma PassOrMiss(f: Fields, e: ModeEvidence, n: nat)
    ensures !(ModePasses(f, e, n) && ModeMissesSla(f, e, n))
  {
    hide MeasurementsTrue, DominantTrue;
  }

  // ----- what passing means for the measured times -----

  /** At least 57 of the 60 end-to-end times are below the limit. */
  predicate Fast(f: Fields, s: Samples)
    requires f.total in s
  {
    Count(s[f.total], Under(SLA_MS)) >= 57
  }

  predicate AllFast(f: Fields, phaseSamples: map<string, Samples>) {
    forall mode :: mode in f.modes ==>
      mode in phaseSamples && f.total in phaseSamples[mode] && Fast(f, phaseSamples[mode])
  }

  lemma FastIff(f: Fields, e: ModeEvidence)
    requires MeasurementsTrue(f, e, MEASURED)
    ensures f.total in e.samples
    ensures Fast(f, e.samples) <==> e.endToEnd.p95 < SLA_MS
  {
    hide IsQuantile, Percentile, Count, Sum, Accountable, AccountingTrue, Counted, OneParse;
    var times := e.samples[f.total];
    assert Summarizes(e.percentiles[f.total], times);
    PercentileIsQuantile(times, 0.95, e.endToEnd.p95);
    PercentileUnderIff(times, 0.95, SLA_MS);
  }

  lemma ModeVerdict(f: Fields, e: ModeEvidence)
    requires ModeTrue(f, e, MEASURED)
    ensures f.total in e.samples
    ensures Fast(f, e.samples) <==> ModePasses(f, e, MEASURED)
    ensures !Fast(f, e.samples) <==> ModeMissesSla(f, e, MEASURED)
  {
    hide Fast, MeasurementsTrue, DominantTrue;
    FastIff(f, e);
  }

  /** Among modes that each pass or miss the limit, a mode that misses is preceded by a first one. */
  lemma {:induction false} FirstMiss(f: Fields, rec: Record, n: nat)
    requires n <= |f.modes| && Exactly(rec.modes, f.modes)
    requires forall mode :: mode in f.modes ==>
      ModePasses(f, rec.modes[mode], MEASURED) != ModeMissesSla(f, rec.modes[mode], MEASURED)
    ensures (forall mode :: mode in f.modes[..n] ==> ModePasses(f, rec.modes[mode], MEASURED))
         || exists k :: 0 <= k < n && ModeMissesSla(f, rec.modes[f.modes[k]], MEASURED)
                        && forall mode :: mode in f.modes[..k] ==> ModePasses(f, rec.modes[mode], MEASURED)
  {
    hide ModePasses, ModeMissesSla;
    if n > 0 {
      FirstMiss(f, rec, n - 1);
      assert f.modes[..n] == f.modes[..n - 1] + [f.modes[n - 1]];
    }
  }

  lemma EachOrFirst(f: Fields, rec: Record)
    requires HeaderValid(f, rec)
    requires forall mode :: mode in f.modes ==> ModeTrue(f, rec.modes[mode], MEASURED)
    ensures forall mode :: mode in f.modes ==>
      && f.total in rec.modes[mode].samples
      && (Fast(f, rec.modes[mode].samples) <==> ModePasses(f, rec.modes[mode], MEASURED))
    ensures (forall mode :: mode in f.modes ==> ModePasses(f, rec.modes[mode], MEASURED))
       <==> !MissesSla(f, rec)
  {
    hide Fast, ModeTrue, ModePasses, ModeMissesSla;
    forall mode | mode in f.modes
      ensures f.total in rec.modes[mode].samples
      ensures Fast(f, rec.modes[mode].samples) <==> ModePasses(f, rec.modes[mode], MEASURED)
      ensures ModePasses(f, rec.modes[mode], MEASURED) != ModeMissesSla(f, rec.modes[mode], MEASURED)
    {
      ModeVerdict(f, rec.modes[mode]);
    }
    FirstMiss(f, rec, |f.modes|);
    assert f.modes[..|f.modes|] == f.modes;
  }

  /** On a record the builder made, with the unmeasured sections valid, verification accepts exactly
      when both modes are fast, and the only other verdict is the missed SLA. */
  lemma BuilderVerifierAgree(f: Fields, rec: Record, sections: Sections,
                             phaseSamples: map<string, Samples>, callSamples: map<string, Calls>)
    requires Carries(f, rec, sections, phaseSamples, callSamples) && OpeningValid(sections)
    ensures Passes(f, rec) <==> sections.incremental && AllFast(f, phaseSamples)
    ensures MissesSla(f, rec) <==> !AllFast(f, phaseSamples)
  {
    hide Fast, ModeTrue, ModePasses, MissesSla;
    EachOrFirst(f, rec);
  }

  // ----- which file the run leaves -----

  datatype Outcome =
    | PassFile(rec: Record)
    | NonpassFile(modes: map<string, ModeEvidence>)
    | Raised(fault: Fault)

  /** The end of _run_verified_live: build, verify, and write pass-measurement.json,
      nonpass-measurement.json or nothing. */
  method Conclude(f: Fields, sections: Sections, warmup: int, measured: int,
                  phaseSamples: map<string, Samples>, callSamples: map<string, Calls>)
    returns (outcome: Outcome)
    requires f.parts != []
    ensures outcome.PassFile? <==>
      && OpeningValid(sections) && sections.incremental
      && Usable(f, warmup, measured, phaseSamples, callSamples) && AllFast(f, phaseSamples)
    ensures outcome.NonpassFile? <==>
      && OpeningValid(sections)
      && Usable(f, warmup, measured, phaseSamples, callSamples) && !AllFast(f, phaseSamples)
    ensures outcome.PassFile? ==> Carries(f, outcome.rec, sections, phaseSamples, callSamples)
    ensures outcome.NonpassFile? ==>
      Carries(f, Record(sections, WARMUP, MEASURED, outcome.modes), sections, phaseSamples, callSamples)
  {
    hide AllFast, Usable, ModeTrue, ModePasses, ModeMissesSla;
    var candidate := Build(f, sections, warmup, measured, phaseSamples, callSamples);
    if candidate.Err? {
      return Raised(candidate.error);
    }
    assert candidate.value == Record(sections, WARMUP, MEASURED, candidate.value.modes);
    var fault := Verify(f, candidate.value);
    if OpeningValid(sections) {
      BuilderVerifierAgree(f, candidate.value, sections, phaseSamples, callSamples);
    }
    match fault
    case None => outcome := PassFile(candidate.value);
    case Some(SlaFault) => outcome := NonpassFile(candidate.value.modes);
    case Some(other) => outcome := Raised(other);
  }
}
