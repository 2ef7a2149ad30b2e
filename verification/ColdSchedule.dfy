/** The counterbalanced cold schedule and its crash-resumable execution
    (tools/minimal_worker_reload_benchmark.py, build_cold_schedule, _checkpoint_configuration,
    pending_cold_samples and run_cold_parent_schedule). */
module ColdSchedule {
  import opened Wrappers

  datatype Mode = Main | Capture

  datatype Request = Request(sequence: nat, mode: Mode, ordinal: nat)

  /** Mode order within a pair: MAIN first in even pairs, CAPTURE first in odd ones. */
  function PairOrder(pair: nat): seq<Mode> { if pair % 2 == 0 then [Main, Capture] else [Capture, Main] }

  function Schedule(reloads: nat): (s: seq<Request>)
    ensures |s| == 2 * reloads
  {
    if reloads == 0 then []
    else
      var k := reloads - 1;
      Schedule(k) + [Request(2 * k + 1, PairOrder(k)[0], reloads), Request(2 * k + 2, PairOrder(k)[1], reloads)]
  }

  /** Builds the schedule, refusing a non-positive count and any other mode list. */
  method BuildColdSchedule(reloads: int, modes: seq<Mode>) returns (r: Option<seq<Request>>)
    ensures r == if reloads <= 0 || modes != [Main, Capture] then None else Some(Schedule(reloads))
  {
    if reloads <= 0 || modes != [Main, Capture] { return None; }
    var schedule: seq<Request>, sequence := [], 0;
    for pair := 0 to reloads
      invariant sequence == 2 * pair && schedule == Schedule(pair)
    {
      var order := if pair % 2 == 0 then modes else [modes[1], modes[0]];
      ghost var before := schedule;
      for i := 0 to 2
        invariant sequence == 2 * pair + i
        invariant schedule
               == before + [Request(2 * pair + 1, order[0], pair + 1), Request(2 * pair + 2, order[1], pair + 1)][..i]
      {
        sequence := sequence + 1;
        schedule := schedule + [Request(sequence, order[i], pair + 1)];
      }
    }
    return Some(schedule);
  }

  /** What stands at each position. */
  lemma {:induction false} RequestAt(reloads: nat, i: nat)
    requires i < 2 * reloads
    ensures Schedule(reloads)[i] == Request(i + 1, PairOrder(i / 2)[i % 2], i / 2 + 1)
  {
    if i < 2 * (reloads - 1) { RequestAt(reloads - 1, i); }
  }

  /** Each mode and ordinal from 1 to n stands at exactly one position. */
  lemma EachSampleOnce(reloads: nat, mode: Mode, ordinal: nat)
    requires 1 <= ordinal <= reloads
    ensures exists i :: 0 <= i < 2 * reloads && Schedule(reloads)[i] == Request(i + 1, mode, ordinal)
              && forall j :: 0 <= j < 2 * reloads && j != i ==>
                   !(Schedule(reloads)[j].mode == mode && Schedule(reloads)[j].ordinal == ordinal)
  {
    var first := 2 * (ordinal - 1);
    var i := if PairOrder(ordinal - 1)[0] == mode then first else first + 1;
    RequestAt(reloads, i);
    forall j | 0 <= j < 2 * reloads && Schedule(reloads)[j].mode == mode && Schedule(reloads)[j].ordinal == ordinal
      ensures j == i
    {
      RequestAt(reloads, j);
    }
  }

  /** Positions taken by MAIN minus positions taken by CAPTURE, over the first requests. */
  function Imbalance(s: seq<Request>): int {
    if s == [] then 0
    else
      var last := s[|s| - 1];
      Imbalance(s[..|s| - 1]) + if last.mode == Main then last.sequence else -(last.sequence as int)
  }

  lemma HalfParity(i: nat)
    ensures (i / 2) % 2 == (i % 4) / 2 && i % 2 == (i % 4) % 2
  {
    var q := i / 4;
    match i % 4
    case 0 => HalfIs(i, 2 * q, 0);
    case 1 => HalfIs(i, 2 * q, 1);
    case 2 => HalfIs(i, 2 * q + 1, 0);
    case _ => HalfIs(i, 2 * q + 1, 1);
  }

  lemma HalfIs(i: nat, half: nat, rest: nat)
    requires i == 2 * half + rest && rest < 2
    ensures i / 2 == half && i % 2 == rest
  {
  }

  lemma {:induction false} PreviousQuarter(k: nat)
    requires k > 0
    ensures (k - 1) % 4 == if k % 4 == 0 then 3 else k % 4 - 1
  {
    if k > 4 {
      PreviousQuarter(k - 4);
      assert k % 4 == (k - 4) % 4 && (k - 1) % 4 == (k - 5) % 4;
    }
  }

  lemma ModeAt(reloads: nat, i: nat)
    requires i < 2 * reloads
    ensures Schedule(reloads)[i].sequence == i + 1
    ensures Schedule(reloads)[i].mode == if i % 4 == 0 || i % 4 == 3 then Main else Capture
  {
    hide Schedule;
    RequestAt(reloads, i);
    HalfParity(i);
  }

  /** The exact imbalance at every cut: none after a whole number of AB/BA quadruples, -1 after an
      odd number of pairs; inside a pair it is the size of the cut, with one more against MAIN. */
  lemma {:induction false} ImbalanceAt(reloads: nat, k: nat)
    requires k <= 2 * reloads
    ensures Imbalance(Schedule(reloads)[..k]) ==
              match k % 4 case 0 => 0 case 1 => k case 2 => -1 case _ => -(k as int + 1)
  {
    hide Schedule;
    if k > 0 {
      var cut := Schedule(reloads)[..k];
      assert cut[..k - 1] == Schedule(reloads)[..k - 1];
      ModeAt(reloads, k - 1);
      PreviousQuarter(k);
      ImbalanceAt(reloads, k - 1);
    }
  }

  /** Over the whole schedule the modes' position sums differ by 0 for an even count, by 1 for an odd one. */
  lemma Counterbalanced(reloads: nat)
    ensures Imbalance(Schedule(reloads)) == if reloads % 2 == 0 then 0 else -1
  {
    hide Schedule;
    ImbalanceAt(reloads, 2 * reloads);
    HalfParity(2 * reloads);
    assert Schedule(reloads)[..2 * reloads] == Schedule(reloads);
  }

  // ----- the configuration read back from a schedule -----

  function MaxOrdinal(s: seq<Request>): nat {
    if s == [] then 0
    else
      var m := MaxOrdinal(s[..|s| - 1]);
      if s[|s| - 1].ordinal > m then s[|s| - 1].ordinal else m
  }

  /** The modes in order of first appearance. */
  function ModesSeen(s: seq<Request>): seq<Mode> {
    if s == [] then []
    else
      var seen := ModesSeen(s[..|s| - 1]);
      if s[|s| - 1].mode in seen then seen else seen + [s[|s| - 1].mode]
  }

  lemma SeenStep(s: seq<Request>, r: Request)
    ensures ModesSeen(s + [r]) == if r.mode in ModesSeen(s) then ModesSeen(s) else ModesSeen(s) + [r.mode]
    ensures MaxOrdinal(s + [r]) == if r.ordinal > MaxOrdinal(s) then r.ordinal else MaxOrdinal(s)
  {
    assert (s + [r])[..|s|] == s;
  }

  lemma EveryMode(m: Mode)
    ensures m in [Main, Capture]
  {
    assert [Main, Capture][0] == Main && [Main, Capture][1] == Capture;
  }

  datatype Configuration = Configuration(reloads: nat, modes: seq<Mode>, reference: string, implementation: string)

  function CheckpointConfiguration(s: seq<Request>, reference: string, implementation: string): Option<Configuration> {
    if s == [] then None else Some(Configuration(MaxOrdinal(s), ModesSeen(s), reference, implementation))
  }

  lemma NothingSeen()
    ensures ModesSeen([]) == [] && MaxOrdinal([]) == 0
  {
  }

  lemma {:induction false} SeenInSchedule(reloads: nat)
    requires reloads > 0
    ensures ModesSeen(Schedule(reloads)) == [Main, Capture] && MaxOrdinal(Schedule(reloads)) == reloads
  {
    hide ModesSeen, MaxOrdinal;
    NothingSeen();
    var k := reloads - 1;
    var before := Schedule(k);
    var a, b := Request(2 * k + 1, PairOrder(k)[0], reloads), Request(2 * k + 2, PairOrder(k)[1], reloads);
    assert Schedule(reloads) == before + [a] + [b];
    SeenStep(before, a);
    SeenStep(before + [a], b);
    if k > 0 {
      SeenInSchedule(k);
      EveryMode(a.mode);
      EveryMode(b.mode);
    } else {
      assert a.mode == Main && b.mode == Capture && [] + [Main] + [Capture] == [Main, Capture];
    }
  }

  /** The configuration of a built schedule is the one it was built from. */
  lemma ConfigurationRecovers(reloads: nat, reference: string, implementation: string)
    requires reloads > 0
    ensures CheckpointConfiguration(Schedule(reloads), reference, implementation)
         == Some(Configuration(reloads, [Main, Capture], reference, implementation))
  {
    SeenInSchedule(reloads);
  }

  // ----- running and resuming -----

  datatype Sample = Sample(sequence: nat, mode: Mode, ordinal: nat, warmup: bool, identity: string,
                           reference: string, implementation: string, databaseStable: bool)

  datatype Checkpoint = Checkpoint(configuration: Configuration, samples: seq<Sample>)

  datatype RunError = EmptySchedule | ConfigurationMismatch | SampleMismatch | IdentityReused | ChildFailed | Crashed

  /** A sample answers a request under a configuration. */
  predicate Answers(sample: Sample, r: Request, c: Configuration) {
    && sample.sequence == r.sequence && sample.mode == r.mode && sample.ordinal == r.ordinal && !sample.warmup
    && IsHash(sample.identity) && sample.reference == c.reference && sample.implementation == c.implementation
    && sample.databaseStable
  }

  predicate AllAnswer(samples: seq<Sample>, s: seq<Request>, c: Configuration) {
    |samples| <= |s| && forall i :: 0 <= i < |samples| ==> Answers(samples[i], s[i], c)
  }

  ghost predicate FreshIdentities(samples: seq<Sample>) {
    forall i, j :: 0 <= i < j < |samples| ==> samples[i].identity != samples[j].identity
  }

  function Identities(samples: seq<Sample>): set<string> { set i | 0 <= i < |samples| :: samples[i].identity }

  /** The requests still to run, if the checkpoint belongs to this schedule. */
  function PendingColdSamples(s: seq<Request>, checkpoint: Checkpoint, reference: string,
                              implementation: string): Result<seq<Request>, RunError>
  {
    match CheckpointConfiguration(s, reference, implementation)
    case None => Err(EmptySchedule)
    case Some(c) =>
      if checkpoint.configuration != c then Err(ConfigurationMismatch)
      else if !AllAnswer(checkpoint.samples, s, c) then Err(SampleMismatch)
      else Ok(s[|checkpoint.samples|..])
  }

  /** A sample belongs at position `i` of a built schedule. */
  ghost predicate BelongsAt(sample: Sample, i: nat, reference: string, implementation: string) {
    && sample.sequence == i + 1 && sample.mode == (if i % 4 == 0 || i % 4 == 3 then Main else Capture)
    && sample.ordinal == i / 2 + 1 && !sample.warmup && IsHash(sample.identity)
    && sample.reference == reference && sample.implementation == implementation && sample.databaseStable
  }

  lemma AnswersIff(reloads: nat, i: nat, sample: Sample, reference: string, implementation: string)
    requires i < 2 * reloads
    ensures Answers(sample, Schedule(reloads)[i], Configuration(reloads, [Main, Capture], reference, implementation))
       <==> BelongsAt(sample, i, reference, implementation)
  {
    hide Schedule, IsHash;
    RequestAt(reloads, i);
    ModeAt(reloads, i);
  }

  /** Which checkpoints a built schedule resumes from: those of its own configuration whose samples belong,
      one by one, at the first positions. The rest of the schedule is then pending. */
  lemma ResumesIff(reloads: nat, file: Checkpoint, reference: string, implementation: string)
    requires reloads > 0
    ensures PendingColdSamples(Schedule(reloads), file, reference, implementation).Ok? <==>
              && file.configuration == Configuration(reloads, [Main, Capture], reference, implementation)
              && |file.samples| <= 2 * reloads
              && forall i :: 0 <= i < |file.samples| ==> BelongsAt(file.samples[i], i, reference, implementation)
    ensures PendingColdSamples(Schedule(reloads), file, reference, implementation).Ok? ==>
              PendingColdSamples(Schedule(reloads), file, reference, implementation).value
              == Schedule(reloads)[|file.samples|..]
  {
    hide Schedule, Answers, BelongsAt, CheckpointConfiguration;
    ConfigurationRecovers(reloads, reference, implementation);
    forall i | 0 <= i < |file.samples| && i < 2 * reloads
      ensures Answers(file.samples[i], Schedule(reloads)[i],
                      Configuration(reloads, [Main, Capture], reference, implementation))
         <==> BelongsAt(file.samples[i], i, reference, implementation)
    {
      AnswersIff(reloads, i, file.samples[i], reference, implementation);
    }
  }

  /** What child processes do: a sample, or None where the child fails, given the samples already
      stored. The budget is how many samples can be stored before the parent is killed. */
  type Spawner = (seq<Sample>, Request) -> Option<Sample>

  /** The samples stored by one run that starts from `samples`, and how it ends. */
  function Extend(s: seq<Request>, c: Configuration, samples: seq<Sample>, spawn: Spawner,
                  budget: nat): (seq<Sample>, Option<RunError>)
    decreases |s| - |samples|
  {
    if |samples| >= |s| then (samples, None)
    else if budget == 0 then (samples, Some(Crashed))
    else
      match spawn(samples, s[|samples|])
      case None => (samples, Some(ChildFailed))
      case Some(sample) =>
        if !Answers(sample, s[|samples|], c) then (samples, Some(SampleMismatch))
        else if sample.identity in Identities(samples) then (samples, Some(IdentityReused))
        else Extend(s, c, samples + [sample], spawn, budget - 1)
  }

  /** The stored checkpoint after one run. */
  function Stored(s: seq<Request>, c: Configuration, file: Option<Checkpoint>, spawn: Spawner,
                  budget: nat): Option<Checkpoint>
  {
    var start := if file.Some? then file.value.samples else [];
    var samples := Extend(s, c, start, spawn, budget).0;
    if samples == start then file else Some(Checkpoint(c, samples))
  }

  class CheckpointFile {
    var content: Option<Checkpoint>

    constructor ()
      ensures content == None
    {
      content := None;
    }

    /** Runs or resumes the schedule, storing the checkpoint after every fresh sample. */
    method RunColdParentSchedule(s: seq<Request>, spawn: Spawner, budget: nat, reference: string,
                                 implementation: string)
        returns (r: Result<Checkpoint, RunError>)
      modifies this
      ensures s == [] ==> r == Err(EmptySchedule) && content == old(content)
      ensures s != [] ==>
                var c := CheckpointConfiguration(s, reference, implementation).value;
                if old(content).Some? && PendingColdSamples(s, old(content).value, reference, implementation).Err?
                then r.Err? && r.error == PendingColdSamples(s, old(content).value, reference, implementation).error
                    && content == old(content)
                else
                  var start := if old(content).Some? then old(content).value.samples else [];
                  var (samples, error) := Extend(s, c, start, spawn, budget);
                  && content == Stored(s, c, old(content), spawn, budget)
                  && r == if error.Some? then Err(error.value) else Ok(Checkpoint(c, samples))
    {
      var configuration := CheckpointConfiguration(s, reference, implementation);
      if configuration.None? { return Err(EmptySchedule); }
      var c, samples, pending := configuration.value, [], s;
      if content.Some? {
        var left := PendingColdSamples(s, content.value, reference, implementation);
        if left.Err? { return Err(left.error); }
        samples, pending := content.value.samples, left.value;
      }
      ghost var start := samples;
      var identities := set i | 0 <= i < |samples| :: samples[i].identity;
      var left := budget;
      while pending != []
        invariant |samples| <= |s| && pending == s[|samples|..] && identities == Identities(samples)
        invariant Extend(s, c, start, spawn, budget) == Extend(s, c, samples, spawn, left)
        invariant |start| <= |samples| && (samples == start ==> content == old(content))
        invariant samples != start ==> content == Some(Checkpoint(c, samples))
        decreases |pending|
      {
        var request := pending[0];
        if left == 0 { return Err(Crashed); }
        var spawned := spawn(samples, request);
        if spawned.None? { return Err(ChildFailed); }
        var sample := spawned.value;
        if !Answers(sample, request, c) { return Err(SampleMismatch); }
        if sample.identity in identities { return Err(IdentityReused); }
        IdentitiesStep(samples, sample);
        identities, samples := identities + {sample.identity}, samples + [sample];
        content := Some(Checkpoint(c, samples));
        pending, left := pending[1..], left - 1;
      }
      r := Ok(Checkpoint(c, samples));
    }
  }

  lemma IdentitiesStep(samples: seq<Sample>, sample: Sample)
    ensures Identities(samples + [sample]) == Identities(samples) + {sample.identity}
  {
    var after := samples + [sample];
    forall x ensures x in Identities(after) <==> x in Identities(samples) + {sample.identity} {
      if x in Identities(samples) {
        var i :| 0 <= i < |samples| && samples[i].identity == x;
        assert after[i].identity == x;
      }
      if x == sample.identity { assert after[|samples|].identity == x; }
    }
  }

  // ----- any number of crashes and resumes -----

  datatype Session = Session(spawn: Spawner, budget: nat)

  /** The file after a number of sessions, none of which saw another schedule. */
  function AfterSessions(s: seq<Request>, c: Configuration, sessions: seq<Session>): Option<Checkpoint> {
    if sessions == [] then None
    else
      var last := sessions[|sessions| - 1];
      Stored(s, c, AfterSessions(s, c, sessions[..|sessions| - 1]), last.spawn, last.budget)
  }

  ghost predicate Sound(s: seq<Request>, c: Configuration, samples: seq<Sample>) {
    AllAnswer(samples, s, c) && FreshIdentities(samples)
  }

  lemma {:induction false} ExtendSound(s: seq<Request>, c: Configuration, samples: seq<Sample>, spawn: Spawner,
                                       budget: nat)
    requires Sound(s, c, samples)
    ensures var (after, error) := Extend(s, c, samples, spawn, budget);
            && Sound(s, c, after) && samples <= after && (error.None? ==> |after| == |s|)
    decreases |s| - |samples|
  {
    if |samples| < |s| && budget > 0 {
      var spawned := spawn(samples, s[|samples|]);
      if spawned.Some? && Answers(spawned.value, s[|samples|], c) && spawned.value.identity !in Identities(samples) {
        forall i | 0 <= i < |samples| ensures samples[i].identity != spawned.value.identity {
          assert samples[i].identity in Identities(samples);
        }
        ExtendSound(s, c, samples + [spawned.value], spawn, budget - 1);
      }
    }
  }

  /** From no checkpoint, after any crashes and resumes with any children, the stored samples
      answer the schedule prefix one by one with pairwise different processes, and the next
      resume accepts them. */
  lemma {:induction false} ResumesStaySound(s: seq<Request>, reference: string, implementation: string,
                                            sessions: seq<Session>)
    requires s != []
    ensures var c := CheckpointConfiguration(s, reference, implementation).value;
            var file := AfterSessions(s, c, sessions);
            file.Some? ==>
              && Sound(s, c, file.value.samples)
              && PendingColdSamples(s, file.value, reference, implementation) == Ok(s[|file.value.samples|..])
  {
    var c := CheckpointConfiguration(s, reference, implementation).value;
    if sessions != [] {
      var before, last := sessions[..|sessions| - 1], sessions[|sessions| - 1];
      ResumesStaySound(s, reference, implementation, before);
      var file := AfterSessions(s, c, before);
      ExtendSound(s, c, if file.Some? then file.value.samples else [], last.spawn, last.budget);
    }
  }

  /** Children that answer every request in a process of their own. */
  ghost predicate Honest(s: seq<Request>, c: Configuration, spawn: Spawner) {
    forall samples: seq<Sample> :: AllAnswer(samples, s, c) && |samples| < |s| ==>
      var spawned := spawn(samples, s[|samples|]);
      spawned.Some? && Answers(spawned.value, s[|samples|], c) && spawned.value.identity !in Identities(samples)
  }

  /** With them a run stores as many samples as its budget allows, and the whole schedule if it lives long
      enough. */
  lemma {:induction false} HonestCompletes(s: seq<Request>, c: Configuration, samples: seq<Sample>, spawn: Spawner,
                                           budget: nat)
    requires AllAnswer(samples, s, c) && Honest(s, c, spawn)
    ensures var (after, error) := Extend(s, c, samples, spawn, budget);
            && |after| == (if |samples| + budget < |s| then |samples| + budget else |s|)
            && error == (if |samples| + budget < |s| then Some(Crashed) else None)
    decreases |s| - |samples|
  {
    hide Answers, Identities;
    if |samples| < |s| && budget > 0 {
      var spawned := spawn(samples, s[|samples|]);
      HonestCompletes(s, c, samples + [spawned.value], spawn, budget - 1);
    }
  }

  /** With children that depend on the stored prefix alone, a crash and a resume get exactly as
      far as one run with the combined budget. */
  lemma {:induction false} ExtendTwice(s: seq<Request>, c: Configuration, samples: seq<Sample>, spawn: Spawner,
                                       first: nat, second: nat)
    ensures Extend(s, c, Extend(s, c, samples, spawn, first).0, spawn, second).0
        == Extend(s, c, samples, spawn, first + second).0
    decreases |s| - |samples|
  {
    hide Answers, Identities;
    if |samples| < |s| && first > 0 {
      var spawned := spawn(samples, s[|samples|]);
      if spawned.Some? && Answers(spawned.value, s[|samples|], c) && spawned.value.identity !in Identities(samples) {
        ExtendTwice(s, c, samples + [spawned.value], spawn, first - 1, second);
      }
    }
  }

  /** A run that completes is the run that was never interrupted. */
  lemma {:induction false} CompleteIsUninterrupted(s: seq<Request>, c: Configuration, samples: seq<Sample>,
                                                   spawn: Spawner, budget: nat, enough: nat)
    requires |samples| <= |s| && |Extend(s, c, samples, spawn, budget).0| == |s| && enough >= |s| - |samples|
    ensures Extend(s, c, samples, spawn, enough) == (Extend(s, c, samples, spawn, budget).0, None)
    decreases |s| - |samples|
  {
    hide Answers, Identities;
    if |samples| < |s| {
      var spawned := spawn(samples, s[|samples|]);
      CompleteIsUninterrupted(s, c, samples + [spawned.value], spawn, budget - 1, enough - 1);
    }
  }

  function Budget(sessions: seq<Session>): nat {
    if sessions == [] then 0 else Budget(sessions[..|sessions| - 1]) + sessions[|sessions| - 1].budget
  }

  function SamplesOf(file: Option<Checkpoint>): seq<Sample> { if file.Some? then file.value.samples else [] }

  /** Any pattern of crashes and resumes stores what one run would have stored; once complete,
      that is the result of an uninterrupted run. */
  lemma {:induction false} ResumesEqualOneRun(s: seq<Request>, c: Configuration, sessions: seq<Session>, spawn: Spawner)
    requires forall k :: 0 <= k < |sessions| ==> sessions[k].spawn == spawn
    ensures SamplesOf(AfterSessions(s, c, sessions)) == Extend(s, c, [], spawn, Budget(sessions)).0
    ensures |SamplesOf(AfterSessions(s, c, sessions))| == |s| ==>
              Extend(s, c, [], spawn, |s|) == (SamplesOf(AfterSessions(s, c, sessions)), None)
  {
    hide Extend;
    if sessions == [] {
      NoBudget(s, c, spawn);
    } else {
      var before, last := sessions[..|sessions| - 1], sessions[|sessions| - 1];
      ResumesEqualOneRun(s, c, before, spawn);
      ExtendTwice(s, c, [], spawn, Budget(before), last.budget);
    }
    if |SamplesOf(AfterSessions(s, c, sessions))| == |s| {
      CompleteIsUninterrupted(s, c, [], spawn, Budget(sessions), |s|);
    }
  }

  lemma NoBudget(s: seq<Request>, c: Configuration, spawn: Spawner)
    ensures Extend(s, c, [], spawn, 0).0 == []
  {
  }

  /** The stored processes end up distinct exactly when those of the starting checkpoint were. */
  lemma DistinctIffStartDistinct(s: seq<Request>, c: Configuration, samples: seq<Sample>, spawn: Spawner, budget: nat)
    requires AllAnswer(samples, s, c)
    ensures FreshIdentities(Extend(s, c, samples, spawn, budget).0) <==> FreshIdentities(samples)
  {
    if FreshIdentities(samples) { ExtendSound(s, c, samples, spawn, budget); }
    ExtendPrefix(s, c, samples, spawn, budget);
    var after := Extend(s, c, samples, spawn, budget).0;
    if FreshIdentities(after) {
      forall i, j | 0 <= i < j < |samples| ensures samples[i].identity != samples[j].identity {
        assert after[i] == samples[i] && after[j] == samples[j];
      }
    }
  }

  lemma {:induction false} ExtendPrefix(s: seq<Request>, c: Configuration, samples: seq<Sample>, spawn: Spawner,
                                        budget: nat)
    ensures samples <= Extend(s, c, samples, spawn, budget).0
    decreases |s| - |samples|
  {
    hide Answers, Identities;
    if |samples| < |s| && budget > 0 {
      var spawned := spawn(samples, s[|samples|]);
      if spawned.Some? { ExtendPrefix(s, c, samples + [spawned.value], spawn, budget - 1); }
    }
  }

  /** Only a fresh start guarantees distinct processes: a checkpoint from elsewhere that repeats
      an identity is accepted. */
  lemma ForeignCheckpointMayRepeat(identity: string) returns (s: seq<Request>, file: Checkpoint)
    requires IsHash(identity)
    ensures PendingColdSamples(s, file, "", "").Ok? && !FreshIdentities(file.samples)
  {
    s := Schedule(1);
    ConfigurationRecovers(1, "", "");
    var a, b := Sample(1, Main, 1, false, identity, "", "", true), Sample(2, Capture, 1, false, identity, "", "", true);
    file := Checkpoint(Configuration(1, [Main, Capture], "", ""), [a, b]);
    RequestAt(1, 0);
    RequestAt(1, 1);
    assert file.samples[0].identity == file.samples[1].identity;
  }
}
