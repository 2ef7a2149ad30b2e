/** The bounded failure log of the measurement tool (tools/check_jupyter_lsp_zup.py,
    FailureEvidence). A failure item is a Python dictionary with JSON values. */
module MeasurementFailures {
  import opened Wrappers
  import opened CanonicalJson

  type Item = map<string, Json>

  const BOUND := 6
  const MEASUREMENT := "MeasurementAdmissionError"
  const CANCELLED := "CancelledError"

  predicate KnownPhase(s: string) {
    s in
    {"admission", "startup", "handshake", "runtime-identity", "pairs", "canary",
     "arm-prepare", "arm-check-before", "arm-load", "arm-check-after", "handle-release",
     "arm-close", "session-close", "private-setup", "private-cleanup", "source-verification",
     "identity-verification", "process-verification", "readmission", "summary"}
  }

  predicate KnownType(s: string) {
    s in
    {MEASUREMENT, CANCELLED, "TimeoutError", "OSError", "ValueError", "RuntimeError", "AssertionError"}
  }

  predicate KnownCode(s: string) {
    s in
    {"lsp-binary-unavailable", "lsp-binary-identity-mismatch",
     "initial-progress-invalid", "initial-index-identity-changed", "initial-index-timeout",
     "initial-index-unconfirmed", "lsp-degraded", "lsp-child-replaced",
     "representative-request-failed", "project-configuration-unavailable",
     "project-root-unavailable", "lsp-child-unavailable", "representative-completion-unavailable",
     "representative-definition-unavailable", "disabled-arm-has-lsp-resources",
     "enabled-arm-not-prepared", "enabled-arm-resource-count", "lsp-resource-cleanup-failed",
     "lsp-owned-process-survived", "manual-handshake-incompatible", "measurement-samples-incomplete",
     "measurement-duration-invalid", "native-initial-index-proof-incompatible",
     "native-initial-index-proof-incomplete", "all-layout-protocol-proof-incompatible",
     "live-opt-in-required", "representative-disk-method-unavailable",
     "runtime-target-identity-failed", "runtime-identity-or-cleanup-failed"}
  }

  predicate DiagnosticAllows(key: string, value: string) {
    || (key == "role" && value in {"root", "descendant"})
    || (key == "identity" && value in {"matched", "changed", "unavailable"})
    || (key == "execution" && value in {"terminated", "running", "unknown"})
    || (key == "handle_close" && value in {"closed", "failed", "not-opened"})
  }

  /** An allowed text under `key`, or the fallback. */
  function Selected(item: Item, key: string, allowed: string -> bool, fallback: string): Json {
    if key in item && item[key].Str? && allowed(item[key].s) then item[key] else Str(fallback)
  }

  predicate PlaceOk(pair: Option<Json>, enabled: Option<Json>) {
    pair.Some? && pair.value.Num? && 0 <= pair.value.n < 23 && enabled.Some? && enabled.value.Bool?
  }

  predicate DiagnosticOk(v: Json) {
    && v.Obj? && |v.fields| == 4
    && (set f | f in v.fields :: f.key) == {"role", "identity", "execution", "handle_close"}
    && forall f :: f in v.fields ==> f.value.Str? && DiagnosticAllows(f.key, f.value.s)
  }

  /** The item cut down to its published keys and values. */
  function Bounded(item: Item): Item {
    var clean := map["phase" := Selected(item, "phase", KnownPhase, "unknown"),
                     "type" := Selected(item, "type", KnownType, "Exception"),
                     "code" := Selected(item, "code", KnownCode, "unclassified")];
    var placed :=
      if PlaceOk(At(item, "pair"), At(item, "enabled"))
      then clean["pair" := item["pair"]]["enabled" := item["enabled"]]["warmup" := Bool(item["pair"].n < 3)]
      else clean;
    if clean["phase"] == Str("arm-close") && clean["type"] == Str(MEASUREMENT)
       && clean["code"] == Str("lsp-owned-process-survived")
       && "process_diagnostic" in item && DiagnosticOk(item["process_diagnostic"])
    then placed["process_diagnostic" := item["process_diagnostic"]]
    else placed
  }

  lemma SelectedTwice(item: Item, again: Item, key: string, allowed: string -> bool, fallback: string)
    requires key in again && again[key] == Selected(item, key, allowed, fallback)
    ensures Selected(again, key, allowed, fallback) == Selected(item, key, allowed, fallback)
  {
  }

  /** Bounding a bounded item changes nothing, so publishing the log does not alter it. */
  lemma BoundedTwice(item: Item)
    ensures Bounded(Bounded(item)) == Bounded(item)
  {
    hide DiagnosticOk, KnownPhase, KnownType, KnownCode, Selected;
    var again := Bounded(item);
    SelectedTwice(item, again, "phase", KnownPhase, "unknown");
    SelectedTwice(item, again, "type", KnownType, "Exception");
    SelectedTwice(item, again, "code", KnownCode, "unclassified");
  }

  /** Which text an item publishes under a key: its own if that is allowed, else the fallback. */
  ghost predicate Publishes(item: Item, key: string, allowed: string -> bool, fallback: string, v: Json) {
    if key in item && item[key].Str? && allowed(item[key].s) then v == item[key] else v == Str(fallback)
  }

  /** What bounding keeps of an item: allowed texts, a full place with the warm-up flag of its pair, and the
      diagnostic of a surviving process. */
  lemma BoundedIs(item: Item)
    ensures var b := Bounded(item);
            && {"phase", "type", "code"} <= b.Keys
            && b.Keys <= {"phase", "type", "code", "pair", "enabled", "warmup", "process_diagnostic"}
            && Publishes(item, "phase", KnownPhase, "unknown", b["phase"])
            && Publishes(item, "type", KnownType, "Exception", b["type"])
            && Publishes(item, "code", KnownCode, "unclassified", b["code"])
    ensures var b := Bounded(item);
            && ("pair" in b <==> "enabled" in b) && ("pair" in b <==> "warmup" in b)
            && ("pair" in b <==> "pair" in item && item["pair"].Num? && 0 <= item["pair"].n < 23
                                 && "enabled" in item && item["enabled"].Bool?)
            && ("pair" in b ==> b["pair"] == item["pair"] && b["enabled"] == item["enabled"]
                                && b["warmup"] == Bool(item["pair"].n < 3))
    ensures var b := Bounded(item);
            && ("process_diagnostic" in b <==>
                  && b["phase"] == Str("arm-close") && b["type"] == Str("MeasurementAdmissionError")
                  && b["code"] == Str("lsp-owned-process-survived")
                  && "process_diagnostic" in item && DiagnosticOk(item["process_diagnostic"]))
            && ("process_diagnostic" in b ==> b["process_diagnostic"] == item["process_diagnostic"])
  {
    hide DiagnosticOk, KnownPhase, KnownType, KnownCode;
  }

  /** One failure as the unbounded log sees it: its bounded item, and whether it was a cancellation. */
  datatype Logged = Logged(item: Item, cancel: bool)

  function Items(log: seq<Logged>): (items: seq<Item>)
    ensures |items| == |log| && forall i :: 0 <= i < |log| ==> items[i] == log[i].item
  {
    seq(|log|, i requires 0 <= i < |log| => log[i].item)
  }

  function Firsts(log: seq<Logged>): seq<Logged> { if |log| <= BOUND then log else log[..BOUND] }

  ghost predicate AnyCancel(log: seq<Logged>) { exists i :: 0 <= i < |log| && log[i].cancel }

  ghost predicate AllBounded(log: seq<Logged>) {
    forall i {:trigger Bounded(log[i].item)} :: 0 <= i < |log| ==> Bounded(log[i].item) == log[i].item
  }

  /** An exception: the exact name of its type, whether it is a cancellation, its arguments,
      and the evidence objects that may hang on it. */
  datatype Error = Error(kind: string, isCancelled: bool, args: seq<Json>, diagnostic: Option<Json>,
                         nested: FailureEvidence?)

  /** The item a plain error is recorded as, before bounding. */
  function ErrorItem(error: Error, phase: string, pair: Option<int>, enabled: Option<bool>): Item {
    var code := if error.kind == MEASUREMENT && |error.args| == 1 && error.args[0].Str? && KnownCode(error.args[0].s)
                then error.args[0] else Str("unclassified");
    var item := map["phase" := if KnownPhase(phase) then Str(phase) else Str("unknown"),
                    "type" := Str(if KnownType(error.kind) then error.kind else "Exception"), "code" := code];
    var placed := if PlaceGiven(pair, enabled)
                  then item["pair" := Num(pair.value)]["enabled" := Bool(enabled.value)]
                           ["warmup" := Bool(pair.value < 3)]
                  else item;
    if error.kind == MEASUREMENT && error.diagnostic.Some? then placed["process_diagnostic" := error.diagnostic.value]
    else placed
  }

  predicate PlaceGiven(pair: Option<int>, enabled: Option<bool>) {
    pair.Some? && 0 <= pair.value < 23 && enabled.Some?
  }

  /** What a failure is published as: its phase and type if they are known, the code of a measurement error
      that has just a known one, and its place if it is given in full. */
  lemma RecordedAs(error: Error, phase: string, pair: Option<int>, enabled: Option<bool>)
    ensures var b := Bounded(ErrorItem(error, phase, pair, enabled));
            && {"phase", "type", "code"} <= b.Keys
            && b["phase"] == Str(if KnownPhase(phase) then phase else "unknown")
            && b["type"] == Str(if KnownType(error.kind) then error.kind else "Exception")
            && b["code"] == (if error.kind == "MeasurementAdmissionError" && |error.args| == 1 && error.args[0].Str?
                                && KnownCode(error.args[0].s)
                             then error.args[0] else Str("unclassified"))
    ensures var b := Bounded(ErrorItem(error, phase, pair, enabled));
            && ("pair" in b <==> pair.Some? && 0 <= pair.value < 23 && enabled.Some?)
            && ("pair" in b ==> "enabled" in b && "warmup" in b
                                && b["pair"] == Num(pair.value) && b["enabled"] == Bool(enabled.value)
                                && b["warmup"] == Bool(pair.value < 3))
  {
    hide DiagnosticOk, KnownPhase, KnownType, KnownCode, Bounded;
    BoundedIs(ErrorItem(error, phase, pair, enabled));
    FallbacksUnknown();
  }

  lemma FallbacksUnknown()
    ensures !KnownCode("unclassified")
  {
  }

  /** A merged item takes on the place of the arm it is merged into, unless it has one. */
  function Placed(item: Item, pair: Option<int>, enabled: Option<bool>): Item {
    if "pair" !in item && PlaceGiven(pair, enabled)
    then item["pair" := Num(pair.value)]["enabled" := Bool(enabled.value)] else item
  }

  /** What a merged item is published as: with the place of the arm at hand if it has none and that one is
      given in full, otherwise as it was. */
  lemma MergedAs(item: Item, pair: Option<int>, enabled: Option<bool>)
    ensures "pair" !in item && pair.Some? && 0 <= pair.value < 23 && enabled.Some? ==>
              var b := Bounded(Placed(item, pair, enabled));
              && "pair" in b && b["pair"] == Num(pair.value)
              && "enabled" in b && b["enabled"] == Bool(enabled.value)
              && "warmup" in b && b["warmup"] == Bool(pair.value < 3)
    ensures "pair" in item || pair.None? || !(0 <= pair.value < 23) || enabled.None? ==>
              Placed(item, pair, enabled) == item
  {
    hide DiagnosticOk, KnownPhase, KnownType, KnownCode, Bounded;
    BoundedIs(Placed(item, pair, enabled));
  }

  function PlacedLog(log: seq<Logged>, pair: Option<int>, enabled: Option<bool>): (placed: seq<Logged>)
    ensures |placed| == |log|
    ensures forall i :: 0 <= i < |log| ==>
        placed[i] == Logged(Bounded(Placed(log[i].item, pair, enabled)), log[i].cancel)
  {
    seq(|log|, i requires 0 <= i < |log| => Logged(Bounded(Placed(log[i].item, pair, enabled)), log[i].cancel))
  }

  class FailureEvidence {
    var entries: seq<Item>
    var overflow: bool
    var cancelled: bool
    /** Everything ever recorded, with nested logs spliced in. */
    ghost var log: seq<Logged>

    /** The fields are an exact bounded view of the log. */
    ghost predicate Valid()
      reads this
    {
      && entries == Items(Firsts(log))
      && (overflow <==> |log| > BOUND)
      && (cancelled <==> AnyCancel(log))
      && AllBounded(log)
    }

    constructor ()
      ensures Valid() && log == []
    {
      entries, overflow, cancelled, log := [], false, false, [];
    }

    /** An evidence in which the given failures have been recorded. */
    constructor After(log: seq<Logged>)
      requires AllBounded(log)
      ensures Valid() && this.log == log
    {
      entries, overflow := Items(Firsts(log)), |log| > BOUND;
      cancelled := exists i :: 0 <= i < |log| && log[i].cancel;
      this.log := log;
    }

    /** What recording `error` adds to the log of this evidence. */
    ghost function Recorded(error: Error, phase: string, pair: Option<int>, enabled: Option<bool>): seq<Logged>
      reads error.nested
    {
      if error.kind in {MEASUREMENT, CANCELLED} && error.nested != null then
        if error.nested == this then [] else PlacedLog(error.nested.log, pair, enabled)
      else [Logged(Bounded(ErrorItem(error, phase, pair, enabled)), error.isCancelled)]
    }

    method AppendItem(item: Item)
      modifies this`entries, this`overflow
      ensures if |old(entries)| < BOUND
              then entries == old(entries) + [Bounded(item)] && overflow == old(overflow)
              else entries == old(entries) && overflow
    {
      if |entries| < BOUND { entries := entries + [Bounded(item)]; } else { overflow := true; }
    }

    /** Splices the entries of another evidence in, placed at the arm at hand. */
    method Merge(nested: FailureEvidence, pair: Option<int>, enabled: Option<bool>)
      requires Valid() && nested.Valid() && nested != this
      modifies this
      ensures Valid() && log == old(log) + PlacedLog(nested.log, pair, enabled)
    {
      hide Bounded, Placed, AnyCancel, AllBounded;
      ghost var mine, theirs := log, nested.log;
      ghost var added := PlacedLog(Firsts(theirs), pair, enabled);
      var items := nested.entries;
      cancelled, overflow := cancelled || nested.cancelled, overflow || nested.overflow;
      FirstsMerge(mine, theirs, pair, enabled);
      AppendAll(items, pair, enabled, mine, added);
      log := mine + PlacedLog(theirs, pair, enabled);
    }

    /** The merging loop: appends every item, keeping the first six of all. */
    method AppendAll(items: seq<Item>, pair: Option<int>, enabled: Option<bool>, ghost mine: seq<Logged>,
                     ghost added: seq<Logged>)
      requires |added| == |items|
      requires forall i :: 0 <= i < |items| ==> added[i].item == Bounded(Placed(items[i], pair, enabled))
      requires entries == Items(Firsts(mine)) && (|mine| > BOUND ==> overflow)
      modifies this`entries, this`overflow
      ensures entries == Items(Firsts(mine + added))
      ensures overflow <==> old(overflow) || |mine + added| > BOUND
    {
      hide Bounded, Placed;
      var i := 0;
      assert mine + added[..0] == mine;
      while i < |items|
        invariant 0 <= i <= |items|
        invariant entries == Items(Firsts(mine + added[..i]))
        invariant overflow <==> old(overflow) || |mine + added[..i]| > BOUND
      {
        AppendItem(Placed(items[i], pair, enabled));
        FirstsStep(mine + added[..i], added[i]);
        assert mine + added[..i + 1] == mine + added[..i] + [added[i]];
        i := i + 1;
      }
      assert added[..i] == added;
    }

    /** Records a failure, or merges the evidence another failure carries. */
    method Record(error: Error, phase: string, pair: Option<int>, enabled: Option<bool>)
      requires Valid() && (error.nested != null ==> error.nested.Valid())
      modifies this
      ensures Valid() && log == old(log) + old(Recorded(error, phase, pair, enabled))
    {
      hide Bounded, ErrorItem, AnyCancel, Items;
      if error.kind in {MEASUREMENT, CANCELLED} && error.nested != null {
        if error.nested != this { Merge(error.nested, pair, enabled); } else { assert log + [] == log; }
        return;
      }
      cancelled := cancelled || error.isCancelled;
      var item := ErrorItem(error, phase, pair, enabled);
      AppendItem(item);
      ghost var logged := Logged(Bounded(item), error.isCancelled);
      FirstsStep(log, logged);
      AnyCancelAppend(log, [logged]);
      OneCancel(logged);
      BoundedTwice(item);
      log := log + [logged];
    }

    /** Raises once anything was recorded: a cancellation if any recorded failure was one. */
    method RaiseIfFailed() returns (error: Option<Error>)
      requires Valid()
      ensures error.None? <==> log == []
      ensures error.Some? ==>
                && error.value.nested == this
                && error.value.kind == (if AnyCancel(log) then CANCELLED else MEASUREMENT)
                && (error.value.isCancelled <==> AnyCancel(log))
    {
      if entries != [] || overflow {
        error := Some(if cancelled then Error(CANCELLED, true, [], None, this)
                      else Error(MEASUREMENT, false, [Str("measurement-failed")], None, this));
      } else {
        error := None;
      }
    }

    /** The published log: publishing bounds every entry again, which changes nothing. */
    method Payload() returns (items: seq<Item>, more: bool)
      requires Valid()
      ensures items == Items(Firsts(log)) && (more <==> |log| > BOUND) && (more ==> |items| == BOUND)
    {
      items := [];
      var i := 0;
      while i < |entries|
        invariant 0 <= i <= |entries| && items == entries[..i]
      {
        assert entries[i] == Firsts(log)[i].item == log[i].item;
        items := items + [Bounded(entries[i])];
        i := i + 1;
      }
      more := overflow;
    }
  }

  lemma FirstsStep(log: seq<Logged>, x: Logged)
    ensures Items(Firsts(log + [x]))
        == if |Items(Firsts(log))| < BOUND then Items(Firsts(log)) + [x.item] else Items(Firsts(log))
  {
  }

  lemma OneCancel(x: Logged)
    ensures AnyCancel([x]) <==> x.cancel
  {
    if x.cancel { assert [x][0].cancel; }
  }

  lemma AnyCancelAppend(a: seq<Logged>, b: seq<Logged>)
    ensures AnyCancel(a + b) <==> AnyCancel(a) || AnyCancel(b)
  {
    if i :| 0 <= i < |a| && a[i].cancel { assert (a + b)[i].cancel; }
    if i :| 0 <= i < |b| && b[i].cancel { assert (a + b)[|a| + i].cancel; }
  }

  /** Merging only the first six nested failures gives the same first six as merging them all. */
  lemma FirstsMerge(log: seq<Logged>, nested: seq<Logged>, pair: Option<int>, enabled: Option<bool>)
    ensures var some, all := PlacedLog(Firsts(nested), pair, enabled), PlacedLog(nested, pair, enabled);
            && Items(Firsts(log + some)) == Items(Firsts(log + all))
            && (|log + some| > BOUND || |nested| > BOUND <==> |log + all| > BOUND)
            && (AnyCancel(log + all) <==> AnyCancel(log) || AnyCancel(nested))
            && (AllBounded(log) ==> AllBounded(log + all))
  {
    hide Bounded, Placed;
    var some, all := PlacedLog(Firsts(nested), pair, enabled), PlacedLog(nested, pair, enabled);
    assert Firsts(log + some) == Firsts(log + all);
    AnyCancelAppend(log, all);
    if i :| 0 <= i < |nested| && nested[i].cancel { assert all[i].cancel; }
    forall i | 0 <= i < |nested| ensures Bounded(all[i].item) == all[i].item {
      BoundedTwice(Placed(nested[i].item, pair, enabled));
    }
  }
}
