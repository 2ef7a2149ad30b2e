/** The metadata state machine that admits one initial index population
    (tools/check_jupyter_lsp_zup.py, InitialPopulation), over work-done progress messages
    (Language Server Protocol 3.17, section "Work Done Progress"). Clock readings are
    parameters. */
module PopulationProbe {
  import opened Wrappers
  import opened CanonicalJson

  type Dict = map<string, Json>

  datatype Phase = Find | Population | Metadata
  datatype Locale = En | Ru
  datatype Moment = Initialized | Began(phase: Phase) | Ended(phase: Phase)
  datatype Failure = ProgressInvalid | IndexTimeout

  datatype TokenState = TokenState(phase: Option<Phase>, ended: bool)

  function Title(l: Locale, p: Phase): string {
    match (l, p)
    case (En, Find) => "Finding files to populate context..."
    case (En, Population) => "Populating context..."
    case (En, Metadata) => "Computing configuration metadata..."
    case (Ru, Find) => "Ищем файлы для наполнения контекста..."
    case (Ru, Population) => "Наполняем контекст..."
    case (Ru, Metadata) => "Рассчитываем данные конфигурации..."
  }

  function Finished(l: Locale, p: Phase): string {
    match (l, p)
    case (_, Find) => ""
    case (En, Population) => "Context populated."
    case (En, Metadata) => "Configuration metadata computing is finished."
    case (Ru, Population) => "Наполнение контекста завершено."
    case (Ru, Metadata) => "Расчет метаданных конфигурации завершен."
  }

  function DictOf(fields: seq<Field>): Dict {
    if fields == [] then map[]
    else
      var last := fields[|fields| - 1];
      DictOf(fields[..|fields| - 1])[last.key := last.value]
  }

  predicate Truthy(v: Json) {
    match v
    case Null => false
    case Bool(b) => b
    case Num(n) => n != 0
    case Flt(t) => t != "0.0" && t != "-0.0"
    case Str(s) => s != ""
    case Arr(items) => items != []
    case Obj(fields) => fields != []
  }

  datatype State = State(tokens: map<string, TokenState>, phases: set<Phase>, times: map<Moment, real>, reports: nat,
                         locale: Option<Locale>, initialization: Option<Dict>, failure: Option<Failure>)

  const FRESH := State(map[], {}, map[], 0, None, None, None)

  /** A message from the language server, with the clock reading when it is observed. */
  datatype Message = Message(name: string, params: Option<Dict>, now: real)

  function ServerInfo(): Dict { map["name" := Str("BSL Language Server"), "version" := Str("1.0.7")] }

  /** The token of a message, if it is a text of 1 to 160 characters. */
  function TokenOf(params: Dict): Option<string> {
    match At<string, Json>(params, "token")
    case Some(Str(t)) => if 0 < |t| <= 160 then Some(t) else None
    case _ => None
  }

  /** The progress value, if it is an object with the allowed keys and field types. */
  function ValueOf(params: Dict): Option<Dict> {
    match At<string, Json>(params, "value")
    case Some(Obj(fields)) =>
      var v := DictOf(fields);
      if v.Keys <= {"kind", "title", "message", "percentage", "cancellable"}
         && (forall k <- ["kind", "title", "message"] :: k in v ==> v[k].Str? && |v[k].s| <= 160)
         && ("percentage" in v ==> v["percentage"].Num? && 0 <= v["percentage"].n <= 100)
         && ("cancellable" in v ==> v["cancellable"].Bool?)
      then Some(v) else None
    case _ => None
  }

  /** Of several fields with one key the last one counts. */
  lemma {:induction false} DictOfLast(fields: seq<Field>, i: nat)
    requires i < |fields| && forall j :: i < j < |fields| ==> fields[j].key != fields[i].key
    ensures At(DictOf(fields), fields[i].key) == Some(fields[i].value)
  {
    var n := |fields| - 1;
    if i < n { DictOfLast(fields[..n], i); }
  }

  lemma {:induction false} DictOfKeys(fields: seq<Field>, key: string)
    ensures key in DictOf(fields) <==> exists i :: 0 <= i < |fields| && fields[i].key == key
  {
    if fields != [] {
      var n := |fields| - 1;
      DictOfKeys(fields[..n], key);
      assert fields == fields[..n] + [fields[n]];
    }
  }

  /** What a progress value may hold under a key. */
  predicate EntryOk(key: string, v: Json) {
    if key in {"kind", "title", "message"} then v.Str? && |v.s| <= 160
    else if key == "percentage" then v.Num? && 0 <= v.n <= 100
    else key == "cancellable" && v.Bool?
  }

  /** A progress value is usable exactly when every entry of it is allowed. */
  lemma ValueIff(params: Dict, v: Dict)
    ensures ValueOf(params) == Some(v) <==>
              && "value" in params && params["value"].Obj? && v == DictOf(params["value"].fields)
              && forall key :: key in v ==> EntryOk(key, v[key])
  {
    hide DictOf;
    if "value" in params && params["value"].Obj? && v == DictOf(params["value"].fields) {
      if forall key :: key in v ==> EntryOk(key, v[key]) {
        forall key | key in v ensures key in {"kind", "title", "message", "percentage", "cancellable"} {
          assert EntryOk(key, v[key]);
        }
        assert "kind" in v ==> EntryOk("kind", v["kind"]);
        assert "title" in v ==> EntryOk("title", v["title"]);
        assert "message" in v ==> EntryOk("message", v["message"]);
        assert "percentage" in v ==> EntryOk("percentage", v["percentage"]);
        assert "cancellable" in v ==> EntryOk("cancellable", v["cancellable"]);
      }
    }
  }

  /** The locale and phase pairs whose title is `title`. */
  function TitleMatches(title: Json): seq<(Locale, Phase)> {
    Matching(title, [(En, Find), (En, Population), (En, Metadata), (Ru, Find), (Ru, Population), (Ru, Metadata)])
  }

  function Matching(title: Json, pairs: seq<(Locale, Phase)>): (r: seq<(Locale, Phase)>)
    ensures forall x :: x in r ==> title == Str(Title(x.0, x.1))
  {
    if pairs == [] then []
    else (if title == Str(Title(pairs[0].0, pairs[0].1)) then [pairs[0]] else []) + Matching(title, pairs[1..])
  }

  // ----- accepted observations; None where the source raises -----

  function Initialize(s: State, params: Dict, elapsed: real): Option<State> {
    match At<string, Json>(params, "serverInfo")
    case Some(Obj(fields)) =>
      if s.initialization.Some? || DictOf(fields) != ServerInfo() then None
      else Some(s.(initialization := Some(DictOf(fields)), times := s.times[Initialized := elapsed]))
    case _ => None
  }

  function CreateToken(s: State, params: Dict, token: string): Option<State> {
    if params.Keys != {"token"} || token in s.tokens || |s.tokens| >= 8 then None
    else Some(s.(tokens := s.tokens[token := TokenState(None, false)]))
  }

  function BeginPhase(s: State, token: string, value: Dict, elapsed: real): Option<State>
    requires token in s.tokens
  {
    var matches := if "title" in value then TitleMatches(value["title"]) else [];
    if s.tokens[token].phase.Some? || |matches| != 1 then None
    else
      var (locale, phase) := matches[0];
      if (s.locale.Some? && s.locale.value != locale) || phase in s.phases then None
      else if phase == Population && Ended(Find) !in s.times then None
      else Some(s.(locale := Some(locale), phases := s.phases + {phase},
                   tokens := s.tokens[token := s.tokens[token].(phase := Some(phase))],
                   times := s.times[Began(phase) := elapsed]))
  }

  function EndPhase(s: State, token: string, value: Dict, elapsed: real): Option<State>
    requires token in s.tokens
  {
    match s.tokens[token].phase
    case None => None
    case Some(phase) =>
      if s.locale.None? || At(value, "message") != Some(Str(Finished(s.locale.value, phase))) then None
      else Some(s.(tokens := s.tokens[token := s.tokens[token].(ended := true)],
          times := s.times[Ended(phase) := elapsed]))
  }

  function Progress(s: State, params: Dict, token: string, elapsed: real): Option<State> {
    if params.Keys != {"token", "value"} || token !in s.tokens then None
    else
      match ValueOf(params)
      case None => None
      case Some(value) =>
        if s.tokens[token].ended then None
        else if At(value, "kind") == Some(Str("begin")) then BeginPhase(s, token, value, elapsed)
        else if At(value, "kind") == Some(Str("report")) then
          if s.tokens[token].phase.None? then None else Some(s.(reports := s.reports + 1))
        else if At(value, "kind") == Some(Str("end")) then EndPhase(s, token, value, elapsed)
        else None
  }

  /** Progress is refused without exactly the two keys and a created token. */
  lemma ProgressNeeds(s: State, m: Message, started: real)
    ensures m.params.Some? && TokenOf(m.params.value).Some? ==>
              var token := TokenOf(m.params.value).value;
              m.params.value.Keys != {"token", "value"} || token !in s.tokens ==>
                Progress(s, m.params.value, token, m.now - started).None?
  {
    hide BeginPhase, EndPhase, ValueOf, TokenOf;
  }

  function Accept(s: State, m: Message, started: real): Option<State> {
    match m.params
    case None => None
    case Some(params) =>
      if "invalid" in params && Truthy(params["invalid"]) then None
      else if m.name == "initialize-result" then Initialize(s, params, m.now - started)
      else
        match TokenOf(params)
        case None => None
        case Some(token) =>
          if m.name == "window/workDoneProgress/create" then CreateToken(s, params, token)
          else if m.name == "$/progress" then Progress(s, params, token, m.now - started)
          else None
  }

  /** One observation: nothing happens after a failure, and a rejected message changes only the failure. */
  function Observed(s: State, m: Message, started: real): State {
    if s.failure.Some? then s
    else match Accept(s, m, started) case Some(s') => s' case None => s.(failure := Some(ProgressInvalid))
  }

  function Run(started: real, messages: seq<Message>): State {
    if messages == [] then FRESH
    else Observed(Run(started, messages[..|messages| - 1]), messages[|messages| - 1], started)
  }

  // ----- what every reachable state satisfies -----

  /** Which token carries which phase, and which moments have been recorded. */
  ghost predicate Consistent(s: State) {
    && (forall t :: t in s.tokens && s.tokens[t].phase.Some? ==> s.tokens[t].phase.value in s.phases)
    && (forall t, u :: t in s.tokens && u in s.tokens && s.tokens[t].phase.Some? ==>
          s.tokens[t].phase == s.tokens[u].phase ==> t == u)
    && (forall t :: t in s.tokens && s.tokens[t].ended ==> s.tokens[t].phase.Some?)
    && (forall p :: Began(p) in s.times <==> p in s.phases)
    && (forall p :: Ended(p) in s.times ==> exists t :: t in s.tokens && s.tokens[t] == TokenState(Some(p), true))
    && (Population in s.phases ==> Ended(Find) in s.times)
    && (s.locale.Some? <==> s.phases != {})
    && (Initialized in s.times <==> s.initialization.Some?)
  }

  /** What an accepted message can do: nothing recorded is withdrawn or overwritten, except that
      a token may gain its phase or end. */
  ghost predicate Grows(s: State, s': State) {
    && (forall m :: m in s.times ==> m in s'.times && s'.times[m] == s.times[m])
    && s.tokens.Keys <= s'.tokens.Keys
    && (forall t :: t in s.tokens && s.tokens[t].phase.Some? ==> s'.tokens[t].phase == s.tokens[t].phase)
    && (forall t :: t in s.tokens && s.tokens[t].ended ==> s'.tokens[t].ended)
    && s.phases <= s'.phases
    && (s.locale.Some? ==> s'.locale == s.locale)
    && (s.initialization.Some? ==> s'.initialization == s.initialization)
  }

  ghost predicate Keeps(s: State, r: Option<State>) {
    r.Some? ==> Consistent(r.value) && Grows(s, r.value) && r.value.failure == s.failure
  }

  lemma InitializeKeeps(s: State, params: Dict, elapsed: real)
    requires Consistent(s)
    ensures Keeps(s, Initialize(s, params, elapsed))
  {
    hide DictOf, ServerInfo;
    var r := Initialize(s, params, elapsed);
    if r.Some? {
      forall p | Ended(p) in r.value.times
        ensures exists t :: t in r.value.tokens && r.value.tokens[t] == TokenState(Some(p), true) {}
    }
  }

  lemma CreateKeeps(s: State, params: Dict, token: string)
    requires Consistent(s)
    ensures Keeps(s, CreateToken(s, params, token))
  {
    var r := CreateToken(s, params, token);
    if r.Some? {
      forall p | Ended(p) in r.value.times
        ensures exists t :: t in r.value.tokens && r.value.tokens[t] == TokenState(Some(p), true)
      {
        var t :| t in s.tokens && s.tokens[t] == TokenState(Some(p), true);
        assert r.value.tokens[t] == s.tokens[t];
      }
    }
  }

  lemma BeginKeeps(s: State, token: string, value: Dict, elapsed: real)
    requires Consistent(s) && token in s.tokens && !s.tokens[token].ended
    ensures Keeps(s, BeginPhase(s, token, value, elapsed))
  {
    hide Consistent;
    var r := BeginPhase(s, token, value, elapsed);
    if r.Some? {
      var (locale, phase) := TitleMatches(value["title"])[0];
      hide TitleMatches, Grows;
      PhaseGiven(s, token, phase, locale, elapsed);
      PhaseGivenGrows(s, token, phase, locale, elapsed);
    }
  }

  /** The state after a token has been given a phase. */
  function WithPhase(s: State, token: string, p: Phase, l: Locale, elapsed: real): State
    requires token in s.tokens
  {
    s.(locale := Some(l), phases := s.phases + {p}, tokens := s.tokens[token := s.tokens[token].(phase := Some(p))],
       times := s.times[Began(p) := elapsed])
  }

  lemma PhaseGiven(s: State, token: string, p: Phase, l: Locale, elapsed: real)
    requires Consistent(s) && token in s.tokens && !s.tokens[token].ended && p !in s.phases
    requires p == Population ==> Ended(Find) in s.times
    ensures Consistent(WithPhase(s, token, p, l, elapsed))
  {
    var s' := WithPhase(s, token, p, l, elapsed);
    forall q | Ended(q) in s'.times ensures exists t :: t in s'.tokens && s'.tokens[t] == TokenState(Some(q), true) {
      var t :| t in s.tokens && s.tokens[t] == TokenState(Some(q), true);
      assert s'.tokens[t] == s.tokens[t];
    }
  }

  lemma PhaseGivenGrows(s: State, token: string, p: Phase, l: Locale, elapsed: real)
    requires Consistent(s) && token in s.tokens && s.tokens[token].phase.None? && p !in s.phases
    requires s.locale.None? || s.locale == Some(l)
    ensures Grows(s, WithPhase(s, token, p, l, elapsed))
  {
  }

  lemma EndKeeps(s: State, token: string, value: Dict, elapsed: real)
    requires Consistent(s) && token in s.tokens && !s.tokens[token].ended
    ensures Keeps(s, EndPhase(s, token, value, elapsed))
  {
    var r := EndPhase(s, token, value, elapsed);
    if r.Some? {
      var phase := s.tokens[token].phase.value;
      forall p | Ended(p) in s.times ensures p != phase {
        var t :| t in s.tokens && s.tokens[t] == TokenState(Some(p), true);
      }
      forall p | Ended(p) in r.value.times
        ensures exists t :: t in r.value.tokens && r.value.tokens[t] == TokenState(Some(p), true)
      {
        if p == phase {
          assert r.value.tokens[token] == TokenState(Some(p), true);
        } else {
          var t :| t in s.tokens && s.tokens[t] == TokenState(Some(p), true);
          assert r.value.tokens[t] == s.tokens[t];
        }
      }
    }
  }

  lemma GrowsTrivially(s: State, n: nat)
    requires Consistent(s)
    ensures Keeps(s, Some(s.(reports := n)))
  {
  }

  lemma AcceptKeeps(s: State, m: Message, started: real)
    requires Consistent(s)
    ensures Keeps(s, Accept(s, m, started))
  {
    hide Initialize, CreateToken, BeginPhase, EndPhase, TokenOf, ValueOf, Truthy, Consistent, Grows;
    var elapsed := m.now - started;
    if m.params.Some? {
      var params := m.params.value;
      InitializeKeeps(s, params, elapsed);
      match TokenOf(params)
      case None =>
      case Some(token) =>
        CreateKeeps(s, params, token);
        if token in s.tokens && !s.tokens[token].ended && ValueOf(params).Some? {
          BeginKeeps(s, token, ValueOf(params).value, elapsed);
          EndKeeps(s, token, ValueOf(params).value, elapsed);
        }
        GrowsTrivially(s, s.reports + 1);
    }
  }

  // ----- what a run must have seen -----

  predicate IsCreate(m: Message, token: string) {
    && m.name == "window/workDoneProgress/create"
    && m.params.Some? && m.params.value.Keys == {"token"} && TokenOf(m.params.value) == Some(token)
  }

  predicate IsProgress(m: Message, token: string, kind: string) {
    && m.name == "$/progress"
    && m.params.Some? && TokenOf(m.params.value) == Some(token)
    && ValueOf(m.params.value).Some? && At(ValueOf(m.params.value).value, "kind") == Some(Str(kind))
  }

  predicate IsBegin(m: Message, token: string, p: Phase, l: Locale) {
    IsProgress(m, token, "begin") && At(ValueOf(m.params.value).value, "title") == Some(Str(Title(l, p)))
  }

  predicate IsEnd(m: Message, token: string, p: Phase, l: Locale) {
    IsProgress(m, token, "end") && At(ValueOf(m.params.value).value, "message") == Some(Str(Finished(l, p)))
  }

  predicate IsInitialize(m: Message) {
    m.name == "initialize-result" && m.params.Some? && "serverInfo" in m.params.value
    && m.params.value["serverInfo"].Obj? && DictOf(m.params.value["serverInfo"].fields) == ServerInfo()
  }

  lemma {:induction false} RunConsistent(started: real, messages: seq<Message>)
    ensures Consistent(Run(started, messages))
  {
    if messages != [] {
      var n := |messages| - 1;
      RunConsistent(started, messages[..n]);
      hide Accept, Consistent, Grows;
      AcceptKeeps(Run(started, messages[..n]), messages[n], started);
      FailureConsistent(Run(started, messages[..n]), ProgressInvalid);
    }
  }

  lemma FailureConsistent(s: State, f: Failure)
    requires Consistent(s)
    ensures Consistent(s.(failure := Some(f)))
  {
  }

  lemma GrowsTransitive(a: State, b: State, c: State)
    requires Grows(a, b) && Grows(b, c)
    ensures Grows(a, c)
  {
  }

  /** Along a run nothing recorded is ever withdrawn. */
  lemma {:induction false} RunGrows(started: real, messages: seq<Message>, k: nat)
    requires k <= |messages|
    ensures Grows(Run(started, messages[..k]), Run(started, messages))
    decreases |messages| - k
  {
    if k == |messages| {
      assert messages[..k] == messages;
    } else {
      var s := Run(started, messages[..k]);
      assert messages[..k + 1][..k] == messages[..k];
      RunConsistent(started, messages[..k]);
      AcceptKeeps(s, messages[k], started);
      assert Grows(s, Run(started, messages[..k + 1])) by { hide Accept, Consistent; }
      RunGrows(started, messages, k + 1);
      GrowsTransitive(s, Run(started, messages[..k + 1]), Run(started, messages));
    }
  }

  /** The message at which a moment was recorded. */
  lemma {:induction false} FirstMoment(started: real, messages: seq<Message>, m: Moment) returns (i: nat)
    requires m in Run(started, messages).times
    ensures i < |messages| && m !in Run(started, messages[..i]).times
    ensures Accept(Run(started, messages[..i]), messages[i], started).Some?
    ensures m in Accept(Run(started, messages[..i]), messages[i], started).value.times
    ensures Run(started, messages[..i + 1]) == Accept(Run(started, messages[..i]), messages[i], started).value
  {
    hide Accept;
    var n := |messages| - 1;
    if m in Run(started, messages[..n]).times {
      i := FirstMoment(started, messages[..n], m);
      assert messages[..n][..i] == messages[..i] && messages[..n][..i + 1] == messages[..i + 1];
    } else {
      i := n;
      assert messages[..n + 1] == messages;
    }
  }

  /** The message that created a token. */
  lemma {:induction false} FirstToken(started: real, messages: seq<Message>, t: string) returns (i: nat)
    requires t in Run(started, messages).tokens
    ensures i < |messages| && IsCreate(messages[i], t)
  {
    var n := |messages| - 1;
    if t in Run(started, messages[..n]).tokens {
      i := FirstToken(started, messages[..n], t);
    } else {
      i := n;
      hide Initialize, BeginPhase, EndPhase, TokenOf, ValueOf, Truthy;
      NewToken(Run(started, messages[..n]), messages[n], started, t);
    }
  }

  lemma NewToken(s: State, m: Message, started: real, t: string)
    requires Accept(s, m, started).Some? && t !in s.tokens && t in Accept(s, m, started).value.tokens
    ensures IsCreate(m, t)
  {
    hide TokenOf, ValueOf, Truthy, TitleMatches, DictOf, ServerInfo;
  }

  lemma NewBegan(s: State, m: Message, started: real, p: Phase) returns (t: string)
    requires Accept(s, m, started).Some? && Began(p) !in s.times && Began(p) in Accept(s, m, started).value.times
    ensures var s' := Accept(s, m, started).value;
            && t in s.tokens && t in s'.tokens && s'.tokens[t].phase == Some(p)
            && s'.locale.Some? && IsBegin(m, t, p, s'.locale.value)
            && s'.times[Began(p)] == m.now - started
            && (p == Population ==> Ended(Find) in s.times)
  {
    hide TokenOf, ValueOf, Truthy, DictOf, ServerInfo, Title, Matching;
    t := TokenOf(m.params.value).value;
    var value := ValueOf(m.params.value).value;
    var matches := TitleMatches(value["title"]);
    assert matches[0] in matches;
  }

  lemma NewEnded(s: State, m: Message, started: real, p: Phase) returns (t: string)
    requires Accept(s, m, started).Some? && Ended(p) !in s.times && Ended(p) in Accept(s, m, started).value.times
    ensures t in s.tokens && s.tokens[t].phase == Some(p)
    ensures s.locale.Some? && IsEnd(m, t, p, s.locale.value)
    ensures Accept(s, m, started).value.times[Ended(p)] == m.now - started
  {
    hide TokenOf, ValueOf, Truthy, DictOf, ServerInfo, Finished, TitleMatches;
    t := TokenOf(m.params.value).value;
  }

  /** The recorded moment is the clock reading of the i-th message. */
  ghost predicate Timed(started: real, messages: seq<Message>, m: Moment, i: nat) {
    i < |messages| && m in Run(started, messages).times && Run(started, messages).times[m] == messages[i].now - started
  }

  lemma TimedLater(started: real, messages: seq<Message>, k: nat, m: Moment, i: nat)
    requires k <= |messages| && Timed(started, messages[..k], m, i)
    ensures Timed(started, messages, m, i)
  {
    RunGrows(started, messages, k);
  }

  /** A token that carries a phase was created and then began that phase. */
  lemma BeganBefore(started: real, messages: seq<Message>, t: string, p: Phase) returns (c: nat, b: nat)
    requires t in Run(started, messages).tokens && Run(started, messages).tokens[t].phase == Some(p)
    ensures c < b < |messages| && IsCreate(messages[c], t)
    ensures Run(started, messages).locale.Some? && IsBegin(messages[b], t, p, Run(started, messages).locale.value)
    ensures Timed(started, messages, Began(p), b)
    ensures p == Population ==> Ended(Find) in Run(started, messages[..b]).times
  {
    hide Accept, IsCreate, IsBegin;
    RunConsistent(started, messages);
    b := FirstMoment(started, messages, Began(p));
    var u := NewBegan(Run(started, messages[..b]), messages[b], started, p);
    RunGrows(started, messages, b + 1);
    assert u == t;
    c := FirstToken(started, messages[..b], t);
  }

  /** A recorded end came from a token that carried the phase. */
  lemma EndedBefore(started: real, messages: seq<Message>, p: Phase) returns (e: nat, t: string)
    requires Ended(p) in Run(started, messages).times
    ensures e < |messages| && t in Run(started, messages[..e]).tokens
    ensures Run(started, messages[..e]).tokens[t].phase == Some(p)
    ensures Run(started, messages).locale.Some? && IsEnd(messages[e], t, p, Run(started, messages).locale.value)
    ensures Run(started, messages[..e]).locale == Run(started, messages).locale
    ensures Timed(started, messages, Ended(p), e)
  {
    hide Accept, Consistent, IsEnd;
    e := FirstMoment(started, messages, Ended(p));
    t := NewEnded(Run(started, messages[..e]), messages[e], started, p);
    RunGrows(started, messages, e);
    RunGrows(started, messages, e + 1);
  }

  /** A run that recorded the end of the population phase saw, in this order and in one locale,
      begin and end of the file search on one created token, then begin and end of the
      population on another; the recorded times are those of these messages. */
  lemma PopulationWasSeen(started: real, messages: seq<Message>)
      returns (l: Locale, f: string, g: string, cf: nat, fb: nat, fe: nat, cg: nat, pb: nat, pe: nat)
    requires Ended(Population) in Run(started, messages).times
    ensures f != g && cf < fb < fe < pb < pe < |messages| && cg < pb
    ensures IsCreate(messages[cf], f) && IsBegin(messages[fb], f, Find, l) && IsEnd(messages[fe], f, Find, l)
    ensures IsCreate(messages[cg], g) && IsBegin(messages[pb], g, Population, l)
        && IsEnd(messages[pe], g, Population, l)
    ensures Run(started, messages).locale == Some(l)
    ensures Timed(started, messages, Began(Find), fb) && Timed(started, messages, Ended(Find), fe)
    ensures Timed(started, messages, Began(Population), pb) && Timed(started, messages, Ended(Population), pe)
  {
    hide Run, Consistent, Grows, IsCreate, IsBegin, IsEnd;
    pe, g := EndedBefore(started, messages, Population);
    l := Run(started, messages).locale.value;
    var m1 := messages[..pe];
    cg, pb := BeganBefore(started, m1, g, Population);
    TimedLater(started, messages, pe, Began(Population), pb);
    var m2 := messages[..pb];
    assert m1[..pb] == m2;
    fe, f := EndedBefore(started, m2, Find);
    LocaleStays(started, messages, pb);
    TimedLater(started, messages, pb, Ended(Find), fe);
    var m3 := messages[..fe];
    assert m2[..fe] == m3;
    cf, fb := BeganBefore(started, m3, f, Find);
    TimedLater(started, messages, fe, Began(Find), fb);
    PhaseStays(started, messages, fe, f);
    PhaseStays(started, messages, pe, g);
  }

  lemma LocaleStays(started: real, messages: seq<Message>, k: nat)
    requires k <= |messages| && Run(started, messages[..k]).locale.Some?
    ensures Run(started, messages).locale == Run(started, messages[..k]).locale
  {
    RunGrows(started, messages, k);
  }

  lemma PhaseStays(started: real, messages: seq<Message>, k: nat, t: string)
    requires k <= |messages| && t in Run(started, messages[..k]).tokens
        && Run(started, messages[..k]).tokens[t].phase.Some?
    ensures t in Run(started, messages).tokens
    ensures Run(started, messages).tokens[t].phase == Run(started, messages[..k]).tokens[t].phase
  {
    RunGrows(started, messages, k);
  }

  /** With a clock that never runs backwards the recorded phase times are in order. */
  lemma TimesInOrder(started: real, messages: seq<Message>)
    requires Ended(Population) in Run(started, messages).times
    requires forall i, j :: 0 <= i < j < |messages| ==> messages[i].now <= messages[j].now
    ensures var times := Run(started, messages).times;
            && Began(Find) in times && Ended(Find) in times && Began(Population) in times
            && times[Began(Find)] <= times[Ended(Find)] <= times[Began(Population)] <= times[Ended(Population)]
  {
    hide Run, IsCreate, IsBegin, IsEnd;
    var l, f, g, cf, fb, fe, cg, pb, pe := PopulationWasSeen(started, messages);
  }

  /** After a failure no later message changes anything. */
  lemma {:induction false} FailureFreezes(started: real, messages: seq<Message>, k: nat)
    requires k <= |messages| && Run(started, messages[..k]).failure.Some?
    ensures Run(started, messages) == Run(started, messages[..k])
  {
    if k == |messages| {
      assert messages[..k] == messages;
    } else {
      var n := |messages| - 1;
      assert messages[..n][..k] == messages[..k];
      FailureFreezes(started, messages[..n], k);
    }
  }

  /** A failed run is a run of accepted messages up to a first rejected one, which changed nothing but
      the failure. */
  lemma {:induction false} FirstRejection(started: real, messages: seq<Message>) returns (k: nat)
    requires Run(started, messages).failure.Some?
    ensures k < |messages| && Run(started, messages[..k]).failure.None?
    ensures Accept(Run(started, messages[..k]), messages[k], started).None?
    ensures Run(started, messages) == Run(started, messages[..k]).(failure := Some(ProgressInvalid))
  {
    hide Accept;
    var n := |messages| - 1;
    if Run(started, messages[..n]).failure.Some? {
      k := FirstRejection(started, messages[..n]);
      assert messages[..n][..k] == messages[..k];
    } else {
      k := n;
      RunConsistent(started, messages[..n]);
      AcceptKeeps(Run(started, messages[..n]), messages[n], started);
    }
  }

  /** A run has not failed exactly when every message was accepted in the state it met. */
  lemma {:induction false} UnfailedIff(started: real, messages: seq<Message>)
    ensures Run(started, messages).failure.None? <==>
              forall k :: 0 <= k < |messages| ==> Accept(Run(started, messages[..k]), messages[k], started).Some?
  {
    hide Accept;
    if messages != [] {
      var n := |messages| - 1;
      UnfailedIff(started, messages[..n]);
      assert forall k :: 0 <= k <= n ==> messages[..n][..k] == messages[..k];
      RunConsistent(started, messages[..n]);
      AcceptKeeps(Run(started, messages[..n]), messages[n], started);
      if Run(started, messages[..n]).failure.Some? {
        var k := FirstRejection(started, messages[..n]);
        assert Accept(Run(started, messages[..k]), messages[k], started).None?;
      }
    }
  }

  lemma NewInitialized(s: State, m: Message, started: real)
    requires Accept(s, m, started).Some? && Initialized !in s.times
    requires Initialized in Accept(s, m, started).value.times
    ensures IsInitialize(m)
  {
    hide TokenOf, ValueOf, Truthy, DictOf, ServerInfo, TitleMatches, Finished;
  }

  /** The state an admission needs, apart from the identity. */
  predicate Admissible(s: State, timeout: real) {
    && s.failure.None? && s.initialization.Some?
    && Ended(Population) in s.times && s.times[Ended(Population)] < timeout
  }

  /** Whatever a session admits has seen the server's initialize result and, in one locale, begin and end
      of the file search on one created token and then begin and end of the population on another; the
      population ended below the timeout, and no message was rejected. */
  lemma AdmittedRunSaw(started: real, messages: seq<Message>, timeout: real)
      returns (i: nat, l: Locale, f: string, g: string, cf: nat, fb: nat, fe: nat, cg: nat, pb: nat, pe: nat)
    requires Admissible(Run(started, messages), timeout)
    ensures i < |messages| && IsInitialize(messages[i])
    ensures f != g && cf < fb < fe < pb < pe < |messages| && cg < pb
    ensures IsCreate(messages[cf], f) && IsBegin(messages[fb], f, Find, l) && IsEnd(messages[fe], f, Find, l)
    ensures IsCreate(messages[cg], g) && IsBegin(messages[pb], g, Population, l)
        && IsEnd(messages[pe], g, Population, l)
    ensures messages[pe].now - started < timeout
    ensures forall k :: 0 <= k < |messages| ==> Accept(Run(started, messages[..k]), messages[k], started).Some?
    ensures (forall a, b :: 0 <= a < b < |messages| ==> messages[a].now <= messages[b].now) ==>
              var times := Run(started, messages).times;
              && Began(Find) in times && Ended(Find) in times && Began(Population) in times
              && times[Began(Find)] <= times[Ended(Find)] <= times[Began(Population)] <= times[Ended(Population)]
  {
    hide Accept, Run, Consistent, Grows, IsCreate, IsBegin, IsEnd, IsInitialize;
    assert Initialized in Run(started, messages).times by { InitializedRecorded(started, messages); }
    i := FirstMoment(started, messages, Initialized);
    NewInitialized(Run(started, messages[..i]), messages[i], started);
    l, f, g, cf, fb, fe, cg, pb, pe := PopulationWasSeen(started, messages);
    UnfailedIff(started, messages);
    if forall a, b :: 0 <= a < b < |messages| ==> messages[a].now <= messages[b].now {
      TimesInOrder(started, messages);
    }
  }

  lemma InitializedRecorded(started: real, messages: seq<Message>)
    ensures Initialized in Run(started, messages).times <==> Run(started, messages).initialization.Some?
  {
    RunConsistent(started, messages);
  }

  // ----- the ordinary run -----

  /** The messages of an ordinary run. */
  function CreateMessage(t: string, now: real): Message {
    Message("window/workDoneProgress/create", Some(map["token" := Str(t)]), now)
  }

  function ProgressMessage(t: string, fields: seq<Field>, now: real): Message {
    Message("$/progress", Some(map["token" := Str(t), "value" := Obj(fields)]), now)
  }

  function BeginMessage(t: string, l: Locale, p: Phase, now: real): Message {
    ProgressMessage(t, [Field("kind", Str("begin")), Field("title", Str(Title(l, p)))], now)
  }

  function ReportMessage(t: string, percentage: int, now: real): Message {
    ProgressMessage(t, [Field("kind", Str("report")), Field("percentage", Num(percentage))], now)
  }

  function EndMessage(t: string, l: Locale, p: Phase, now: real): Message {
    ProgressMessage(t, [Field("kind", Str("end")), Field("message", Str(Finished(l, p)))], now)
  }

  function InitializeMessage(now: real): Message {
    var info := [Field("name", Str("BSL Language Server")), Field("version", Str("1.0.7"))];
    Message("initialize-result", Some(map["serverInfo" := Obj(info)]), now)
  }

  predicate TokenOk(t: string) { 1 <= |t| <= 160 }

  lemma DictOfTwo(a: Field, b: Field)
    ensures DictOf([a, b]) == map[a.key := a.value][b.key := b.value]
  {
    assert [a, b][..1] == [a] && [a][..0] == [];
    assert DictOf([a]) == DictOf([])[a.key := a.value];
    assert DictOf([a, b]) == DictOf([a])[b.key := b.value];
  }

  lemma InitializeAccepted(s: State, started: real, now: real)
    requires s.initialization == None
    ensures Accept(s, InitializeMessage(now), started)
         == Some(s.(initialization := Some(ServerInfo()), times := s.times[Initialized := now - started]))
  {
    DictOfTwo(Field("name", Str("BSL Language Server")), Field("version", Str("1.0.7")));
  }

  /** A create message that holds just a token is accepted exactly for a fresh token of 1 to 160 characters
      while fewer than eight exist. */
  lemma CreateIff(s: State, t: string, started: real, now: real)
    ensures Accept(s, CreateMessage(t, now), started).Some? <==> 1 <= |t| <= 160 && t !in s.tokens && |s.tokens| < 8
    ensures Accept(s, CreateMessage(t, now), started).Some? ==>
              Accept(s, CreateMessage(t, now), started).value == s.(tokens := s.tokens[t := TokenState(None, false)])
  {
  }

  /** What a progress message is taken to be. */
  lemma ProgressIs(s: State, t: string, fields: seq<Field>, started: real, now: real)
    requires TokenOk(t)
    ensures var params := map["token" := Str(t), "value" := Obj(fields)];
            && params.Keys == {"token", "value"} && ValueOf(params) == ValueOf(map["value" := Obj(fields)])
            && Accept(s, ProgressMessage(t, fields, now), started) == Progress(s, params, t, now - started)
  {
    hide Progress, DictOf;
  }

  lemma TitleShort(l: Locale, p: Phase)
    ensures |Title(l, p)| <= 160
  {
  }

  lemma FinishedShort(l: Locale, p: Phase)
    ensures |Finished(l, p)| <= 160
  {
  }

  function TitleFirst(l: Locale, p: Phase): char {
    match (l, p)
    case (En, Find) => 'F'
    case (En, Population) => 'P'
    case (En, Metadata) => 'C'
    case (Ru, Find) => 'И'
    case (Ru, Population) => 'Н'
    case (Ru, Metadata) => 'Р'
  }

  lemma TitleStarts(l: Locale, p: Phase)
    ensures Title(l, p) != "" && Title(l, p)[0] == TitleFirst(l, p)
  {
  }

  /** The first characters tell the titles apart. */
  lemma TitlesDiffer(l: Locale, p: Phase, l': Locale, p': Phase)
    ensures Title(l, p) == Title(l', p') ==> l == l' && p == p'
  {
    hide Title;
    TitleStarts(l, p);
    TitleStarts(l', p');
  }

  /** Each title names one locale and phase. */
  lemma TitleNames(l: Locale, p: Phase)
    ensures TitleMatches(Str(Title(l, p))) == [(l, p)]
  {
    hide Title;
    forall a, b ensures Title(a, b) == Title(l, p) ==> (a, b) == (l, p) { TitlesDiffer(a, b, l, p); }
    MatchingOnly(l, p, [(En, Find), (En, Population), (En, Metadata), (Ru, Find), (Ru, Population), (Ru, Metadata)]);
  }

  lemma {:induction false} MatchingOnly(l: Locale, p: Phase, pairs: seq<(Locale, Phase)>)
    requires forall a, b :: Title(a, b) == Title(l, p) ==> (a, b) == (l, p)
    requires forall i, j :: 0 <= i < j < |pairs| ==> pairs[i] != pairs[j]
    ensures Matching(Str(Title(l, p)), pairs) == if (l, p) in pairs then [(l, p)] else []
  {
    hide Title;
    if pairs != [] {
      MatchingOnly(l, p, pairs[1..]);
      assert pairs == [pairs[0]] + pairs[1..];
    }
  }

  lemma TwoKeys(t: string, a: Field, b: Field)
    requires a.key == "kind" && a.value.Str? && |a.value.s| <= 160
    requires || (b.key in {"title", "message"} && b.value.Str? && |b.value.s| <= 160)
             || (b.key == "percentage" && b.value.Num? && 0 <= b.value.n <= 100)
    ensures ValueOf(map["token" := Str(t), "value" := Obj([a, b])]) == Some(map["kind" := a.value, b.key := b.value])
  {
    hide DictOf;
    DictOfTwo(a, b);
    var v := map["kind" := a.value, b.key := b.value];
    assert DictOf([a, b]) == v && v.Keys == {"kind", b.key};
    assert "kind" != "title" && "kind" != "message" && "kind" != "percentage" && "title" != "message";
  }

  lemma BeginAccepted(s: State, t: string, l: Locale, p: Phase, started: real, now: real)
    requires TokenOk(t) && t in s.tokens && s.tokens[t] == TokenState(None, false)
    requires (s.locale.None? || s.locale == Some(l)) && p !in s.phases
    requires p == Population ==> Ended(Find) in s.times
    ensures Accept(s, BeginMessage(t, l, p, now), started) == Some(WithPhase(s, t, p, l, now - started))
  {
    hide Accept, ValueOf, TokenOf, Title, TitleMatches;
    var a, b := Field("kind", Str("begin")), Field("title", Str(Title(l, p)));
    ProgressIs(s, t, [a, b], started, now);
    TitleShort(l, p);
    TwoKeys(t, a, b);
    TitleNames(l, p);
  }

  lemma ReportAccepted(s: State, t: string, percentage: int, started: real, now: real)
    requires TokenOk(t) && t in s.tokens && s.tokens[t].phase.Some? && !s.tokens[t].ended && 0 <= percentage <= 100
    ensures Accept(s, ReportMessage(t, percentage, now), started) == Some(s.(reports := s.reports + 1))
  {
    hide Accept, ValueOf, TokenOf, BeginPhase, EndPhase;
    var a, b := Field("kind", Str("report")), Field("percentage", Num(percentage));
    ProgressIs(s, t, [a, b], started, now);
    TwoKeys(t, a, b);
    assert "report" != "begin";
  }

  lemma EndAccepted(s: State, t: string, l: Locale, p: Phase, started: real, now: real)
    requires TokenOk(t) && t in s.tokens && s.tokens[t] == TokenState(Some(p), false) && s.locale == Some(l)
    ensures Accept(s, EndMessage(t, l, p, now), started)
         == Some(s.(tokens := s.tokens[t := TokenState(Some(p), true)], times := s.times[Ended(p) := now - started]))
  {
    hide Accept, ValueOf, TokenOf, BeginPhase, Title, Finished;
    var a, b := Field("kind", Str("end")), Field("message", Str(Finished(l, p)));
    ProgressIs(s, t, [a, b], started, now);
    FinishedShort(l, p);
    TwoKeys(t, a, b);
    assert "end" != "begin" && "end" != "report";
  }

  /** One piece of reported work: its token, its phase, its reports and its clock readings. */
  datatype Work = Work(token: string, phase: Phase, created: real, began: real, reports: seq<(int, real)>, ended: real)

  function Reports(t: string, reports: seq<(int, real)>): seq<Message> {
    if reports == [] then []
    else
      var n := |reports| - 1;
      Reports(t, reports[..n]) + [ReportMessage(t, reports[n].0, reports[n].1)]
  }

  function Messages(l: Locale, w: Work): seq<Message> {
    [CreateMessage(w.token, w.created), BeginMessage(w.token, l, w.phase, w.began)]
    + (Reports(w.token, w.reports) + [EndMessage(w.token, l, w.phase, w.ended)])
  }

  /** An initialize result and then one piece of work after the other. */
  function Session(l: Locale, now: real, works: seq<Work>): seq<Message> {
    if works == [] then [InitializeMessage(now)]
    else Session(l, now, works[..|works| - 1]) + Messages(l, works[|works| - 1])
  }

  /** Distinct tokens and phases, valid tokens and percentages, and no population before the file search. */
  ghost predicate Ordinary(works: seq<Work>) {
    && (forall i :: 0 <= i < |works| ==> TokenOk(works[i].token) && Percentages(works[i].reports))
    && (forall i, j :: 0 <= i < j < |works| ==>
          works[i].token != works[j].token && works[i].phase != works[j].phase)
    && (forall i :: 0 <= i < |works| && works[i].phase == Population ==>
          exists j :: 0 <= j < i && works[j].phase == Find)
  }

  predicate Percentages(reports: seq<(int, real)>) { forall i :: 0 <= i < |reports| ==> 0 <= reports[i].0 <= 100 }

  lemma RunStep(started: real, ms: seq<Message>, m: Message)
    requires Run(started, ms).failure.None? && Accept(Run(started, ms), m, started).Some?
    ensures Run(started, ms + [m]) == Accept(Run(started, ms), m, started).value
  {
    hide Accept;
    assert (ms + [m])[..|ms|] == ms;
  }

  lemma {:induction false} ReportsRun(started: real, ms: seq<Message>, t: string, reports: seq<(int, real)>)
    requires var s := Run(started, ms);
             && s.failure.None? && TokenOk(t) && Percentages(reports)
             && t in s.tokens && s.tokens[t].phase.Some? && !s.tokens[t].ended
    ensures var s := Run(started, ms);
            Run(started, ms + Reports(t, reports)) == s.(reports := s.reports + |reports|)
  {
    hide Run, Accept;
    if reports == [] {
      assert ms + [] == ms;
    } else {
      var n := |reports| - 1;
      ReportsRun(started, ms, t, reports[..n]);
      var before := ms + Reports(t, reports[..n]);
      ReportAccepted(Run(started, before), t, reports[n].0, started, reports[n].1);
      RunStep(started, before, ReportMessage(t, reports[n].0, reports[n].1));
      assert ms + Reports(t, reports) == before + [ReportMessage(t, reports[n].0, reports[n].1)];
    }
  }

  /** The state after one more piece of work. */
  function Worked(s: State, l: Locale, w: Work, started: real): State {
    s.(tokens := s.tokens[w.token := TokenState(Some(w.phase), true)], phases := s.phases + {w.phase},
       locale := Some(l),
       times := s.times[Began(w.phase) := w.began - started][Ended(w.phase) := w.ended - started],
       reports := s.reports + |w.reports|)
  }

  lemma WorkRun(started: real, ms: seq<Message>, l: Locale, w: Work)
    requires TokenOk(w.token) && Percentages(w.reports)
    requires var s := Run(started, ms);
             && s.failure.None? && w.token !in s.tokens && |s.tokens| < 8 && (s.locale.None? || s.locale == Some(l))
             && w.phase !in s.phases && (w.phase == Population ==> Ended(Find) in s.times)
    ensures Run(started, ms + Messages(l, w)) == Worked(Run(started, ms), l, w, started)
  {
    hide Run, Accept, Reports, CreateMessage, BeginMessage, EndMessage;
    var s, t := Run(started, ms), w.token;
    var create, begin, end := CreateMessage(t, w.created), BeginMessage(t, l, w.phase, w.began),
                              EndMessage(t, l, w.phase, w.ended);
    CreateIff(s, t, started, w.created);
    RunStep(started, ms, create);
    BeginAccepted(Run(started, ms + [create]), t, l, w.phase, started, w.began);
    RunStep(started, ms + [create], begin);
    var begun := ms + [create] + [begin];
    ReportsRun(started, begun, t, w.reports);
    var reported := begun + Reports(t, w.reports);
    EndAccepted(Run(started, reported), t, l, w.phase, started, w.ended);
    RunStep(started, reported, end);
    assert ms + Messages(l, w) == reported + [end];
  }

  /** The state is unfailed and has every piece of work on record with its times. */
  ghost predicate OnRecord(s: State, l: Locale, works: seq<Work>, started: real) {
    && s.failure.None? && s.initialization == Some(ServerInfo())
    && |s.tokens| == |s.phases| == |works|
    && (s.locale == if works == [] then None else Some(l))
    && TokensOf(s.tokens.Keys, works) && PhasesOf(s.phases, works) && AllOnRecord(s, works, started)
  }

  ghost predicate TokensOf(tokens: set<string>, works: seq<Work>) {
    forall t :: t in tokens ==> exists i :: 0 <= i < |works| && works[i].token == t
  }

  ghost predicate PhasesOf(phases: set<Phase>, works: seq<Work>) {
    forall p :: p in phases ==> exists i :: 0 <= i < |works| && works[i].phase == p
  }

  ghost predicate AllOnRecord(s: State, works: seq<Work>, started: real) {
    forall i :: 0 <= i < |works| ==> WorkOnRecord(s, works[i], started)
  }

  ghost predicate WorkOnRecord(s: State, w: Work, started: real) {
    && w.token in s.tokens && s.tokens[w.token] == TokenState(Some(w.phase), true) && w.phase in s.phases
    && Began(w.phase) in s.times && s.times[Began(w.phase)] == w.began - started
    && Ended(w.phase) in s.times && s.times[Ended(w.phase)] == w.ended - started
  }

  lemma OrdinaryLast(works: seq<Work>, w: Work)
    requires Ordinary(works + [w])
    ensures Ordinary(works) && TokenOk(w.token) && Percentages(w.reports)
    ensures forall i :: 0 <= i < |works| ==> works[i].token != w.token && works[i].phase != w.phase
    ensures w.phase == Population ==> exists j :: 0 <= j < |works| && works[j].phase == Find
  {
    hide Percentages, TokenOk;
    var all, n := works + [w], |works|;
    assert all[n] == w && forall i :: 0 <= i < n ==> all[i] == works[i];
    forall i | 0 <= i < n && works[i].phase == Population ensures exists j :: 0 <= j < i && works[j].phase == Find {
      var j :| 0 <= j < i && all[j].phase == Find;
      assert works[j].phase == Find;
    }
    if w.phase == Population {
      var j :| 0 <= j < n && all[j].phase == Find;
      assert works[j].phase == Find;
    }
  }

  /** One more piece of work can be taken up. */
  lemma WorkIsFresh(s: State, l: Locale, works: seq<Work>, w: Work, started: real)
    requires OnRecord(s, l, works, started)
    requires forall i :: 0 <= i < |works| ==> works[i].token != w.token && works[i].phase != w.phase
    requires w.phase == Population ==> exists j :: 0 <= j < |works| && works[j].phase == Find
    ensures w.token !in s.tokens && w.phase !in s.phases && |s.tokens| < 8
    ensures w.phase == Population ==> Ended(Find) in s.times
    ensures s.failure.None? && (s.locale.None? || s.locale == Some(l))
  {
    hide ServerInfo;
    FewPhases(s.phases);
    if w.phase == Population {
      var j :| 0 <= j < |works| && works[j].phase == Find;
      assert WorkOnRecord(s, works[j], started);
    }
  }

  lemma WorkStays(s: State, l: Locale, v: Work, w: Work, started: real)
    requires WorkOnRecord(s, v, started) && v.token != w.token && v.phase != w.phase
    ensures WorkOnRecord(Worked(s, l, w, started), v, started)
  {
  }

  lemma WorkRecorded(s: State, l: Locale, w: Work, started: real)
    requires w.token !in s.tokens && w.phase !in s.phases
    ensures WorkOnRecord(Worked(s, l, w, started), w, started)
    ensures var s' := Worked(s, l, w, started);
            && s'.tokens.Keys == s.tokens.Keys + {w.token} && s'.phases == s.phases + {w.phase}
            && |s'.tokens| == |s.tokens| + 1 && |s'.phases| == |s.phases| + 1
            && s'.failure == s.failure && s'.initialization == s.initialization && s'.locale == Some(l)
  {
    assert Worked(s, l, w, started).tokens.Keys == s.tokens.Keys + {w.token};
  }

  /** It is then on record with the others. */
  lemma OneMoreWork(s: State, l: Locale, works: seq<Work>, w: Work, started: real)
    requires OnRecord(s, l, works, started) && w.token !in s.tokens && w.phase !in s.phases
    requires forall i :: 0 <= i < |works| ==> works[i].token != w.token && works[i].phase != w.phase
    ensures OnRecord(Worked(s, l, w, started), l, works + [w], started)
  {
    hide WorkOnRecord, TokensOf, PhasesOf, AllOnRecord, ServerInfo, Worked;
    WorkRecorded(s, l, w, started);
    TokensGrow(s.tokens.Keys, works, w);
    PhasesGrow(s.phases, works, w);
    RecordGrows(s, l, works, w, started);
  }

  lemma TokensGrow(tokens: set<string>, works: seq<Work>, w: Work)
    requires TokensOf(tokens, works)
    ensures TokensOf(tokens + {w.token}, works + [w])
  {
    var all := works + [w];
    forall t | t in tokens + {w.token} ensures exists i :: 0 <= i < |all| && all[i].token == t {
      if t == w.token {
        assert all[|works|].token == t;
      } else {
        var i :| 0 <= i < |works| && works[i].token == t;
        assert all[i].token == t;
      }
    }
  }

  lemma PhasesGrow(phases: set<Phase>, works: seq<Work>, w: Work)
    requires PhasesOf(phases, works)
    ensures PhasesOf(phases + {w.phase}, works + [w])
  {
    var all := works + [w];
    forall p | p in phases + {w.phase} ensures exists i :: 0 <= i < |all| && all[i].phase == p {
      if p == w.phase {
        assert all[|works|].phase == p;
      } else {
        var i :| 0 <= i < |works| && works[i].phase == p;
        assert all[i].phase == p;
      }
    }
  }

  lemma RecordGrows(s: State, l: Locale, works: seq<Work>, w: Work, started: real)
    requires AllOnRecord(s, works, started) && WorkOnRecord(Worked(s, l, w, started), w, started)
    requires forall i :: 0 <= i < |works| ==> works[i].token != w.token && works[i].phase != w.phase
    ensures AllOnRecord(Worked(s, l, w, started), works + [w], started)
  {
    hide WorkOnRecord, Worked;
    forall i | 0 <= i < |works| ensures WorkOnRecord(Worked(s, l, w, started), works[i], started) {
      WorkStays(s, l, works[i], w, started);
    }
  }

  lemma SessionStart(started: real, l: Locale, now: real)
    ensures OnRecord(Run(started, Session(l, now, [])), l, [], started)
  {
    EmptyRun(started);
    hide Accept, ServerInfo, Run, InitializeMessage;
    InitializeAccepted(FRESH, started, now);
    RunStep(started, [], InitializeMessage(now));
    assert [] + [InitializeMessage(now)] == [InitializeMessage(now)];
  }

  lemma EmptyRun(started: real)
    ensures Run(started, []) == FRESH
  {
  }

  /** Every ordinary session is accepted in full. */
  lemma {:induction false} SessionAccepted(started: real, l: Locale, now: real, works: seq<Work>)
    requires Ordinary(works)
    ensures OnRecord(Run(started, Session(l, now, works)), l, works, started)
  {
    hide Ordinary, Accept, Messages, Percentages, TokenOk, ServerInfo, Run, OnRecord, Worked;
    if works == [] {
      SessionStart(started, l, now);
    } else {
      var front, w := works[..|works| - 1], works[|works| - 1];
      assert works == front + [w];
      OrdinaryLast(front, w);
      SessionAccepted(started, l, now, front);
      var s := Run(started, Session(l, now, front));
      WorkIsFresh(s, l, front, w, started);
      OneMoreWork(s, l, front, w, started);
      WorkRun(started, Session(l, now, front), l, w);
    }
  }

  /** A session with a population that ends below the timeout is admitted. */
  lemma SessionAdmissible(started: real, l: Locale, now: real, works: seq<Work>, k: nat, timeout: real)
    requires Ordinary(works) && k < |works| && works[k].phase == Population && works[k].ended - started < timeout
    ensures Admissible(Run(started, Session(l, now, works)), timeout)
  {
    hide Run;
    SessionAccepted(started, l, now, works);
    assert WorkOnRecord(Run(started, Session(l, now, works)), works[k], started);
  }

  lemma FewPhases(phases: set<Phase>)
    ensures |phases| <= 3
  {
    var all := {Find, Population, Metadata};
    forall p: Phase ensures p in all {
      match p case Find => case Population => case Metadata =>
    }
    assert all == phases + (all - phases);
  }

  datatype AdmissionError = Failed(failure: Failure) | IdentityChanged | Unconfirmed

  datatype Admission = Admission(initialization: Dict, locale: Locale, createdTokens: nat, reports: nat,
                                 populationMs: real, phaseMs: map<Moment, real>)

  function Milliseconds(times: map<Moment, real>): map<Moment, real> { map m | m in times :: times[m] * 1000.0 }

  /** What an admission reports of a state. */
  function Report(s: State): Admission
    requires s.initialization.Some? && s.locale.Some? && Ended(Population) in s.times
  {
    Admission(s.initialization.value, s.locale.value, |s.tokens|, s.reports, s.times[Ended(Population)] * 1000.0,
              Milliseconds(s.times))
  }

  class InitialPopulation {
    const started: real
    const timeout: real
    var tokens: map<string, TokenState>
    var phases: set<Phase>
    var times: map<Moment, real>
    var reports: nat
    var locale: Option<Locale>
    var initialization: Option<Dict>
    var failure: Option<Failure>
    /** The messages observed before any failure, and the one that failed. */
    ghost var messages: seq<Message>

    ghost function S(): State
      reads this
    {
      State(tokens, phases, times, reports, locale, initialization, failure)
    }

    /** The fields are the state of the run so far; a timeout adds only its failure. */
    ghost predicate Valid()
      reads this
    {
      if failure == Some(IndexTimeout) then S() == Run(started, messages).(failure := Some(IndexTimeout))
      else S() == Run(started, messages)
    }

    constructor (now: real, timeout: real)
      ensures Valid() && S() == FRESH && messages == [] && started == now && this.timeout == timeout
    {
      started, this.timeout := now, timeout;
      tokens, phases, times, reports := map[], {}, map[], 0;
      locale, initialization, failure, messages := None, None, None, [];
    }

    method Observe(m: Message)
      requires Valid()
      modifies this
      ensures Valid() && S() == Observed(old(S()), m, started)
    {
      if failure.Some? { return; }
      messages := messages + [m];
      assert messages[..|messages| - 1] == old(messages);
      var accepted := ObserveChecked(m);
      if !accepted { failure := Some(ProgressInvalid); }
    }

    /** The checks and updates of one message; false where the source raises, with nothing changed. */
    method ObserveChecked(m: Message) returns (ok: bool)
      modifies this`tokens, this`phases, this`times, this`reports, this`locale, this`initialization
      ensures ok <==> Accept(old(S()), m, started).Some?
      ensures S() == if ok then Accept(old(S()), m, started).value else old(S())
    {
      hide Progress, TokenOf, Truthy, DictOf, ServerInfo;
      ProgressNeeds(S(), m, started);
      if m.params.None? { return false; }
      var params := m.params.value;
      if "invalid" in params && Truthy(params["invalid"]) { return false; }
      if m.name == "initialize-result" {
        var info := At(params, "serverInfo");
        if initialization.Some? || info.None? || !info.value.Obj? { return false; }
        if DictOf(info.value.fields) != ServerInfo() { return false; }
        initialization := Some(DictOf(info.value.fields));
        times := times[Initialized := m.now - started];
        return true;
      }
      var token := TokenOf(params);
      if token.None? { return false; }
      if m.name == "window/workDoneProgress/create" {
        if params.Keys != {"token"} || token.value in tokens || |tokens| >= 8 { return false; }
        tokens := tokens[token.value := TokenState(None, false)];
        return true;
      }
      if m.name != "$/progress" || params.Keys != {"token", "value"} || token.value !in tokens { return false; }
      ok := ObserveProgress(params, token.value, m.now);
    }

    method ObserveProgress(params: Dict, token: string, now: real) returns (ok: bool)
      requires params.Keys == {"token", "value"} && token in tokens
      modifies this`tokens, this`phases, this`times, this`reports, this`locale
      ensures ok <==> Progress(old(S()), params, token, now - started).Some?
      ensures S() == if ok then Progress(old(S()), params, token, now - started).value else old(S())
    {
      hide ValueOf, TitleMatches, Finished;
      var found := ValueOf(params);
      if found.None? || tokens[token].ended { return false; }
      var value, kind := found.value, At(found.value, "kind");
      if kind == Some(Str("begin")) {
        var matches := if "title" in value then TitleMatches(value["title"]) else [];
        if tokens[token].phase.Some? || |matches| != 1 { return false; }
        var (l, phase) := matches[0];
        if (locale.Some? && locale.value != l) || phase in phases { return false; }
        if phase == Population && Ended(Find) !in times { return false; }
        locale, phases := Some(l), phases + {phase};
        tokens := tokens[token := tokens[token].(phase := Some(phase))];
        times := times[Began(phase) := now - started];
      } else if kind == Some(Str("report")) {
        if tokens[token].phase.None? { return false; }
        reports := reports + 1;
      } else if kind == Some(Str("end")) {
        var phase := tokens[token].phase;
        if phase.None? || locale.None? { return false; }
        if At(value, "message") != Some(Str(Finished(locale.value, phase.value))) { return false; }
        tokens := tokens[token := tokens[token].(ended := true)];
        times := times[Ended(phase.value) := now - started];
      } else {
        return false;
      }
      return true;
    }

    /** Fails on a recorded failure, on a changed identity, or when the population (or the clock,
        if it has not ended) has reached the timeout. */
    method Check(now: real, unchangedIdentity: bool) returns (error: Option<AdmissionError>)
      requires Valid()
      modifies this`failure
      ensures Valid() && S() == old(S()).(failure := failure)
      ensures error.None? <==>
                && old(failure).None? && unchangedIdentity
                && (if Ended(Population) in times then times[Ended(Population)] else now - started) < timeout
      ensures failure == if old(failure).None? && unchangedIdentity && error.Some?
                         then Some(IndexTimeout) else old(failure)
    {
      if failure.Some? { return Some(Failed(failure.value)); }
      if !unchangedIdentity { return Some(IdentityChanged); }
      var elapsed := if Ended(Population) in times then times[Ended(Population)] else now - started;
      if elapsed >= timeout {
        failure := Some(IndexTimeout);
        return Some(Failed(IndexTimeout));
      }
      return None;
    }

    /** Admits exactly an unfailed run on an unchanged root that was initialized and whose
        population ended below the timeout. */
    method Admit(now: real, unchangedIdentity: bool) returns (r: Result<Admission, AdmissionError>)
      requires Valid()
      modifies this`failure
      ensures Valid() && S() == old(S()).(failure := failure)
      ensures r.Ok? <==> unchangedIdentity && Admissible(old(S()), timeout)
      ensures r.Ok? ==>
                && S() == Run(started, messages) && locale.Some? && r.value == Report(S())
    {
      var error := Check(now, unchangedIdentity);
      if error.Some? { return Err(error.value); }
      if initialization.None? || Ended(Population) !in times { return Err(Unconfirmed); }
      RunConsistent(started, messages);
      r := Ok(Admission(initialization.value, locale.value, |tokens|, reports, times[Ended(Population)] * 1000.0,
                        Milliseconds(times)));
    }
  }

  /** A probe that observes a whole session and is asked to admit it. */
  method Attend(started: real, timeout: real, messages: seq<Message>, now: real)
      returns (p: InitialPopulation, r: Result<Admission, AdmissionError>)
    ensures r.Ok? <==> Admissible(Run(started, messages), timeout)
    ensures r.Ok? ==> Run(started, messages).locale.Some? && r.value == Report(Run(started, messages))
  {
    hide Accept, Run, Consistent;
    p := new InitialPopulation(started, timeout);
    EmptyRun(started);
    for i := 0 to |messages|
      invariant fresh(p) && p.Valid() && p.started == started && p.timeout == timeout
      invariant p.S() == Run(started, messages[..i])
    {
      RunExtends(started, messages, i);
      p.Observe(messages[i]);
    }
    assert messages[..|messages|] == messages;
    r := p.Admit(now, true);
  }

  lemma RunExtends(started: real, messages: seq<Message>, i: nat)
    requires i < |messages|
    ensures Run(started, messages[..i + 1]) == Observed(Run(started, messages[..i]), messages[i], started)
    ensures messages[..0] == []
  {
    hide Accept;
    assert messages[..i + 1][..i] == messages[..i];
  }

  /** The ordinary session is admitted, with the population time that it took. */
  method OrdinaryAdmission(started: real, timeout: real, l: Locale, works: seq<Work>, k: nat, now: real)
      returns (r: Result<Admission, AdmissionError>)
    requires Ordinary(works) && k < |works| && works[k].phase == Population && works[k].ended - started < timeout
    ensures r.Ok? && r.value.locale == l && r.value.createdTokens == |works|
    ensures r.value.populationMs == (works[k].ended - started) * 1000.0
  {
    hide Run, Accept;
    SessionAdmissible(started, l, now, works, k, timeout);
    SessionAccepted(started, l, now, works);
    assert WorkOnRecord(Run(started, Session(l, now, works)), works[k], started);
    var _, admission := Attend(started, timeout, Session(l, now, works), now);
    r := admission;
  }
}
