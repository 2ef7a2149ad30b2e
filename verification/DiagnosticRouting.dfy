/** Routing of diagnostics around a transient acceptance window
    (tools/check_jupyter_lsp_browser.py, DiagnosticWindow and the server side of route_socket).
    What a raw message is on the wire and how many bytes it has are given functions; whether a send
    succeeds is adversarial. */
module DiagnosticRouting {
  import opened Wrappers

  type Socket = nat

  datatype Diagnostics = Diagnostics(uri: string, version: nat, count: nat)

  datatype Parsed = Malformed | OtherMessage | Publish(params: Diagnostics)

  /** The parameters of a message: not an object, or an object that holds a well-typed publication or
      none. A missing object counts as an empty one. */
  datatype Params = NotDict | Fields(publication: Option<Diagnostics>)

  /** A raw message: not a JSON object, or an object with its id, whether it publishes diagnostics, and
      its parameters. */
  datatype Wire = NotObject | Object(idHashable: bool, publishes: bool, params: Params)

  /** The reading of a message by from_server itself, outside its try block, raises no exception. */
  predicate Routable(w: Wire) { w.Object? && w.idHashable && (w.publishes ==> w.params.Fields?) }

  /** What _diagnostic makes of a message; where it raises, the message is malformed. */
  function DiagnosticOf(w: Wire): Parsed {
    match w
    case NotObject => Malformed
    case Object(_, false, _) => OtherMessage
    case Object(_, true, NotDict) => Malformed
    case Object(_, true, Fields(None)) => Malformed
    case Object(_, true, Fields(Some(d))) => Publish(d)
  }

  function ParserOf(wire: string -> Wire): Parser { raw => DiagnosticOf(wire(raw)) }

  datatype Held = Held(socket: Socket, raw: string, size: nat)

  datatype Key = Key(socket: Socket, uri: string)

  datatype Target = Target(socket: Socket, uri: string, version: nat)

  datatype WindowError =
    | MessageInvalid | QueueLimit | AlreadyActive | VersionUnavailable | Routing | VersionChanged
    | NoTarget | SendFailed | DrainFailed | IdentityUnavailable | IdentityInvalid | MessageUnroutable

  const MAX_MESSAGES := 64
  const MAX_BYTES := 2 * 1024 * 1024

  type Parser = string -> Parsed
  type Sizer = string -> nat

  // ----- the bounded memory of delivered diagnostics, oldest first -----

  type Memory = seq<(Key, string)>

  function Forget(m: Memory, key: Key): Memory {
    if m == [] then [] else (if m[0].0 == key then [] else [m[0]]) + Forget(m[1..], key)
  }

  function Bytes(size: Sizer, m: Memory): nat {
    if m == [] then 0 else size(m[0].1) + Bytes(size, m[1..])
  }

  predicate WithinBounds(size: Sizer, m: Memory) { |m| <= MAX_MESSAGES && Bytes(size, m) <= MAX_BYTES }

  lemma EmptyWithinBounds(size: Sizer)
    ensures WithinBounds(size, [])
  {
  }

  ghost predicate KeysDistinct(m: Memory) { forall i, j :: 0 <= i < j < |m| ==> m[i].0 != m[j].0 }

  /** `kept` is the longest suffix of `m` within the bounds: what least-recent eviction leaves. */
  ghost predicate LongestSuffix(size: Sizer, m: Memory, kept: Memory) {
    && |kept| <= |m| && kept == m[|m| - |kept|..] && WithinBounds(size, kept)
    && forall k :: 0 <= k < |m| - |kept| ==> !WithinBounds(size, m[k..])
  }

  function Lookup(m: Memory, key: Key): Option<string> {
    if m == [] then None else if m[0].0 == key then Some(m[0].1) else Lookup(m[1..], key)
  }

  function QueueBytes(q: seq<Held>): nat {
    if q == [] then 0 else QueueBytes(q[..|q| - 1]) + q[|q| - 1].size
  }

  lemma {:induction false} ForgetFacts(m: Memory, key: Key)
    requires KeysDistinct(m)
    ensures forall i :: 0 <= i < |Forget(m, key)| ==> Forget(m, key)[i] in m && Forget(m, key)[i].0 != key
    ensures KeysDistinct(Forget(m, key))
  {
    if m != [] { ForgetFacts(m[1..], key); }
  }

  lemma {:induction false} LookupFound(m: Memory, key: Key)
    ensures Lookup(m, key).Some? ==> (key, Lookup(m, key).value) in m
  {
    if m != [] { LookupFound(m[1..], key); }
  }

  /** Forgetting a document takes its entry out and keeps the others in order. */
  lemma {:induction false} ForgetAt(m: Memory, key: Key, i: nat)
    requires KeysDistinct(m) && i < |m| && m[i].0 == key
    ensures Forget(m, key) == m[..i] + m[i + 1..]
  {
    var rest := m[1..];
    if i == 0 {
      ForgetAbsent(rest, key);
    } else {
      ForgetAt(rest, key, i - 1);
      assert [m[0]] + (rest[..i - 1] + rest[i..]) == m[..i] + m[i + 1..];
    }
  }

  lemma {:induction false} ForgetAbsent(m: Memory, key: Key)
    requires forall i :: 0 <= i < |m| ==> m[i].0 != key
    ensures Forget(m, key) == m
  {
    if m != [] {
      ForgetAbsent(m[1..], key);
      assert m == [m[0]] + m[1..];
    }
  }

  /** A document is looked up exactly where it is remembered. */
  lemma {:induction false} LookupIff(m: Memory, key: Key, raw: string)
    requires KeysDistinct(m)
    ensures Lookup(m, key) == Some(raw) <==> (key, raw) in m
  {
    if m != [] {
      LookupIff(m[1..], key, raw);
      assert m == [m[0]] + m[1..];
    }
  }

  /** The bytes of nothing, of one entry and of two parts. */
  lemma {:induction false} BytesLaws(size: Sizer, a: Memory, b: Memory, x: (Key, string))
    ensures Bytes(size, []) == 0 && Bytes(size, [x]) == size(x.1)
    ensures Bytes(size, a + b) == Bytes(size, a) + Bytes(size, b)
  {
    assert [x][1..] == [];
    if a == [] {
      assert a + b == b;
    } else {
      assert (a + b)[1..] == a[1..] + b;
      BytesLaws(size, a[1..], b, x);
    }
  }

  /** What stays of a memory when the oldest entries go until the rest fits. */
  function Kept(size: Sizer, m: Memory): Memory {
    if m == [] || WithinBounds(size, m) then m else Kept(size, m[1..])
  }

  lemma {:induction false} KeptIff(size: Sizer, m: Memory, kept: Memory)
    ensures LongestSuffix(size, m, kept) <==> kept == Kept(size, m)
  {
    hide WithinBounds;
    EmptyWithinBounds(size);
    if m != [] && !WithinBounds(size, m) {
      var rest := m[1..];
      KeptIff(size, rest, kept);
      assert forall k :: 0 <= k < |rest| ==> rest[k..] == m[k + 1..];
      assert m[0..] == m;
      if LongestSuffix(size, m, kept) {
        assert |kept| != |m|;
        assert kept == rest[|rest| - |kept|..];
        forall k | 0 <= k < |rest| - |kept| ensures !WithinBounds(size, rest[k..]) { assert rest[k..] == m[k + 1..]; }
      }
      if LongestSuffix(size, rest, kept) {
        assert kept == m[|m| - |kept|..];
        forall k | 0 <= k < |m| - |kept| ensures !WithinBounds(size, m[k..]) {
          if k > 0 { assert m[k..] == rest[k - 1..]; }
        }
      }
    } else {
      assert m[0..] == m;
    }
  }

  /** The memory after a delivered message. */
  function Remembered(size: Sizer, m: Memory, key: Key, raw: string): Memory {
    Kept(size, Forget(m, key) + [(key, raw)])
  }

  /** A message that fits by itself is the newest one remembered. */
  lemma NewestRemembered(size: Sizer, m: Memory, key: Key, raw: string)
    requires size(raw) <= MAX_BYTES
    ensures var r := Remembered(size, m, key, raw); r != [] && r[|r| - 1] == (key, raw)
  {
    hide Forget, Bytes;
    var all := Forget(m, key) + [(key, raw)];
    var kept, last := Kept(size, all), |all| - 1;
    KeptIff(size, all, kept);
    BytesLaws(size, [], [], (key, raw));
    assert all[last..] == [(key, raw)];
    assert WithinBounds(size, all[last..]);
  }

  // ----- the held queue -----

  type Message = (Socket, string)

  function Pairs(q: seq<Held>): (r: seq<Message>)
    ensures |r| == |q| && forall i :: 0 <= i < |q| ==> r[i] == (q[i].socket, q[i].raw)
  {
    seq(|q|, i requires 0 <= i < |q| => (q[i].socket, q[i].raw))
  }

  function DropAt(q: seq<Held>, i: nat): seq<Held>
    requires i < |q|
  {
    q[..i] + q[i + 1..]
  }

  lemma {:induction false} QueueBytesDrop(q: seq<Held>, i: nat)
    requires i < |q|
    ensures QueueBytes(DropAt(q, i)) == QueueBytes(q) - q[i].size
    decreases |q|
  {
    var n := |q| - 1;
    if i == n {
      assert DropAt(q, i) == q[..n];
    } else {
      assert DropAt(q, i)[..n - 1] == DropAt(q[..n], i);
      QueueBytesDrop(q[..n], i);
    }
  }

  lemma {:induction false} QueueBytesMember(q: seq<Held>, i: nat)
    requires i < |q|
    ensures q[i].size <= QueueBytes(q)
  {
    if i < |q| - 1 { QueueBytesMember(q[..|q| - 1], i); }
  }

  /** The arrivals whose positions are not in `gone`, in order. */
  function Without(arrivals: seq<Held>, gone: set<nat>): seq<Held> {
    if arrivals == [] then []
    else
      var n := |arrivals| - 1;
      Without(arrivals[..n], gone) + if n in gone then [] else [arrivals[n]]
  }

  lemma WithoutAppend(arrivals: seq<Held>, gone: set<nat>, x: Held)
    requires |arrivals| !in gone
    ensures Without(arrivals + [x], gone) == Without(arrivals, gone) + [x]
  {
    assert (arrivals + [x])[..|arrivals|] == arrivals;
  }

  /** Taking one message out of the queue takes one arrival out of the order. */
  lemma {:induction false} WithoutOne(arrivals: seq<Held>, gone: set<nat>, i: nat) returns (j: nat)
    requires i < |Without(arrivals, gone)|
    ensures j < |arrivals| && j !in gone && arrivals[j] == Without(arrivals, gone)[i]
    ensures Without(arrivals, gone + {j}) == DropAt(Without(arrivals, gone), i)
    ensures i == |Without(arrivals[..j], gone)|
  {
    var n := |arrivals| - 1;
    var before := Without(arrivals[..n], gone);
    if i < |before| {
      j := WithoutOne(arrivals[..n], gone, i);
      assert n in gone + {j} <==> n in gone;
      assert arrivals[..n][..j] == arrivals[..j];
    } else {
      j := n;
      WithoutBeyond(arrivals[..n], gone, n);
    }
  }

  lemma {:induction false} WithoutPrefix(arrivals: seq<Held>, gone: set<nat>, j: nat)
    requires j <= |arrivals|
    ensures Without(arrivals[..j], gone) <= Without(arrivals, gone)
  {
    var n := |arrivals| - 1;
    if j <= n {
      WithoutPrefix(arrivals[..n], gone, j);
      assert arrivals[..n][..j] == arrivals[..j];
    } else {
      assert arrivals[..j] == arrivals;
    }
  }

  /** The arrivals before `j` that are still held are those in front of it in the queue. */
  lemma {:induction false} HeldBefore(arrivals: seq<Held>, gone: set<nat>, j: nat)
    requires j <= |arrivals|
    ensures forall k :: 0 <= k < j && k !in gone ==> arrivals[k] in Without(arrivals[..j], gone)
    ensures |Without(arrivals[..j], gone)| == 0 <==> AllGone(gone, j)
  {
    if j > 0 {
      HeldBefore(arrivals, gone, j - 1);
      assert arrivals[..j][..j - 1] == arrivals[..j - 1];
      assert AllGone(gone, j) <==> AllGone(gone, j - 1) && j - 1 in gone;
    }
  }

  lemma {:induction false} WithoutBeyond(arrivals: seq<Held>, gone: set<nat>, n: nat)
    requires |arrivals| <= n
    ensures Without(arrivals, gone + {n}) == Without(arrivals, gone)
  {
    if arrivals != [] { WithoutBeyond(arrivals[..|arrivals| - 1], gone, n); }
  }

  /** The document a held diagnostic is about. */
  function KeyOf(parse: Parser, h: Held): Key {
    Key(h.socket, if parse(h.raw).Publish? then parse(h.raw).params.uri else "")
  }

  /** The memory after the sends of the first `n` held messages: each success is remembered, in order. */
  function Drained(parse: Parser, size: Sizer, m: Memory, q: seq<Held>, sent: nat -> bool, n: nat): Memory
    requires n <= |q|
  {
    if n == 0 then m
    else
      var before := Drained(parse, size, m, q, sent, n - 1);
      if sent(n - 1) then Remembered(size, before, KeyOf(parse, q[n - 1]), q[n - 1].raw) else before
  }

  ghost predicate LastSent(sent: nat -> bool, n: nat, k: nat) {
    k < n && sent(k) && forall j :: k < j < n ==> !sent(j)
  }

  /** The last message sent successfully is the newest one remembered. */
  lemma {:induction false} LastSentIsNewest(parse: Parser, size: Sizer, m: Memory, q: seq<Held>, sent: nat -> bool,
                                            n: nat, k: nat)
    requires n <= |q| && LastSent(sent, n, k) && size(q[k].raw) <= MAX_BYTES
    ensures var r := Drained(parse, size, m, q, sent, n);
            r != [] && r[|r| - 1] == (KeyOf(parse, q[k]), q[k].raw)
  {
    hide Remembered;
    if k == n - 1 {
      NewestRemembered(size, Drained(parse, size, m, q, sent, k), KeyOf(parse, q[k]), q[k].raw);
    } else {
      LastSentIsNewest(parse, size, m, q, sent, n - 1, k);
    }
  }

  /** The message is a nonempty publication for the target document at the target version. */
  predicate IsAnchor(parse: Parser, h: Held, t: Target) {
    && h.socket == t.socket && parse(h.raw).Publish?
    && parse(h.raw).params.uri == t.uri && parse(h.raw).params.version == t.version && parse(h.raw).params.count > 0
  }

  // ----- the invariant, part by part -----

  /** The queue is accounted for and bounded, and empty while the window is closed. */
  ghost predicate QueueOk(parse: Parser, size: Sizer, queue: seq<Held>, queuedBytes: nat, active: bool) {
    && queuedBytes == QueueBytes(queue) && queuedBytes <= MAX_BYTES && |queue| <= MAX_MESSAGES
    && (forall i :: 0 <= i < |queue| ==> parse(queue[i].raw).Publish? && queue[i].size == size(queue[i].raw))
    && (!active ==> queue == [])
  }

  /** The memory is bounded and holds, by document, messages that were received for it. */
  ghost predicate MemoryOk(parse: Parser, size: Sizer, latest: Memory, received: seq<Message>) {
    && WithinBounds(size, latest) && KeysDistinct(latest)
    && forall i :: 0 <= i < |latest| ==> RememberedOk(parse, latest[i], received)
  }

  ghost predicate RememberedOk(parse: Parser, x: (Key, string), received: seq<Message>) {
    parse(x.1).Publish? && parse(x.1).params.uri == x.0.uri && (x.0.socket, x.1) in received
  }

  /** Every received message is attempted once, held, or lost. */
  ghost predicate Conserved(received: seq<Message>, attempts: seq<Message>, queue: seq<Held>, lost: seq<Message>) {
    multiset(received) == multiset(attempts) + multiset(Pairs(queue)) + multiset(lost)
  }

  /** The messages from_server raises on before it looks at the window. */
  function Unroutable(wire: string -> Wire, received: seq<Message>): seq<Message> {
    if received == [] then []
    else
      var n := |received| - 1;
      Unroutable(wire, received[..n]) + if Routable(wire(received[n].1)) then [] else [received[n]]
  }

  lemma {:induction false} UnroutableNone(wire: string -> Wire, received: seq<Message>)
    ensures Unroutable(wire, received) == [] <==> forall i :: 0 <= i < |received| ==> Routable(wire(received[i].1))
  {
    if received != [] {
      UnroutableNone(wire, received[..|received| - 1]);
    }
  }

  lemma UnroutableStep(wire: string -> Wire, received: seq<Message>, m: Message)
    ensures Unroutable(wire, received + [m])
         == Unroutable(wire, received) + if Routable(wire(m.1)) then [] else [m]
  {
    assert (received + [m])[..|received|] == received;
  }

  /** Every received message is attempted or held exactly when none of them was unroutable. */
  lemma NothingLostIff(wire: string -> Wire, received: seq<Message>, attempts: seq<Message>, queue: seq<Held>)
    requires Conserved(received, attempts, queue, Unroutable(wire, received))
    ensures multiset(received) == multiset(attempts) + multiset(Pairs(queue)) <==>
              forall i :: 0 <= i < |received| ==> Routable(wire(received[i].1))
  {
    hide Unroutable, Routable, Pairs;
    var lost, rest := Unroutable(wire, received), multiset(attempts) + multiset(Pairs(queue));
    UnroutableNone(wire, received);
    if lost != [] {
      assert lost[0] in multiset(lost);
      assert multiset(received)[lost[0]] == rest[lost[0]] + multiset(lost)[lost[0]];
    }
  }

  /** The queue is the arrivals of this window in order, apart from those replayed early. The replays took
      the first arrivals that can serve as the anchor, one each, whether their sends succeeded or not; a
      successful one is the last, and selected the anchor. A replay was late if an older arrival was still
      held, and then that one is held yet. */
  ghost predicate InOrder(parse: Parser, target: Option<Target>, queue: seq<Held>, arrivals: seq<Held>,
                          gone: set<nat>, late: set<nat>, replays: seq<bool>, selected: Option<Diagnostics>)
  {
    && queue == Without(arrivals, gone)
    && (forall j :: j in gone ==> j < |arrivals| && target.Some? && IsAnchor(parse, arrivals[j], target.value))
    && (forall j, k :: j in gone && 0 <= k < j && IsAnchor(parse, arrivals[k], target.value) ==> k in gone)
    && (forall j :: j in late <==> j in gone && !AllGone(gone, j))
    && |gone| == |replays|
    && (forall i :: 0 <= i < |replays| - 1 ==> !replays[i])
    && (true in replays ==> selected.Some?)
  }

  /** No arrival before `j` is still held. */
  ghost predicate AllGone(gone: set<nat>, j: nat) { forall k :: 0 <= k < j ==> k in gone }

  /** How many arrivals stand before the first one that cannot serve as the anchor. */
  function Lead(parse: Parser, arrivals: seq<Held>, t: Target): (r: nat)
    ensures r <= |arrivals| && (forall k :: 0 <= k < r ==> IsAnchor(parse, arrivals[k], t))
    ensures r < |arrivals| ==> !IsAnchor(parse, arrivals[r], t)
  {
    if arrivals == [] then 0
    else
      var n := |arrivals| - 1;
      var r := Lead(parse, arrivals[..n], t);
      if r == n && IsAnchor(parse, arrivals[n], t) then n + 1 else r
  }

  function Failures(replays: seq<bool>): nat {
    if replays == [] then 0 else Failures(replays[..|replays| - 1]) + if replays[|replays| - 1] then 0 else 1
  }

  lemma {:induction false} FailuresOf(replays: seq<bool>)
    requires forall i :: 0 <= i < |replays| - 1 ==> !replays[i]
    ensures |replays| == Failures(replays) + if true in replays then 1 else 0
  {
    if replays != [] {
      var front := replays[..|replays| - 1];
      FailuresOf(front);
      assert replays == front + [replays[|replays| - 1]];
    }
  }

  function Below(n: nat): (r: set<nat>)
    ensures |r| == n && forall k :: k in r <==> 0 <= k < n
  {
    if n == 0 then {} else Below(n - 1) + {n - 1}
  }

  /** Late are exactly the replayed arrivals behind the first one that cannot serve as the anchor. */
  lemma LateBehindLead(parse: Parser, t: Target, queue: seq<Held>, arrivals: seq<Held>, gone: set<nat>,
                       late: set<nat>, replays: seq<bool>, selected: Option<Diagnostics>)
    requires InOrder(parse, Some(t), queue, arrivals, gone, late, replays, selected)
    ensures late == gone - Below(Lead(parse, arrivals, t))
    ensures late == {} || Below(Lead(parse, arrivals, t)) <= gone
  {
    hide IsAnchor, Without, Lead;
    var lead := Lead(parse, arrivals, t);
    forall j | j in gone
      ensures j in late <==> j >= lead
      ensures j >= lead ==> Below(lead) <= gone
    {
      if j >= lead {
        assert lead < |arrivals| && lead !in gone && j != lead;
      }
    }
  }

  /** How many held messages leave out of turn, that is, while an older one is still held: as many as there
      were replays, failed or not, beyond the arrivals in front of the first stale one. So at most one does
      exactly when the failed replays and the replayed anchor are at most one more than those arrivals. */
  lemma OutOfTurnIff(parse: Parser, t: Target, queue: seq<Held>, arrivals: seq<Held>, gone: set<nat>,
                     late: set<nat>, replays: seq<bool>, selected: Option<Diagnostics>)
    requires InOrder(parse, Some(t), queue, arrivals, gone, late, replays, selected)
    ensures |gone| == Failures(replays) + if true in replays then 1 else 0
    ensures |late| == if |gone| <= Lead(parse, arrivals, t) then 0 else |gone| - Lead(parse, arrivals, t)
    ensures |late| <= 1 <==>
              Failures(replays) + (if true in replays then 1 else 0) <= Lead(parse, arrivals, t) + 1
    ensures late == {} <==> Failures(replays) + (if true in replays then 1 else 0) <= Lead(parse, arrivals, t)
  {
    hide IsAnchor, Without, Lead, Below;
    FailuresOf(replays);
    LateBehindLead(parse, t, queue, arrivals, gone, late, replays, selected);
    var front := Below(Lead(parse, arrivals, t));
    if late == {} {
      assert gone <= front;
      SubsetSmaller(gone, front);
    } else {
      assert gone == front + late;
    }
  }

  lemma {:induction false} SubsetSmaller(a: set<nat>, b: set<nat>)
    requires a <= b
    ensures |a| <= |b|
  {
    assert b == a + (b - a);
  }

  /** An anchor is a received, nonempty publication for the target document at its version. */
  ghost predicate SelectedOk(parse: Parser, selected: Option<Diagnostics>, target: Option<Target>,
                             received: seq<Message>, active: bool)
  {
    && (active <==> target.Some?)
    && (selected.Some? ==>
          && target.Some? && selected.value.uri == target.value.uri
          && selected.value.version == target.value.version && selected.value.count > 0
          && exists raw :: (target.value.socket, raw) in received && parse(raw) == Publish(selected.value))
  }

  lemma ReceivedGrows(parse: Parser, size: Sizer, latest: Memory, selected: Option<Diagnostics>, target: Option<Target>,
                      received: seq<Message>, active: bool, m: Message)
    ensures MemoryOk(parse, size, latest, received) ==> MemoryOk(parse, size, latest, received + [m])
    ensures SelectedOk(parse, selected, target, received, active) ==>
        SelectedOk(parse, selected, target, received + [m], active)
  {
    if SelectedOk(parse, selected, target, received, active) && selected.Some? {
      var raw :| (target.value.socket, raw) in received && parse(raw) == Publish(selected.value);
      assert (target.value.socket, raw) in received + [m];
    }
  }

  /** A received message is accounted for by holding it, by trying to send it, or as lost. */
  lemma Accounted(received: seq<Message>, attempts: seq<Message>, queue: seq<Held>, lost: seq<Message>, h: Held)
    requires Conserved(received, attempts, queue, lost)
    ensures Conserved(received + [(h.socket, h.raw)], attempts, queue + [h], lost)
    ensures Conserved(received + [(h.socket, h.raw)], attempts + [(h.socket, h.raw)], queue, lost)
    ensures Conserved(received + [(h.socket, h.raw)], attempts, queue, lost + [(h.socket, h.raw)])
  {
    assert Pairs(queue + [h]) == Pairs(queue) + [(h.socket, h.raw)];
  }

  /** A held message is still accounted for when it is taken out and tried. */
  lemma Replayed(received: seq<Message>, attempts: seq<Message>, queue: seq<Held>, lost: seq<Message>, i: nat)
    requires Conserved(received, attempts, queue, lost) && i < |queue|
    ensures Conserved(received, attempts + [(queue[i].socket, queue[i].raw)], DropAt(queue, i), lost)
  {
    var m := (queue[i].socket, queue[i].raw);
    assert Pairs(queue) == Pairs(queue[..i]) + [m] + Pairs(queue[i + 1..]);
    assert Pairs(DropAt(queue, i)) == Pairs(queue[..i]) + Pairs(queue[i + 1..]);
  }

  lemma QueueDrops(parse: Parser, size: Sizer, queue: seq<Held>, queuedBytes: nat, active: bool, i: nat)
    requires QueueOk(parse, size, queue, queuedBytes, active) && i < |queue|
    ensures queue[i].size <= queuedBytes
    ensures QueueOk(parse, size, DropAt(queue, i), queuedBytes - queue[i].size, active)
  {
    QueueBytesMember(queue, i);
    QueueBytesDrop(queue, i);
  }

  lemma ArrivesLast(parse: Parser, target: Option<Target>, queue: seq<Held>, arrivals: seq<Held>, gone: set<nat>,
                    late: set<nat>, replays: seq<bool>, selected: Option<Diagnostics>, h: Held)
    requires InOrder(parse, target, queue, arrivals, gone, late, replays, selected)
    ensures InOrder(parse, target, queue + [h], arrivals + [h], gone, late, replays, selected)
  {
    hide IsAnchor, Without;
    assert |arrivals| !in gone;
    WithoutAppend(arrivals, gone, h);
  }

  class DiagnosticWindow {
    const wire: string -> Wire
    const parse: Parser := ParserOf(wire)
    const size: Sizer
    var versions: map<Key, Option<int>>
    var latest: Memory
    var queue: seq<Held>
    var queuedBytes: nat
    var active: bool
    var target: Option<Target>
    var selected: Option<Diagnostics>
    var failure: Option<WindowError>
    /** Every message that came from the server, every send attempt, and every message that was neither
        held nor sent, in order. */
    ghost var received: seq<Message>
    ghost var attempts: seq<Message>
    ghost var lost: seq<Message>
    /** Since the window opened: the held arrivals, the positions replayed early, those of them replayed
        while an older arrival was still held, and whether the send of each replay succeeded. */
    ghost var arrivals: seq<Held>
    ghost var gone: set<nat>
    ghost var late: set<nat>
    ghost var replays: seq<bool>

    ghost predicate Valid()
      reads this`latest, this`queue, this`queuedBytes, this`active, this`target, this`selected
      reads this`received, this`attempts, this`lost, this`arrivals, this`gone, this`late, this`replays
    {
      && QueueOk(parse, size, queue, queuedBytes, active)
      && MemoryOk(parse, size, latest, received)
      && Conserved(received, attempts, queue, lost) && lost == Unroutable(wire, received)
      && InOrder(parse, target, queue, arrivals, gone, late, replays, selected)
      && SelectedOk(parse, selected, target, received, active)
    }

    constructor (wire: string -> Wire, size: Sizer)
      ensures Valid() && received == attempts == [] && !active && failure == None
      ensures this.wire == wire && this.size == size && latest == [] && queue == [] && queuedBytes == 0
          && versions == map[]
    {
      this.wire, this.size := wire, size;
      versions, latest, queue, queuedBytes, active := map[], [], [], 0, false;
      target, selected, failure := None, None, None;
      received, attempts, lost, arrivals, gone, late, replays := [], [], [], [], {}, {}, [];
    }

    /** A client message that opens or changes a document sets its current version. */
    method Client(socket: Socket, name: string, uri: string, version: Option<int>)
      requires Valid()
      modifies this`versions
      ensures Valid()
      ensures versions == if name in {"textDocument/didOpen", "textDocument/didChange"}
                          then old(versions)[Key(socket, uri) := version] else old(versions)
    {
      hide DiagnosticWindow.Valid;
      if name == "textDocument/didOpen" || name == "textDocument/didChange" {
        versions := versions[Key(socket, uri) := version];
      }
    }

    /** Remembers a message as the latest of its document and forgets the oldest ones that no
        longer fit. What stays is the longest recent part within the bounds. */
    method Remember(socket: Socket, raw: string, params: Diagnostics)
      requires MemoryOk(parse, size, latest, received) && parse(raw) == Publish(params) && (socket, raw) in received
      modifies this`latest
      ensures MemoryOk(parse, size, latest, received)
      ensures var key := Key(socket, params.uri); LongestSuffix(size, Forget(old(latest), key) + [(key, raw)], latest)
      ensures latest == Remembered(size, old(latest), Key(socket, params.uri), raw)
    {
      hide Forget, Bytes, Kept;
      var key := Key(socket, params.uri);
      ForgetFacts(latest, key);
      latest := Forget(latest, key) + [(key, raw)];
      ghost var all := latest;
      ghost var dropped := 0;
      while !WithinBounds(size, latest)
        invariant 0 <= dropped <= |all| && latest == all[dropped..]
        invariant forall k :: 0 <= k < dropped ==> !WithinBounds(size, all[k..])
        decreases |latest|
      {
        EmptyWithinBounds(size);
        latest := latest[1..];
        dropped := dropped + 1;
      }
      KeptIff(size, all, latest);
    }

    /** The open window takes the message. */
    predicate Holds(raw: string)
      reads this`queue, this`queuedBytes, this`active
    {
      && active && parse(raw).Publish? && |queue| < MAX_MESSAGES && queuedBytes + size(raw) <= MAX_BYTES
    }

    /** Holds a diagnostic while the window is open; otherwise remembers it. Tells whether the
        message was held. */
    method Server(socket: Socket, raw: string) returns (r: Result<bool, WindowError>)
      requires QueueOk(parse, size, queue, queuedBytes, active) && MemoryOk(parse, size, latest, received)
          && (socket, raw) in received
      modifies this`latest, this`queue, this`queuedBytes
      ensures QueueOk(parse, size, queue, queuedBytes, active) && MemoryOk(parse, size, latest, received)
      ensures r == match parse(raw)
                   case Malformed => Err(MessageInvalid)
                   case OtherMessage => Ok(false)
                   case Publish(_) =>
                     if !active then Ok(false) else if old(Holds(raw)) then Ok(true) else Err(QueueLimit)
      ensures r == Ok(true) <==> old(Holds(raw))
      ensures r == Ok(true) <==> old(active) && parse(raw).Publish?
                                 && |old(queue)| < 64 && old(queuedBytes) + size(raw) <= 2097152
      ensures queue == if r == Ok(true) then old(queue) + [Held(socket, raw, size(raw))] else old(queue)
      ensures queuedBytes == old(queuedBytes) + if r == Ok(true) then size(raw) else 0
      ensures r != Ok(false) || parse(raw) == OtherMessage ==> latest == old(latest)
      ensures r == Ok(false) && parse(raw).Publish? ==>
                var key := Key(socket, parse(raw).params.uri);
                LongestSuffix(size, Forget(old(latest), key) + [(key, raw)], latest)
    {
      match parse(raw) {
        case Malformed => return Err(MessageInvalid);
        case OtherMessage => return Ok(false);
        case Publish(params) =>
          if active {
            if |queue| >= MAX_MESSAGES || queuedBytes + size(raw) > MAX_BYTES { return Err(QueueLimit); }
            assert (queue + [Held(socket, raw, size(raw))])[..|queue|] == queue;
            queue, queuedBytes := queue + [Held(socket, raw, size(raw))], queuedBytes + size(raw);
            return Ok(true);
          }
          Remember(socket, raw, params);
          return Ok(false);
      }
    }

    /** Routes one server message: held, or sent on at once. A message the window cannot take is
        sent on too, and the window is marked as failed. A message that from_server itself cannot read is
        lost: it is neither held nor sent, and nothing records a failure. */
    method FromServer(socket: Socket, raw: string, sendOk: bool) returns (r: Result<(), WindowError>)
      requires Valid()
      modifies this`latest, this`queue, this`queuedBytes, this`failure
      modifies this`received, this`attempts, this`lost, this`arrivals
      ensures Valid() && received == old(received) + [(socket, raw)]
      ensures !Routable(wire(raw)) ==>
                && r == Err(MessageUnroutable) && lost == old(lost) + [(socket, raw)]
                && queue == old(queue) && attempts == old(attempts)
                && latest == old(latest) && failure == old(failure) && arrivals == old(arrivals)
      ensures Routable(wire(raw)) ==>
                var hold := old(Holds(raw));
                && queue == (if hold then old(queue) + [Held(socket, raw, size(raw))] else old(queue))
                && attempts == (if hold then old(attempts) else old(attempts) + [(socket, raw)])
                && (r.Ok? <==> hold || sendOk) && lost == old(lost)
                && failure == (if parse(raw).Malformed? || (old(active) && parse(raw).Publish? && !hold)
                               then Some(Routing) else old(failure))
                && queuedBytes == old(queuedBytes) + (if hold then size(raw) else 0)
                && (hold ==> arrivals == old(arrivals) + [Held(socket, raw, size(raw))])
                && (if !old(active) && parse(raw).Publish? then
                      var key := Key(socket, parse(raw).params.uri);
                      LongestSuffix(size, Forget(old(latest), key) + [(key, raw)], latest)
                    else latest == old(latest))
    {
      hide QueueOk, MemoryOk, Conserved, InOrder, SelectedOk, LongestSuffix, Unroutable, Routable, ParserOf;
      hide Holds, Forget;
      ghost var h := Held(socket, raw, size(raw));
      ReceivedGrows(parse, size, latest, selected, target, received, active, (socket, raw));
      Accounted(received, attempts, queue, lost, h);
      ArrivesLast(parse, target, queue, arrivals, gone, late, replays, selected, h);
      UnroutableStep(wire, received, (socket, raw));
      received := received + [(socket, raw)];
      if !Routable(wire(raw)) {
        lost, r := lost + [(socket, raw)], Err(MessageUnroutable);
      } else {
        var held := Server(socket, raw);
        if held == Ok(true) {
          arrivals, r := arrivals + [h], Ok(());
        } else {
          failure := if held.Err? then Some(Routing) else failure;
          attempts, r := attempts + [(socket, raw)], if sendOk then Ok(()) else Err(SendFailed);
        }
      }
    }

    /** Raises on a recorded failure or when the target document has moved on. */
    method Check() returns (error: Option<WindowError>)
      ensures error == if failure.Some? then failure
                       else if target.Some? && !CurrentVersion(target.value) then Some(VersionChanged) else None
      ensures error.None? ==> target.None? || At(versions, Key(target.value.socket, target.value.uri))
                                              == Some(Some(target.value.version))
    {
      if failure.Some? { return failure; }
      if target.Some? && !CurrentVersion(target.value) { return Some(VersionChanged); }
      return None;
    }

    predicate CurrentVersion(t: Target)
      reads this`versions
    {
      Key(t.socket, t.uri) in versions && versions[Key(t.socket, t.uri)] == Some(t.version)
    }

    /** The document has a current version. */
    predicate Known(key: Key)
      reads this`versions
    {
      key in versions && versions[key].Some? && versions[key].value >= 0
    }

    /** Opens the window on the current version of a document. */
    method Begin(socket: Socket, uri: string) returns (r: Result<(), WindowError>)
      requires Valid()
      modifies this`target, this`selected, this`active, this`arrivals, this`gone, this`late, this`replays
      ensures Valid()
      ensures var key := Key(socket, uri);
              && (old(active) ==> r == Err(AlreadyActive) && unchanged(this))
              && (!old(active) && !Known(key) ==> r == Err(VersionUnavailable) && unchanged(this))
              && (!old(active) && Known(key) ==>
                    && active && target == Some(Target(socket, uri, versions[key].value))
                    && selected == None && arrivals == [] && gone == late == {} && replays == []
                    && r == if failure.Some? then Err(failure.value) else Ok(()))
    {
      hide QueueOk, MemoryOk, Conserved, InOrder, SelectedOk, Unroutable, ParserOf;
      if !active { WindowOpens(parse, size, queue, queuedBytes, received, selected, target); }
      if active || queue != [] { return Err(AlreadyActive); }
      var key := Key(socket, uri);
      if !Known(key) { return Err(VersionUnavailable); }
      target, selected, active := Some(Target(socket, uri, versions[key].value)), None, true;
      arrivals, gone, late, replays := [], {}, {}, [];
      var error := Check();
      return if error.Some? then Err(error.value) else Ok(());
    }

    /** Opens the window on the document of the single held diagnostic. */
    method BeginHeld(held: seq<(string, Socket, string)>) returns (r: Result<(), WindowError>)
      requires Valid()
      modifies this`target, this`selected, this`active, this`arrivals, this`gone, this`late, this`replays
      ensures Valid()
      ensures var d := Diagnostic(held);
              && (|d| != 1 ==> r == Err(IdentityUnavailable) && unchanged(this))
              && (|d| == 1 && parse(d[0].1).Malformed? ==> r == Err(MessageInvalid) && unchanged(this))
              && (|d| == 1 && parse(d[0].1).OtherMessage? ==> r == Err(IdentityInvalid) && unchanged(this))
              && (|d| == 1 && parse(d[0].1).Publish? ==>
                    var key := Key(d[0].0, parse(d[0].1).params.uri);
                    && (r.Ok? <==> !old(active) && Known(key) && failure.None?)
                    && (r.Ok? ==> active && target == Some(Target(key.socket, key.uri, versions[key].value)))
                    && (old(active) || !Known(key) ==> unchanged(this)))
    {
      var diagnostics := Diagnostic(held);
      if |diagnostics| != 1 { return Err(IdentityUnavailable); }
      match parse(diagnostics[0].1) {
        case Malformed => return Err(MessageInvalid);
        case OtherMessage => return Err(IdentityInvalid);
        case Publish(params) => r := Begin(diagnostics[0].0, params.uri);
      }
    }

    /** The first held message that can serve as the anchor. */
    ghost predicate FirstAnchor(i: nat)
      reads this`queue, this`target
    {
      target.Some? && i < |queue| && IsAnchor(parse, queue[i], target.value)
      && forall j :: 0 <= j < i ==> !IsAnchor(parse, queue[j], target.value)
    }

    /** One round of the drain: takes the oldest held message out and tries to send it. */
    method SendOldest(sendOk: bool)
      requires queue != [] && QueueOk(parse, size, queue, queuedBytes, true) && MemoryOk(parse, size, latest, received)
      requires Conserved(received, attempts, queue, lost)
      modifies this`queue, this`queuedBytes, this`attempts, this`latest
      ensures QueueOk(parse, size, queue, queuedBytes, true) && MemoryOk(parse, size, latest, received)
      ensures Conserved(received, attempts, queue, lost)
      ensures queue == old(queue)[1..] && attempts == old(attempts) + [(old(queue)[0].socket, old(queue)[0].raw)]
      ensures latest == if sendOk then Remembered(size, old(latest), KeyOf(parse, old(queue)[0]), old(queue)[0].raw)
                        else old(latest)
    {
      hide QueueOk, MemoryOk, Conserved, LongestSuffix, Remembered;
      var h := queue[0];
      HeldIs(parse, size, queue, queuedBytes, true, 0);
      QueueDrops(parse, size, queue, queuedBytes, true, 0);
      HeldWasReceived(received, attempts, queue, lost, 0);
      Replayed(received, attempts, queue, lost, 0);
      assert queue[1..] == DropAt(queue, 0);
      queue, queuedBytes := queue[1..], queuedBytes - h.size;
      attempts := attempts + [(h.socket, h.raw)];
      if sendOk { Remember(h.socket, h.raw, parse(h.raw).params); }
    }

    /** The drain loop: every held message is tried once, oldest first. */
    method Drain(sendOk: nat -> bool) returns (failures: nat)
      requires QueueOk(parse, size, queue, queuedBytes, true) && MemoryOk(parse, size, latest, received)
      requires Conserved(received, attempts, queue, lost)
      modifies this`queue, this`queuedBytes, this`attempts, this`latest
      ensures QueueOk(parse, size, queue, queuedBytes, true) && MemoryOk(parse, size, latest, received)
      ensures Conserved(received, attempts, queue, lost)
      ensures queue == [] && attempts == old(attempts) + Pairs(old(queue))
      ensures failures == 0 <==> forall i :: 0 <= i < |old(queue)| ==> sendOk(i)
      ensures latest == Drained(parse, size, old(latest), old(queue), sendOk, |old(queue)|)
    {
      hide QueueOk, MemoryOk, Conserved, Pairs, Remembered, KeyOf;
      ghost var all, before := queue, attempts;
      var sent := 0;
      failures := 0;
      PairsStep(all);
      while queue != []
        invariant 0 <= sent <= |all| && queue == all[sent..] && attempts == before + Pairs(all[..sent])
        invariant QueueOk(parse, size, queue, queuedBytes, true) && MemoryOk(parse, size, latest, received)
        invariant Conserved(received, attempts, queue, lost)
        invariant failures == 0 <==> forall i :: 0 <= i < sent ==> sendOk(i)
        invariant latest == Drained(parse, size, old(latest), all, sendOk, sent)
        decreases |queue|
      {
        SendOldest(sendOk(sent));
        if !sendOk(sent) { failures := failures + 1; }
        sent := sent + 1;
      }
      assert all[..sent] == all;
    }

    /** Forgets target and anchor of a drained window. */
    method Release()
      requires queue == [] && !active && lost == Unroutable(wire, received)
      requires QueueOk(parse, size, queue, queuedBytes, true) && MemoryOk(parse, size, latest, received)
      requires Conserved(received, attempts, queue, lost)
      modifies this`target, this`selected, this`arrivals, this`gone, this`late, this`replays
      ensures Valid() && target == None && selected == None && queuedBytes == 0
    {
      hide QueueOk, MemoryOk, Conserved, InOrder, SelectedOk, Unroutable, ParserOf;
      WindowCloses(parse, size, queue, queuedBytes, received);
      target, selected, arrivals, gone, late, replays := None, None, [], {}, {}, [];
    }

    /** Closes the window and drains it: afterwards the queue is empty whatever the sends did. */
    method Finish(sendOk: nat -> bool) returns (r: Result<(), WindowError>)
      requires Valid()
      modifies this`active, this`latest, this`queue, this`queuedBytes, this`attempts
      modifies this`target, this`selected, this`arrivals, this`gone, this`late, this`replays
      ensures Valid() && !active && queue == [] && queuedBytes == 0 && target == None && selected == None
      ensures attempts == old(attempts) + Pairs(old(queue))
      ensures r == if forall i :: 0 <= i < |old(queue)| ==> sendOk(i) then Ok(()) else Err(DrainFailed)
      ensures latest == Drained(parse, size, old(latest), old(queue), sendOk, |old(queue)|)
      ensures forall k: nat :: LastSent(sendOk, |old(queue)|, k) ==>
                latest != [] && latest[|latest| - 1] == (KeyOf(parse, old(queue)[k]), old(queue)[k].raw)
    {
      hide Drained, LastSent, KeyOf;
      hide QueueOk, MemoryOk, Conserved, InOrder, SelectedOk, Pairs, Unroutable, ParserOf, Routable, Without;
      QueueMayBeOpen(parse, size, queue, queuedBytes, active);
      active := false;
      HeldFit(parse, size, queue, queuedBytes);
      forall k: nat | LastSent(sendOk, |queue|, k)
        ensures var r := Drained(parse, size, latest, queue, sendOk, |queue|);
                k < |queue| && r != [] && r[|r| - 1] == (KeyOf(parse, queue[k]), queue[k].raw)
      {
        LastSentBelow(sendOk, |queue|, k);
        LastSentIsNewest(parse, size, latest, queue, sendOk, |queue|, k);
      }
      var failures := Drain(sendOk);
      Release();
      return if failures == 0 then Ok(()) else Err(DrainFailed);
    }

    /** The history of a replay: which arrival is taken, and whether it goes late. */
    ghost method RecordReplay(i: nat, sendOk: bool, found: Option<Diagnostics>)
      requires InOrder(parse, target, queue, arrivals, gone, late, replays, None)
      requires FirstAnchor(i) && (sendOk ==> found.Some?)
      modifies this`gone, this`late, this`replays
      ensures InOrder(parse, target, DropAt(queue, i), arrivals, gone, late, replays, found)
      ensures replays == old(replays) + [sendOk] && |late| == |old(late)| + if i > 0 then 1 else 0
    {
      hide InOrder, IsAnchor, ParserOf, DropAt;
      var j := ReplayedInOrder(parse, target.value, queue, arrivals, gone, late, replays, i, sendOk, found);
      gone, late, replays := gone + {j}, if i > 0 then late + {j} else late, replays + [sendOk];
    }

    /** The part of a replay that does not depend on its outcome: the message leaves the queue and is
        attempted. */
    method TakeOut(i: nat, sendOk: bool)
      requires Valid() && selected.None? && FirstAnchor(i)
      modifies this`queue, this`queuedBytes, this`attempts, this`gone, this`late, this`replays
      ensures QueueOk(parse, size, queue, queuedBytes, active) && Conserved(received, attempts, queue, lost)
      ensures InOrder(parse, target, queue, arrivals, gone, late, replays,
                      if sendOk then Some(parse(old(queue)[i].raw).params) else None)
      ensures queue == DropAt(old(queue), i) && replays == old(replays) + [sendOk]
      ensures attempts == old(attempts) + [(old(queue)[i].socket, old(queue)[i].raw)]
      ensures |late| == |old(late)| + if i > 0 then 1 else 0
    {
      hide QueueOk, MemoryOk, Conserved, InOrder, SelectedOk, LongestSuffix, Unroutable, ParserOf, IsAnchor;
      hide Pairs, QueueBytes, Without, Forget, Bytes;
      var h := queue[i];
      QueueDrops(parse, size, queue, queuedBytes, active, i);
      HeldIs(parse, size, queue, queuedBytes, active, i);
      Replayed(received, attempts, queue, lost, i);
      ghost var found := if sendOk then Some(parse(h.raw).params) else None;
      RecordReplay(i, sendOk, found);
      queue, queuedBytes := queue[..i] + queue[i + 1..], queuedBytes - h.size;
      attempts := attempts + [(h.socket, h.raw)];
    }

    /** Takes a held message out of the queue and sends it ahead of the others. */
    method Replay(i: nat, sendOk: bool) returns (r: Result<Option<Diagnostics>, WindowError>)
      requires Valid() && selected.None? && FirstAnchor(i)
      modifies this`latest, this`queue, this`queuedBytes, this`attempts, this`selected
      modifies this`gone, this`late, this`replays
      ensures Valid()
      ensures queue == DropAt(old(queue), i) && attempts == old(attempts) + [(old(queue)[i].socket, old(queue)[i].raw)]
      ensures replays == old(replays) + [sendOk]
      ensures |late| == |old(late)| + if i > 0 then 1 else 0
      ensures latest == if sendOk then Remembered(size, old(latest), KeyOf(parse, old(queue)[i]), old(queue)[i].raw)
                        else old(latest)
      ensures if sendOk then selected == Some(parse(old(queue)[i].raw).params) && r == Ok(selected)
              else selected == None && r == Err(SendFailed)
    {
      hide QueueOk, MemoryOk, Conserved, InOrder, SelectedOk, LongestSuffix, Unroutable, ParserOf, IsAnchor;
      hide Remembered;
      var h := queue[i];
      HeldWasReceived(received, attempts, queue, lost, i);
      HeldIs(parse, size, queue, queuedBytes, active, i);
      TakeOut(i, sendOk);
      if !sendOk { return Err(SendFailed); }
      Remember(h.socket, h.raw, parse(h.raw).params);
      AnchorSelected(parse, selected, target, received, active, h);
      selected := Some(parse(h.raw).params);
      r := Ok(selected);
    }

    /** A message already delivered and still remembered that can serve as the anchor. */
    function Delivered(t: Target): Option<Diagnostics>
      reads this`latest
    {
      match Lookup(latest, Key(t.socket, t.uri))
      case None => None
      case Some(raw) =>
        if raw != "" && parse(raw).Publish? && parse(raw).params.version == t.version && parse(raw).params.count > 0
        then Some(parse(raw).params) else None
    }

    /** Selects the anchor: one already delivered and remembered, or the first matching held
        message, which is taken out of the queue and sent ahead of the others. */
    method Anchor(sendOk: bool) returns (r: Result<Option<Diagnostics>, WindowError>)
      requires Valid()
      modifies this`latest, this`queue, this`queuedBytes, this`attempts, this`selected
      modifies this`gone, this`late, this`replays
      ensures Valid()
      ensures var open := failure.None? && target.Some? && CurrentVersion(target.value);
              var search := open && old(selected).None?;
              && (!open ==> r.Err? && unchanged(this))
              && (open && old(selected).Some? ==> r == Ok(selected) && unchanged(this))
              && (search && old(Delivered(target.value)).Some? ==>
                    && selected == old(Delivered(target.value)) && r == Ok(selected)
                    && queue == old(queue) && attempts == old(attempts) && replays == old(replays)
                    && latest == old(latest))
              && (search && old(Delivered(target.value)).None? ==>
                    && (forall i: nat :: old(FirstAnchor(i)) ==>
                          && queue == DropAt(old(queue), i) && replays == old(replays) + [sendOk]
                          && attempts == old(attempts) + [(old(queue)[i].socket, old(queue)[i].raw)]
                          && (if sendOk then
                                && selected == Some(parse(old(queue)[i].raw).params) && r == Ok(selected)
                                && latest == Remembered(size, old(latest), KeyOf(parse, old(queue)[i]),
                                                        old(queue)[i].raw)
                              else selected == None && r == Err(SendFailed) && latest == old(latest)))
                    && ((forall i: nat :: !old(FirstAnchor(i))) ==> r == Ok(None) && unchanged(this)))
    {
      hide QueueOk, MemoryOk, Conserved, InOrder, SelectedOk, Unroutable, ParserOf;
      var error := Check();
      if error.Some? { return Err(error.value); }
      if selected.Some? {
        SelectedHasTarget(parse, selected, target, received, active);
        return Ok(selected);
      }
      if target.None? { return Err(NoTarget); }
      var t := target.value;
      var raw := Lookup(latest, Key(t.socket, t.uri));
      if raw.Some? && raw.value != "" {
        LookupFound(latest, Key(t.socket, t.uri));
        RememberedIs(parse, size, latest, received, Key(t.socket, t.uri), raw.value);
        var params := parse(raw.value).params;
        if params.version == t.version && params.count > 0 {
          AnchorSelected(parse, selected, target, received, active, Held(t.socket, raw.value, 0));
          AnchorRemembered(parse, target, queue, arrivals, gone, late, replays, params);
          selected := Some(params);
          return Ok(selected);
        }
      }
      assert Delivered(t).None?;
      var i := 0;
      while i < |queue|
        invariant 0 <= i <= |queue|
        invariant forall j :: 0 <= j < i ==> !IsAnchor(parse, queue[j], t)
      {
        if IsAnchor(parse, queue[i], t) {
          assert old(FirstAnchor(i));
          r := Replay(i, sendOk);
          return;
        }
        i := i + 1;
      }
      return Ok(None);
    }
  }

  function Diagnostic(held: seq<(string, Socket, string)>): seq<Message> {
    if held == [] then []
    else
      var (kind, socket, raw) := held[|held| - 1];
      Diagnostic(held[..|held| - 1]) + if kind == "diagnostics" then [(socket, raw)] else []
  }

  /** Exactly one diagnostic is held, and it is this message. */
  ghost predicate OnlyDiagnostic(held: seq<(string, Socket, string)>, m: Message, i: nat) {
    && i < |held| && held[i] == ("diagnostics", m.0, m.1)
    && forall j :: 0 <= j < |held| && held[j].0 == "diagnostics" ==> j == i
  }

  lemma {:induction false} DiagnosticIff(held: seq<(string, Socket, string)>, m: Message)
    ensures Diagnostic(held) == [] <==> forall j :: 0 <= j < |held| ==> held[j].0 != "diagnostics"
    ensures Diagnostic(held) == [m] <==> exists i: nat :: OnlyDiagnostic(held, m, i)
  {
    if held != [] {
      var n := |held| - 1;
      var front := held[..n];
      DiagnosticIff(front, m);
      var (kind, socket, raw) := held[n];
      assert held == front + [held[n]];
      if kind == "diagnostics" {
        assert Diagnostic(held)[|Diagnostic(front)|] == (socket, raw);
        if Diagnostic(held) == [m] { assert Diagnostic(front) == [] && OnlyDiagnostic(held, m, n); }
        if i: nat :| OnlyDiagnostic(held, m, i) { assert i == n; }
      } else {
        if i: nat :| OnlyDiagnostic(front, m, i) { assert OnlyDiagnostic(held, m, i); }
        if i: nat :| OnlyDiagnostic(held, m, i) { assert OnlyDiagnostic(front, m, i); }
      }
    }
  }

  /** How from_server's own reading and the window's agree: what it can read is malformed for the window
      exactly when it publishes without a well-typed publication. */
  lemma ReadAlike(w: Wire, d: Diagnostics)
    requires Routable(w)
    ensures DiagnosticOf(w).Malformed? <==> w.publishes && w.params.publication == None
    ensures DiagnosticOf(w) == Publish(d) <==> w.publishes && w.params.publication == Some(d)
    ensures DiagnosticOf(w).OtherMessage? <==> !w.publishes
  {
  }

  lemma WindowOpens(parse: Parser, size: Sizer, queue: seq<Held>, queuedBytes: nat, received: seq<Message>,
                    selected: Option<Diagnostics>, target: Option<Target>)
    requires QueueOk(parse, size, queue, queuedBytes, false) && SelectedOk(parse, selected, target, received, false)
    ensures queue == [] && QueueOk(parse, size, queue, queuedBytes, true)
    ensures forall t :: SelectedOk(parse, None, Some(t), received, true)
    ensures forall t :: InOrder(parse, t, queue, [], {}, {}, [], None)
    ensures selected == None && target == None
  {
  }

  lemma WindowCloses(parse: Parser, size: Sizer, queue: seq<Held>, queuedBytes: nat, received: seq<Message>)
    requires QueueOk(parse, size, queue, queuedBytes, true) && queue == []
    ensures queuedBytes == 0 && QueueOk(parse, size, queue, queuedBytes, false)
    ensures InOrder(parse, None, queue, [], {}, {}, [], None)
    ensures SelectedOk(parse, None, None, received, false)
  {
  }

  lemma PairsStep(q: seq<Held>)
    ensures Pairs(q[..0]) == []
    ensures forall i :: 0 <= i < |q| ==> Pairs(q[..i + 1]) == Pairs(q[..i]) + [(q[i].socket, q[i].raw)]
  {
  }

  /** Every held message fits by itself. */
  lemma HeldFit(parse: Parser, size: Sizer, queue: seq<Held>, queuedBytes: nat)
    requires QueueOk(parse, size, queue, queuedBytes, true)
    ensures forall i :: 0 <= i < |queue| ==> size(queue[i].raw) <= MAX_BYTES
  {
    hide QueueBytes;
    forall i | 0 <= i < |queue| ensures size(queue[i].raw) <= MAX_BYTES { QueueBytesMember(queue, i); }
  }

  lemma LastSentBelow(sent: nat -> bool, n: nat, k: nat)
    requires LastSent(sent, n, k)
    ensures k < n
  {
  }

  lemma QueueMayBeOpen(parse: Parser, size: Sizer, queue: seq<Held>, queuedBytes: nat, active: bool)
    requires QueueOk(parse, size, queue, queuedBytes, active)
    ensures QueueOk(parse, size, queue, queuedBytes, true)
  {
  }

  lemma HeldIs(parse: Parser, size: Sizer, queue: seq<Held>, queuedBytes: nat, active: bool, i: nat)
    requires QueueOk(parse, size, queue, queuedBytes, active) && i < |queue|
    ensures parse(queue[i].raw).Publish?
  {
  }

  lemma HeldWasReceived(received: seq<Message>, attempts: seq<Message>, queue: seq<Held>, lost: seq<Message>, i: nat)
    requires Conserved(received, attempts, queue, lost) && i < |queue|
    ensures (queue[i].socket, queue[i].raw) in received
  {
    assert Pairs(queue)[i] in multiset(Pairs(queue));
    assert Pairs(queue)[i] in multiset(received);
  }

  lemma ReplayedInOrder(parse: Parser, t: Target, queue: seq<Held>, arrivals: seq<Held>, gone: set<nat>,
                        late: set<nat>, replays: seq<bool>, i: nat, sent: bool, found: Option<Diagnostics>)
      returns (j: nat)
    requires InOrder(parse, Some(t), queue, arrivals, gone, late, replays, None)
    requires i < |queue| && IsAnchor(parse, queue[i], t) && (sent ==> found.Some?)
    requires forall k :: 0 <= k < i ==> !IsAnchor(parse, queue[k], t)
    ensures j !in gone && j !in late && j < |arrivals| && arrivals[j] == queue[i]
    ensures |if i > 0 then late + {j} else late| == |late| + if i > 0 then 1 else 0
    ensures InOrder(parse, Some(t), DropAt(queue, i), arrivals, gone + {j}, if i > 0 then late + {j} else late,
                    replays + [sent], found)
  {
    hide IsAnchor, Without, DropAt, AllGone;
    j := WithoutOne(arrivals, gone, i);
    HeldBefore(arrivals, gone, j);
    WithoutPrefix(arrivals, gone, j);
    assert Without(arrivals[..j], gone) == queue[..i];
    OneMoreGone(parse, t, arrivals, gone, late, j);
    LastFails(replays);
  }

  /** The bookkeeping of a replay: which arrivals are gone, and which of them went late. */
  lemma OneMoreGone(parse: Parser, t: Target, arrivals: seq<Held>, gone: set<nat>, late: set<nat>, j: nat)
    requires j < |arrivals| && j !in gone && IsAnchor(parse, arrivals[j], t)
    requires forall g :: g in gone ==> g < |arrivals|
    requires forall g, k :: g in gone && 0 <= k < g && IsAnchor(parse, arrivals[k], t) ==> k in gone
    requires forall g :: g in late <==> g in gone && !AllGone(gone, g)
    ensures forall g :: g in late <==> g in gone && !AllGone(gone + {j}, g)
    ensures AllGone(gone, j) <==> AllGone(gone + {j}, j)
  {
    hide IsAnchor;
    forall g | g in gone
      ensures AllGone(gone, g) <==> AllGone(gone + {j}, g)
    {
      assert j < g ==> j in gone;
    }
  }

  lemma LastFails(replays: seq<bool>)
    requires true !in replays
    ensures forall sent, i :: 0 <= i < |replays + [sent]| - 1 ==> !(replays + [sent])[i]
    ensures true !in replays + [false]
  {
  }

  lemma AnchorSelected(parse: Parser, selected: Option<Diagnostics>, target: Option<Target>, received: seq<Message>,
                       active: bool, h: Held)
    requires SelectedOk(parse, selected, target, received, active) && target.Some?
    requires IsAnchor(parse, h, target.value) && (h.socket, h.raw) in received
    ensures SelectedOk(parse, Some(parse(h.raw).params), target, received, active)
  {
  }

  lemma AnchorRemembered(parse: Parser, target: Option<Target>, queue: seq<Held>, arrivals: seq<Held>, gone: set<nat>,
                         late: set<nat>, replays: seq<bool>, params: Diagnostics)
    requires InOrder(parse, target, queue, arrivals, gone, late, replays, None)
    ensures InOrder(parse, target, queue, arrivals, gone, late, replays, Some(params))
  {
  }

  lemma SelectedHasTarget(parse: Parser, selected: Option<Diagnostics>, target: Option<Target>,
                          received: seq<Message>, active: bool)
    requires SelectedOk(parse, selected, target, received, active) && selected.Some?
    ensures target.Some?
  {
  }

  lemma RememberedIs(parse: Parser, size: Sizer, latest: Memory, received: seq<Message>, key: Key, raw: string)
    requires MemoryOk(parse, size, latest, received) && (key, raw) in latest
    ensures RememberedOk(parse, (key, raw), received)
  {
  }

  lemma NewestIsFound(parse: Parser, size: Sizer, latest: Memory, received: seq<Message>, key: Key, raw: string)
    requires MemoryOk(parse, size, latest, received) && latest != [] && latest[|latest| - 1] == (key, raw)
    ensures Lookup(latest, key) == Some(raw)
  {
    hide Lookup, WithinBounds;
    LookupIff(latest, key, raw);
  }

  /** The next window on the document selects what was delivered last, without sending it again. */
  method Reselect(w: DiagnosticWindow, socket: Socket, raw: string, d: Diagnostics) returns (r: Option<Diagnostics>)
    requires w.Valid() && !w.active && w.failure == None && raw != "" && w.parse(raw) == Publish(d) && d.count > 0
    requires w.CurrentVersion(Target(socket, d.uri, d.version))
    requires w.latest != [] && w.latest[|w.latest| - 1] == (Key(socket, d.uri), raw)
    modifies w
    ensures w.Valid() && r == w.selected == Some(d)
    ensures w.attempts == old(w.attempts) && w.queue == old(w.queue) && w.latest == old(w.latest)
    ensures w.received == old(w.received)
  {
    hide QueueOk, MemoryOk, Conserved, InOrder, SelectedOk, Unroutable, ParserOf, Lookup;
    NewestIsFound(w.parse, w.size, w.latest, w.received, Key(socket, d.uri), raw);
    var _ := w.Begin(socket, d.uri);
    assert w.Delivered(w.target.value) == Some(d);
    var anchor := w.Anchor(true);
    r := anchor.value;
  }

  // ----- the losses can happen -----

  /** A message that is not a JSON object reaches neither the queue nor the client, and the window does
      not notice. */
  method LosesUnroutable(socket: Socket, raw: string) returns (w: DiagnosticWindow)
    ensures w.received == [(socket, raw)] && w.attempts == [] && w.queue == [] && w.failure == None
  {
    hide DiagnosticWindow.Valid, DiagnosticWindow.Holds, ParserOf, LongestSuffix, Forget;
    w := new DiagnosticWindow(_ => NotObject, _ => 0);
    var _ := w.FromServer(socket, raw, true);
  }

  /** A server that publishes diagnostics of the current version of one document, and once a stale text. */
  function Publishing(stale: string): string -> Wire {
    raw => Object(true, true, Fields(Some(Diagnostics("module", if raw == stale then 1 else 0, 1))))
  }

  function OneByte(): Sizer { _ => 1 }

  lemma PublishingFacts(stale: string, socket: Socket, raw: string)
    ensures Routable(Publishing(stale)(raw)) && ParserOf(Publishing(stale))(raw).Publish? && OneByte()(raw) == 1
    ensures IsAnchor(ParserOf(Publishing(stale)), Held(socket, raw, 1), Target(socket, "module", 0)) <==> raw != stale
  {
  }

  /** Holds a publication in an open window that has room. */
  method Hold(w: DiagnosticWindow, stale: string, socket: Socket, raw: string)
    requires w.Valid() && w.wire == Publishing(stale) && w.size == OneByte() && w.active
    requires |w.queue| < 3 && w.queuedBytes < 3
    modifies w
    ensures w.Valid() && w.queue == old(w.queue) + [Held(socket, raw, 1)] && w.queuedBytes == old(w.queuedBytes) + 1
    ensures w.received == old(w.received) + [(socket, raw)] && w.attempts == old(w.attempts)
    ensures w.active && w.target == old(w.target) && w.selected == old(w.selected) && w.versions == old(w.versions)
    ensures w.latest == old(w.latest) && w.failure == old(w.failure)
  {
    hide DiagnosticWindow.Valid, ParserOf, Routable, Publishing, OneByte;
    PublishingFacts(stale, socket, raw);
    var _ := w.FromServer(socket, raw, true);
  }

  /** Asks for the anchor when nothing was delivered yet and the i-th held message is the first to serve. */
  method ReplayAt(w: DiagnosticWindow, i: nat, sendOk: bool)
    requires w.Valid() && w.FirstAnchor(i) && w.failure == None && w.CurrentVersion(w.target.value)
    requires w.selected == None && w.latest == []
    modifies w
    ensures w.Valid() && w.queue == DropAt(old(w.queue), i) && w.received == old(w.received)
    ensures w.attempts == old(w.attempts) + [(old(w.queue)[i].socket, old(w.queue)[i].raw)]
    ensures w.target == old(w.target) && w.versions == old(w.versions) && w.failure == old(w.failure)
    ensures !sendOk ==> w.selected == None && w.latest == []
  {
    hide QueueOk, MemoryOk, Conserved, InOrder, SelectedOk, Unroutable, ParserOf;
    assert w.Delivered(w.target.value) == None;
    var _ := w.Anchor(sendOk);
  }

  /** A window opened on the current version of a document. */
  method OpenFor(socket: Socket, stale: string) returns (w: DiagnosticWindow)
    ensures w.Valid() && fresh(w) && w.active && w.failure == None && w.selected == None && w.latest == []
    ensures w.target == Some(Target(socket, "module", 0)) && w.CurrentVersion(w.target.value)
    ensures w.wire == Publishing(stale) && w.size == OneByte()
    ensures w.attempts == w.received == [] && w.queue == [] && w.queuedBytes == 0
  {
    hide DiagnosticWindow.Valid, ParserOf, Publishing, OneByte;
    w := new DiagnosticWindow(Publishing(stale), OneByte());
    w.Client(socket, "textDocument/didOpen", "module", Some(0));
    var _ := w.Begin(socket, "module");
  }

  /** A window that holds a stale publication and then two that can serve as the anchor. */
  method HoldingThree(socket: Socket, stale: string, first: string, second: string) returns (w: DiagnosticWindow)
    ensures w.Valid() && fresh(w) && w.active && w.failure == None && w.selected == None && w.latest == []
    ensures w.target == Some(Target(socket, "module", 0)) && w.CurrentVersion(w.target.value)
    ensures w.wire == Publishing(stale) && w.attempts == []
    ensures w.received == [(socket, stale), (socket, first), (socket, second)]
    ensures w.queue == [Held(socket, stale, 1), Held(socket, first, 1), Held(socket, second, 1)]
  {
    hide DiagnosticWindow.Valid, ParserOf, Routable, Publishing, OneByte, IsAnchor;
    w := OpenFor(socket, stale);
    Hold(w, stale, socket, stale);
    Hold(w, stale, socket, first);
    Hold(w, stale, socket, second);
  }

  /** An anchor whose send fails and the next one that succeeds are both sent ahead of an older message:
      it arrived first and is attempted last. */
  method TwoOutOfTurn(socket: Socket, stale: string, first: string, second: string) returns (w: DiagnosticWindow)
    requires stale != first && stale != second
    ensures w.received == [(socket, stale), (socket, first), (socket, second)]
    ensures w.attempts == [(socket, first), (socket, second), (socket, stale)]
  {
    hide DiagnosticWindow.Valid, IsAnchor, ParserOf, Routable, Publishing, OneByte;
    w := HoldingThree(socket, stale, first, second);
    PublishingFacts(stale, socket, stale);
    PublishingFacts(stale, socket, first);
    PublishingFacts(stale, socket, second);
    assert w.FirstAnchor(1);
    ReplayAt(w, 1, false);
    assert w.queue == [Held(socket, stale, 1), Held(socket, second, 1)];
    assert w.FirstAnchor(1);
    ReplayAt(w, 1, true);
    assert w.queue == [Held(socket, stale, 1)];
    var _ := w.Finish(_ => true);
  }

  /** A publication held by one window and delivered by its drain is the anchor of the next window and is
      not sent twice. */
  method DeliveredOnce(socket: Socket, raw: string) returns (w: DiagnosticWindow, r: Option<Diagnostics>)
    requires raw != ""
    ensures w.received == w.attempts == [(socket, raw)] && r == w.selected == Some(Diagnostics("module", 0, 1))
  {
    hide DiagnosticWindow.Valid, IsAnchor, Routable, OneByte;
    w := OpenFor(socket, "");
    Hold(w, "", socket, raw);
    assert w.queue == [Held(socket, raw, 1)];
    assert Pairs(w.queue) == [(socket, raw)];
    var _ := w.Finish(_ => true);
    r := Reselect(w, socket, raw, Diagnostics("module", 0, 1));
  }
}
