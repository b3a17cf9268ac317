/**
 * Sending to a node that uses Security 2. A payload goes out at once when the node's SPAN allows it;
 * otherwise it waits, per node, for the answer to one NONCE_GET, which releases the whole queue.
 */
module S2Outbound {
  import opened Bytes
  import opened Sequences
  import opened OutboundQueue
  import opened SpanManager
  import opened Kex

  const NONCE_REPORT: Byte := 0x02
  const REPORT_FIXED_SIZE: nat := 4
  const EI_SIZE: nat := 16

  /** The SOS flag of a well-formed report; a report that sets it must carry the node's entropy. */
  function DecodeNonceReport(ccData: seq<Byte>): Option<bool> {
    if |ccData| < REPORT_FIXED_SIZE || ccData[0] != COMMAND_CLASS || ccData[1] != NONCE_REPORT then None
    else if ccData[3] % 2 == 1 && |ccData| < REPORT_FIXED_SIZE + EI_SIZE then None
    else Some(ccData[3] % 2 == 1)
  }

  /**
   * `peerConfigurable` says whether the registry and the key store could configure the peer. `SpanChanged`
   * is any change the inbound side or a restart makes to the shared SPAN table.
   */
  datatype Event =
    | SecureS2SendRequest(node: Node, pending: Pending, peerConfigurable: bool)
    | ApplicationCommand(node: Node, ccData: seq<Byte>)
    | SpanChanged(node: Node, peer: Peer)

  datatype Action =
    | Refuse(pending: Pending)
    | SendNow(pending: Pending)
    | Enqueue(pending: Pending)
    | NonceGet
    | SendQueued(pending: Pending)
    | EndExchange(dropped: seq<Pending>)

  datatype Entry = In(event: Event) | Out(node: Node, action: Action)

  datatype State = State(queues: Queues, spans: Manager, log: seq<Entry>)

  const START := State(map[], map[], [])

  datatype Effect = Effect(queue: seq<Pending>, spans: Manager, actions: seq<Action>)

  function RequestEffect(
    n: Node, queue: seq<Pending>, spans: Manager, pending: Pending, peerConfigurable: bool): Effect {
    if !peerConfigurable then Effect(queue, spans, [Refuse(pending)])
    else if CanEncrypt(spans, n) then Effect(queue, Encrypt(spans, n), [SendNow(pending)])
    else Effect(queue + [pending], Encrypt(spans, n), [Enqueue(pending)] + if queue == [] then [NonceGet] else [])
  }

  function Sends(queue: seq<Pending>): seq<Action> {
    if queue == [] then [] else Sends(queue[..|queue| - 1]) + [SendQueued(queue[|queue| - 1])]
  }

  /** A decodable report settles everything that waits: all of it goes out, or none of it does. */
  function CommandEffect(n: Node, queue: seq<Pending>, spans: Manager, ccData: seq<Byte>): Effect {
    var sos := DecodeNonceReport(ccData);
    if CommandByte(ccData) != Some(NONCE_REPORT) || queue == [] || sos.None? then Effect(queue, spans, [])
    else
      var ready := AcceptNonceReport(spans, n, sos.value);
      Effect([], Encrypt(ready, n),
             if CanEncrypt(ready, n) then Sends(queue) + [EndExchange([])] else [EndExchange(queue)])
  }

  function EventEffect(queue: seq<Pending>, spans: Manager, e: Event): Effect {
    match e
    case SecureS2SendRequest(n, pending, configurable) => RequestEffect(n, queue, spans, pending, configurable)
    case ApplicationCommand(n, ccData) => CommandEffect(n, queue, spans, ccData)
    case SpanChanged(n, peer) => Effect(queue, spans[n := peer], [])
  }

  function Outs(n: Node, actions: seq<Action>): seq<Entry> {
    if actions == [] then [] else Outs(n, actions[..|actions| - 1]) + [Out(n, actions[|actions| - 1])]
  }

  function Applied(s: State, e: Event, effect: Effect): State {
    State(WithQueue(s.queues, e.node, effect.queue), effect.spans, s.log + [In(e)] + Outs(e.node, effect.actions))
  }

  function Step(s: State, e: Event): State {
    Applied(s, e, EventEffect(QueueOf(s.queues, e.node), s.spans, e))
  }

  function Run(events: seq<Event>): State {
    if events == [] then START else Step(Run(events[..|events| - 1]), events[|events| - 1])
  }

  // ---- Reading a log from one node's point of view -----------------------------------------------

  function Offered(e: Event): seq<Pending> {
    if e.SecureS2SendRequest? && e.peerConfigurable then [e.pending] else []
  }

  /** The payloads accepted for `n`, in order. */
  function Accepted(log: seq<Entry>, n: Node): seq<Pending> {
    if log == [] then [] else
      var x := log[|log| - 1];
      Accepted(log[..|log| - 1], n) + if x.In? && x.event.node == n then Offered(x.event) else []
  }

  /** Accepted payloads are sent at once or enqueued. */
  function Taken(a: Action): seq<Pending> {
    if a.SendNow? || a.Enqueue? then [a.pending] else []
  }

  function Entering(a: Action): seq<Pending> {
    if a.Enqueue? then [a.pending] else []
  }

  function Leaving(a: Action): seq<Pending> {
    if a.SendQueued? then [a.pending] else if a.EndExchange? then a.dropped else []
  }

  function Weight(a: Action): int {
    if a.NonceGet? then 1 else if a.EndExchange? then -1 else 0
  }

  /** What the actions towards `n` amount to, one reading per question asked of the log. */
  function Actions(log: seq<Entry>, n: Node): seq<Action> {
    if log == [] then [] else
      var x := log[|log| - 1];
      Actions(log[..|log| - 1], n) + if x.Out? && x.node == n then [x.action] else []
  }

  function Weights(actions: seq<Action>): int {
    if actions == [] then 0 else Weights(actions[..|actions| - 1]) + Weight(actions[|actions| - 1])
  }

  lemma {:induction false} WeightsConcat(a: seq<Action>, b: seq<Action>)
    ensures Weights(a + b) == Weights(a) + Weights(b)
    decreases |b|
  {
    if b == [] {
      assert a + b == a;
    } else {
      assert (a + b)[..|a + b| - 1] == a + b[..|b| - 1];
      WeightsConcat(a, b[..|b| - 1]);
    }
  }

  lemma {:induction false} AppendViews(log: seq<Entry>, x: Entry, n: Node)
    ensures Accepted(log + [x], n) == Accepted(log, n) + if x.In? && x.event.node == n then Offered(x.event) else []
    ensures Actions(log + [x], n) == Actions(log, n) + if x.Out? && x.node == n then [x.action] else []
  {
    assert (log + [x])[..|log|] == log;
  }

  lemma {:induction false} OutsViews(log: seq<Entry>, m: Node, actions: seq<Action>, n: Node)
    ensures var after := log + Outs(m, actions);
            && Accepted(after, n) == Accepted(log, n)
            && Actions(after, n) == Actions(log, n) + (if m == n then actions else [])
    decreases |actions|
  {
    if actions == [] {
      assert log + Outs(m, actions) == log;
    } else {
      var front, a := actions[..|actions| - 1], actions[|actions| - 1];
      OutsViews(log, m, front, n);
      ConcatAssociative(log, Outs(m, front), [Out(m, a)]);
      AppendViews(log + Outs(m, front), Out(m, a), n);
      assert actions == front + [a];
      ConcatAssociative(Actions(log, n), front, [a]);
    }
  }

  lemma {:induction false} OwnViews(log: seq<Entry>, e: Event, actions: seq<Action>)
    ensures var after := log + [In(e)] + Outs(e.node, actions);
            && Accepted(after, e.node) == Accepted(log, e.node) + Offered(e)
            && Actions(after, e.node) == Actions(log, e.node) + actions
  {
    AppendViews(log, In(e), e.node);
    OutsViews(log + [In(e)], e.node, actions, e.node);
    assert Actions(log, e.node) + [] == Actions(log, e.node);
  }

  lemma {:induction false} OtherViews(log: seq<Entry>, e: Event, actions: seq<Action>, n: Node)
    requires e.node != n
    ensures var after := log + [In(e)] + Outs(e.node, actions);
            Accepted(after, n) == Accepted(log, n) && Actions(after, n) == Actions(log, n)
  {
    AppendViews(log, In(e), n);
    OutsViews(log + [In(e)], e.node, actions, n);
    assert Actions(log, n) + [] == Actions(log, n) && Accepted(log, n) + [] == Accepted(log, n);
  }

  // ---- Per-event facts ---------------------------------------------------------------------------

  ghost predicate Balanced(queue: seq<Pending>, offered: seq<Pending>, actions: seq<Action>, after: seq<Pending>) {
    && FlatMap(actions, Taken) == offered
    && queue + FlatMap(actions, Entering) == FlatMap(actions, Leaving) + after
    && Waiting(queue) + Weights(actions) == Waiting(after)
  }

  lemma {:induction false} ShortFolds(a: Action, b: Action)
    ensures FlatMap([], Taken) == FlatMap([], Entering) == FlatMap([], Leaving) == [] && Weights([]) == 0
    ensures FlatMap([a], Taken) == Taken(a)
    ensures FlatMap([a], Entering) == Entering(a) && FlatMap([a], Leaving) == Leaving(a)
    ensures Weights([a]) == Weight(a)
    ensures FlatMap([a] + [b], Taken) == Taken(a) + Taken(b)
    ensures FlatMap([a] + [b], Entering) == Entering(a) + Entering(b)
    ensures FlatMap([a] + [b], Leaving) == Leaving(a) + Leaving(b) && Weights([a] + [b]) == Weight(a) + Weight(b)
  {
    FlatMapOne(a, Taken);
    FlatMapOne(a, Entering);
    FlatMapOne(a, Leaving);
    FlatMapAppend([a], b, Taken);
    FlatMapAppend([a], b, Entering);
    FlatMapAppend([a], b, Leaving);
    assert [a][..0] == [];
    assert ([a] + [b])[..1] == [a];
  }

  lemma {:induction false} SendsFolds(queue: seq<Pending>)
    ensures FlatMap(Sends(queue), Taken) == FlatMap(Sends(queue), Entering) == []
    ensures FlatMap(Sends(queue), Leaving) == queue && Weights(Sends(queue)) == 0
    decreases |queue|
  {
    if queue == [] {
      ShortFolds(NonceGet, NonceGet);
    } else {
      var front, p := queue[..|queue| - 1], queue[|queue| - 1];
      SendsFolds(front);
      FlatMapAppend(Sends(front), SendQueued(p), Taken);
      FlatMapAppend(Sends(front), SendQueued(p), Entering);
      FlatMapAppend(Sends(front), SendQueued(p), Leaving);
      assert Weights(Sends(front) + [SendQueued(p)]) == Weights(Sends(front)) by {
        assert (Sends(front) + [SendQueued(p)])[..|Sends(front)|] == Sends(front);
      }
      assert front + [p] == queue;
    }
  }

  lemma {:induction false} AllSentBalances(queue: seq<Pending>)
    requires queue != []
    ensures Balanced(queue, [], Sends(queue) + [EndExchange([])], [])
  {
    SendsFolds(queue);
    FlatMapAppend(Sends(queue), EndExchange([]), Taken);
    FlatMapAppend(Sends(queue), EndExchange([]), Entering);
    FlatMapAppend(Sends(queue), EndExchange([]), Leaving);
    assert (Sends(queue) + [EndExchange([])])[..|Sends(queue)|] == Sends(queue);
  }

  lemma {:induction false} AllDroppedBalances(queue: seq<Pending>)
    requires queue != []
    ensures Balanced(queue, [], [EndExchange(queue)], [])
  {
    ShortFolds(EndExchange(queue), NonceGet);
  }

  lemma {:induction false} QuietBalances(queue: seq<Pending>)
    ensures Balanced(queue, [], [], queue)
  {
    ShortFolds(NonceGet, NonceGet);
  }

  lemma {:induction false} EnqueueBalances(queue: seq<Pending>, p: Pending)
    ensures Balanced(queue, [p], [Enqueue(p)] + (if queue == [] then [NonceGet] else []), queue + [p])
  {
    ShortFolds(Enqueue(p), NonceGet);
    assert [Enqueue(p)] + [] == [Enqueue(p)];
    assert [] + (queue + [p]) == queue + [p];
    assert [p] + [] == [p];
  }

  lemma {:induction false} RequestBalances(n: Node, queue: seq<Pending>, spans: Manager, p: Pending, configurable: bool)
    ensures var effect := RequestEffect(n, queue, spans, p, configurable);
            Balanced(queue, if configurable then [p] else [], effect.actions, effect.queue)
  {
    if !configurable {
      ShortFolds(Refuse(p), NonceGet);
    } else if CanEncrypt(spans, n) {
      ShortFolds(SendNow(p), NonceGet);
    } else {
      EnqueueBalances(queue, p);
    }
  }

  lemma {:induction false} EffectBalances(queue: seq<Pending>, spans: Manager, e: Event)
    ensures var effect := EventEffect(queue, spans, e);
            Balanced(queue, Offered(e), effect.actions, effect.queue)
  {
    match e
    case SecureS2SendRequest(n, p, configurable) => RequestBalances(n, queue, spans, p, configurable);
    case ApplicationCommand(n, ccData) =>
      QuietBalances(queue);
      if queue != [] {
        AllSentBalances(queue);
        AllDroppedBalances(queue);
      }
    case SpanChanged(_, _) => QuietBalances(queue);
  }

  // ---- Every run ---------------------------------------------------------------------------------

  /**
   * Each accepted payload was sent at once or enqueued, in the order of acceptance; what was enqueued is
   * what left the queue followed by what is in it; a busy node has exactly one NONCE_GET outstanding.
   */
  ghost predicate Inv(s: State, n: Node) {
    var actions := Actions(s.log, n);
    && (n in s.queues ==> s.queues[n] != [])
    && Accepted(s.log, n) == FlatMap(actions, Taken)
    && FlatMap(actions, Entering) == FlatMap(actions, Leaving) + QueueOf(s.queues, n)
    && Weights(actions) == (if n in s.queues then 1 else 0)
  }

  lemma {:induction false} AppliedKeepsInv(s: State, e: Event, effect: Effect, n: Node)
    requires Inv(s, n)
    requires Balanced(QueueOf(s.queues, e.node), Offered(e), effect.actions, effect.queue)
    ensures Inv(Applied(s, e, effect), n)
  {
    var after, before := Applied(s, e, effect), Actions(s.log, n);
    if e.node == n {
      OwnViews(s.log, e, effect.actions);
      FlatMapConcat(before, effect.actions, Taken);
      FlatMapConcat(before, effect.actions, Entering);
      FlatMapConcat(before, effect.actions, Leaving);
      WeightsConcat(before, effect.actions);
      Conserve(FlatMap(before, Leaving), QueueOf(s.queues, n), FlatMap(effect.actions, Entering),
               FlatMap(effect.actions, Leaving), effect.queue);
      assert QueueOf(after.queues, n) == effect.queue;
    } else {
      OtherViews(s.log, e, effect.actions, n);
      assert QueueOf(after.queues, n) == QueueOf(s.queues, n);
    }
  }

  /** In every run and for every node, whatever happens to the SPAN table in between. */
  lemma {:induction false} RunKeepsInv(events: seq<Event>, n: Node)
    ensures Inv(Run(events), n)
    decreases |events|
  {
    if events != [] {
      var s, e := Run(events[..|events| - 1]), events[|events| - 1];
      RunKeepsInv(events[..|events| - 1], n);
      EffectBalances(QueueOf(s.queues, e.node), s.spans, e);
      AppliedKeepsInv(s, e, EventEffect(QueueOf(s.queues, e.node), s.spans, e), n);
    }
  }

  // ---- What each input causes ----------------------------------------------------------------------

  /** A report that can be read: four octets, and the node's entropy behind them if it says so. */
  predicate IsReadable(ccData: seq<Byte>) {
    4 <= |ccData| && ccData[0] == 0x9F && ccData[1] == 0x02 && (ccData[3] % 2 == 1 ==> 20 <= |ccData|)
  }

  /** The SPAN table allows a frame to `n`. */
  predicate Ready(s: State, n: Node) {
    n in s.spans && (s.spans[n].span || s.spans[n].peerRei)
  }

  /** What goes to the node in answer to an input, given what waits for it. */
  function Answer(s: State, e: Event): seq<Action> {
    var waiting := if e.node in s.queues then s.queues[e.node] else [];
    match e
    case SecureS2SendRequest(n, pending, configurable) =>
      if !configurable then [Refuse(pending)]
      else if Ready(s, n) then [SendNow(pending)]
      else if waiting == [] then [Enqueue(pending), NonceGet]
      else [Enqueue(pending)]
    case ApplicationCommand(n, ccData) =>
      if waiting == [] || !IsReadable(ccData) then []
      else if ccData[3] % 2 == 1 || Ready(s, n) then
        seq(|waiting|, i requires 0 <= i < |waiting| => SendQueued(waiting[i])) + [EndExchange([])]
      else [EndExchange(waiting)]
    case SpanChanged(_, _) => []
  }

  lemma {:induction false} SendsAre(queue: seq<Pending>)
    ensures Sends(queue) == seq(|queue|, i requires 0 <= i < |queue| => SendQueued(queue[i]))
    decreases |queue|
  {
    if queue != [] {
      SendsAre(queue[..|queue| - 1]);
    }
  }

  /**
   * In every state: a request is refused if the peer cannot be configured, goes out at once if the SPAN table
   * allows it, and otherwise waits, with a NONCE_GET if it is the first to; a readable report that carries
   * entropy, or that meets a ready table, sends everything that waits, in order; one that does neither drops it;
   * an unreadable one changes nothing.
   */
  lemma {:induction false} EveryInputIsAnswered(s: State, e: Event)
    ensures EventEffect(QueueOf(s.queues, e.node), s.spans, e).actions == Answer(s, e)
    ensures Step(s, e).log == s.log + [In(e)] + Outs(e.node, Answer(s, e))
    ensures e.ApplicationCommand? && !IsReadable(e.ccData) ==>
              QueueOf(Step(s, e).queues, e.node) == QueueOf(s.queues, e.node)
  {
    SendsAre(QueueOf(s.queues, e.node));
  }

  // ---- What a report settles ---------------------------------------------------------------------

  /** A report that carries entropy always releases the queue; one without, exactly if encryption was possible. */
  lemma {:induction false} ReportSettlesQueue(s: State, n: Node, ccData: seq<Byte>)
    requires n in s.queues && s.queues[n] != [] && DecodeNonceReport(ccData).Some?
    ensures var after := Step(s, ApplicationCommand(n, ccData));
            var actions := Actions(after.log, n);
            && n !in after.queues
            && (DecodeNonceReport(ccData) == Some(true) || CanEncrypt(s.spans, n)
                <==> actions == Actions(s.log, n) + (Sends(s.queues[n]) + [EndExchange([])]))
            && (!(DecodeNonceReport(ccData) == Some(true) || CanEncrypt(s.spans, n))
                <==> actions == Actions(s.log, n) + [EndExchange(s.queues[n])])
  {
    var e := ApplicationCommand(n, ccData);
    var queue := s.queues[n];
    var effect := CommandEffect(n, queue, s.spans, ccData);
    OwnViews(s.log, e, effect.actions);
    assert (Sends(queue) + [EndExchange([])])[|Sends(queue)|] == EndExchange([]);
    SameTail(Actions(s.log, n), Sends(queue) + [EndExchange([])], [EndExchange(queue)]);
    assert Sends(queue) + [EndExchange([])] != [EndExchange(queue)];
  }

  lemma {:induction false} SameTail<T>(a: seq<T>, b: seq<T>, c: seq<T>)
    ensures a + b == a + c <==> b == c
  {
    assert (a + b)[|a|..] == b && (a + c)[|a|..] == c;
  }

  // ---- Overtaking --------------------------------------------------------------------------------

  lemma {:induction false} ShiftedIsConstant(queue: seq<Pending>, p: Pending)
    ensures [p] + queue == queue + [p] <==> forall i | 0 <= i < |queue| :: queue[i] == p
    decreases |queue|
  {
    if queue != [] {
      var tail := queue[1..];
      ShiftedIsConstant(tail, p);
      assert queue == [queue[0]] + tail;
      if [p] + queue == queue + [p] {
        assert ([p] + queue)[0] == (queue + [p])[0];
        assert queue == [p] + tail;
        assert ([p] + queue)[1..] == queue && (queue + [p])[1..] == tail + [p];
        forall i | 0 <= i < |queue|
          ensures queue[i] == p
        {
          if i > 0 {
            assert queue[i] == tail[i - 1];
          }
        }
      }
    }
  }

  function Departing(a: Action): seq<Pending> {
    if a.SendNow? then [a.pending] else Leaving(a)
  }

  /** What has gone, by either path, followed by what waits, is what was accepted, in order. */
  ghost predicate InOrder(s: State, n: Node) {
    Accepted(s.log, n) == FlatMap(Actions(s.log, n), Departing) + QueueOf(s.queues, n)
  }

  lemma {:induction false} OrderStep(s: State, e: Event, effect: Effect)
    requires InOrder(s, e.node)
    ensures InOrder(Applied(s, e, effect), e.node)
            <==> Departs(QueueOf(s.queues, e.node), Offered(e), effect.actions, effect.queue)
  {
    var n := e.node;
    var gone := FlatMap(Actions(s.log, n), Departing);
    OwnViews(s.log, e, effect.actions);
    FlatMapConcat(Actions(s.log, n), effect.actions, Departing);
    assert QueueOf(Applied(s, e, effect).queues, n) == effect.queue;
    ConcatAssociative(gone, QueueOf(s.queues, n), Offered(e));
    ConcatAssociative(gone, FlatMap(effect.actions, Departing), effect.queue);
    SameTail(gone, QueueOf(s.queues, n) + Offered(e), FlatMap(effect.actions, Departing) + effect.queue);
  }

  lemma {:induction false} DepartingShort(a: Action, b: Action)
    ensures FlatMap([], Departing) == [] && FlatMap([a], Departing) == Departing(a)
    ensures FlatMap([a] + [b], Departing) == Departing(a) + Departing(b)
  {
    FlatMapOne(a, Departing);
    FlatMapAppend([a], b, Departing);
  }

  ghost predicate Departs(queue: seq<Pending>, offered: seq<Pending>, actions: seq<Action>, after: seq<Pending>) {
    queue + offered == FlatMap(actions, Departing) + after
  }

  lemma {:induction false} EnqueueDeparts(queue: seq<Pending>, p: Pending)
    ensures Departs(queue, [p], [Enqueue(p)] + (if queue == [] then [NonceGet] else []), queue + [p])
  {
    DepartingShort(Enqueue(p), NonceGet);
    assert [Enqueue(p)] + [] == [Enqueue(p)];
    assert [] + (queue + [p]) == queue + [p];
  }

  lemma {:induction false} SendNowDepartsIff(queue: seq<Pending>, p: Pending)
    ensures Departs(queue, [p], [SendNow(p)], queue) <==> forall i | 0 <= i < |queue| :: queue[i] == p
  {
    DepartingShort(SendNow(p), NonceGet);
    ShiftedIsConstant(queue, p);
  }

  /**
   * An accepted request keeps the order of acceptance exactly if it cannot be encrypted at once, or
   * nothing that waits differs from it: an encryptable payload goes out ahead of the queue.
   */
  lemma {:induction false} RequestKeepsOrderIff(s: State, n: Node, p: Pending)
    requires InOrder(s, n)
    ensures InOrder(Step(s, SecureS2SendRequest(n, p, true)), n)
            <==> (CanEncrypt(s.spans, n) ==> forall i | 0 <= i < |QueueOf(s.queues, n)| :: QueueOf(s.queues, n)[i] == p)
  {
    var queue := QueueOf(s.queues, n);
    OrderStep(s, SecureS2SendRequest(n, p, true), RequestEffect(n, queue, s.spans, p, true));
    if CanEncrypt(s.spans, n) {
      SendNowDepartsIff(queue, p);
    } else {
      EnqueueDeparts(queue, p);
    }
  }

  lemma {:induction false} SendsDepart(queue: seq<Pending>)
    ensures FlatMap(Sends(queue), Departing) == queue
    decreases |queue|
  {
    if queue == [] {
      DepartingShort(NonceGet, NonceGet);
    } else {
      SendsDepart(queue[..|queue| - 1]);
      FlatMapAppend(Sends(queue[..|queue| - 1]), SendQueued(queue[|queue| - 1]), Departing);
      assert queue[..|queue| - 1] + [queue[|queue| - 1]] == queue;
    }
  }

  lemma {:induction false} AllSentDeparts(queue: seq<Pending>)
    ensures Departs(queue, [], Sends(queue) + [EndExchange([])], [])
  {
    SendsDepart(queue);
    FlatMapAppend(Sends(queue), EndExchange([]), Departing);
  }

  lemma {:induction false} QuietDeparts(queue: seq<Pending>, a: Action)
    requires Departing(a) == []
    ensures Departs(queue, [], [], queue) && Departs(queue, [], [a], queue)
    ensures Departs(queue, [], [EndExchange(queue)], [])
  {
    DepartingShort(a, NonceGet);
    DepartingShort(EndExchange(queue), NonceGet);
    assert queue + [] == queue && [] + queue == queue;
  }

  lemma {:induction false} OtherEffectsDepart(queue: seq<Pending>, spans: Manager, e: Event)
    requires Offered(e) == []
    ensures var effect := EventEffect(queue, spans, e);
            Departs(queue, [], effect.actions, effect.queue)
  {
    match e
    case SecureS2SendRequest(_, p, _) => QuietDeparts(queue, Refuse(p));
    case ApplicationCommand(_, _) =>
      AllSentDeparts(queue);
      QuietDeparts(queue, NonceGet);
    case SpanChanged(_, _) => QuietDeparts(queue, NonceGet);
  }

  /** Nothing but an accepted request can break the order. */
  lemma {:induction false} OtherEventsKeepOrder(s: State, e: Event)
    requires InOrder(s, e.node) && Offered(e) == []
    ensures InOrder(Step(s, e), e.node)
  {
    var queue := QueueOf(s.queues, e.node);
    OrderStep(s, e, EventEffect(queue, s.spans, e));
    OtherEffectsDepart(queue, s.spans, e);
  }

  /** A run in which the second payload is sent while the first still waits. */
  lemma {:induction false} FastPathOvertakes(first: Pending, second: Pending)
    requires first != second
    ensures !InOrder(Run([SecureS2SendRequest(5, first, true), SpanChanged(5, Peer(true, false, false)),
                          SecureS2SendRequest(5, second, true)]), 5)
  {
    var e1, e2, e3 := SecureS2SendRequest(5, first, true), SpanChanged(5, Peer(true, false, false)),
                      SecureS2SendRequest(5, second, true);
    RunAppend([], e1);
    RunAppend([e1], e2);
    RunAppend([e1, e2], e3);
    assert [] + [e1] == [e1] && [e1] + [e2] == [e1, e2] && [e1, e2] + [e3] == [e1, e2, e3];
    FirstWaits(first);
    OtherEventsKeepOrder(Run([e1]), e2);
    RequestKeepsOrderIff(Run([e1, e2]), 5, second);
    assert QueueOf(Run([e1, e2]).queues, 5)[0] == first;
  }

  // ---- Order over whole runs ---------------------------------------------------------------------

  /** The input does not send a payload ahead of a different one that waits. */
  predicate KeepsPlace(s: State, e: Event, n: Node) {
    Offered(e) != [] && e.node == n && CanEncrypt(s.spans, n) ==>
      forall i | 0 <= i < |QueueOf(s.queues, n)| :: QueueOf(s.queues, n)[i] == e.pending
  }

  lemma {:induction false} StepKeepsOrderIff(s: State, e: Event, n: Node)
    requires InOrder(s, n)
    ensures InOrder(Step(s, e), n) <==> KeepsPlace(s, e, n)
  {
    if e.node != n {
      OtherViews(s.log, e, EventEffect(QueueOf(s.queues, e.node), s.spans, e).actions, n);
      assert QueueOf(Step(s, e).queues, n) == QueueOf(s.queues, n);
    } else if Offered(e) == [] {
      OtherEventsKeepOrder(s, e);
    } else {
      RequestKeepsOrderIff(s, n, e.pending);
    }
  }

  ghost predicate KeepsPlaces(events: seq<Event>, n: Node) {
    events == [] ||
    (KeepsPlaces(events[..|events| - 1], n) && KeepsPlace(Run(events[..|events| - 1]), events[|events| - 1], n))
  }

  /** What has gone and what waits is what was accepted, in order, after every part of the run. */
  ghost predicate OrderedThroughout(events: seq<Event>, n: Node) {
    InOrder(Run(events), n) && (events == [] || OrderedThroughout(events[..|events| - 1], n))
  }

  /**
   * Throughout a run what has gone and what waits is what was accepted, in order, exactly if no request in
   * it is encryptable while something different waits.
   */
  lemma {:induction false} AlwaysInOrderIff(events: seq<Event>, n: Node)
    ensures OrderedThroughout(events, n) <==> KeepsPlaces(events, n)
    decreases |events|
  {
    if events != [] {
      var front := events[..|events| - 1];
      AlwaysInOrderIff(front, n);
      if OrderedThroughout(front, n) {
        StepKeepsOrderIff(Run(front), events[|events| - 1], n);
      }
    }
  }

  lemma {:induction false} RunAppend(events: seq<Event>, e: Event)
    ensures Run(events + [e]) == Step(Run(events), e)
  {
    assert (events + [e])[..|events|] == events;
  }

  lemma {:induction false} FirstWaits(p: Pending)
    ensures var s := Step(START, SecureS2SendRequest(5, p, true));
            InOrder(s, 5) && QueueOf(s.queues, 5) == [p]
  {
    RequestKeepsOrderIff(START, 5, p);
    assert [] + [p] == [p];
  }

  // ---- The reactor -------------------------------------------------------------------------------

  class Orchestrator {
    var queues: Queues
    var spanManager: Manager
    var log: seq<Entry>

    ghost predicate Valid()
      reads this
    {
      forall n | n in queues :: queues[n] != []
    }

    ghost function Snapshot(): State
      reads this
    {
      State(queues, spanManager, log)
    }

    constructor ()
      ensures Valid() && Snapshot() == START
    {
      queues := map[];
      spanManager := map[];
      log := [];
    }

    method Emit(n: Node, action: Action)
      modifies this`log
      ensures log == old(log) + [Out(n, action)]
    {
      log := log + [Out(n, action)];
    }

    method OnSpanChanged(n: Node, peer: Peer)
      requires Valid()
      modifies this
      ensures Valid() && Snapshot() == Step(old(Snapshot()), SpanChanged(n, peer))
    {
      log := log + [In(SpanChanged(n, peer))];
      spanManager := spanManager[n := peer];
      assert n in queues ==> queues[n := queues[n]] == queues;
    }

    /** Publishes the encrypted payload as `onSuccess`, or reports that no SPAN can be had yet. */
    method SendEncrypted(n: Node, onSuccess: Action) returns (sent: bool)
      modifies this`spanManager, this`log
      ensures sent == CanEncrypt(old(spanManager), n)
      ensures spanManager == Encrypt(old(spanManager), n)
      ensures log == if sent then old(log) + [Out(n, onSuccess)] else old(log)
    {
      sent := CanEncrypt(spanManager, n);
      spanManager := Encrypt(spanManager, n);
      if sent {
        Emit(n, onSuccess);
      }
    }

    method OnSecureS2SendRequest(n: Node, pending: Pending, peerConfigurable: bool)
      requires Valid()
      modifies this
      ensures Valid() && Snapshot() == Step(old(Snapshot()), SecureS2SendRequest(n, pending, peerConfigurable))
    {
      log := log + [In(SecureS2SendRequest(n, pending, peerConfigurable))];
      assert n in queues ==> queues[n := queues[n]] == queues;
      if !peerConfigurable {
        Emit(n, Refuse(pending));
        OutsShort(n, Refuse(pending), NonceGet);
        return;
      }
      var sent := SendEncrypted(n, SendNow(pending));
      if sent {
        OutsShort(n, SendNow(pending), NonceGet);
        return;
      }
      AwaitSpan(n, pending);
    }

    /** Queues the payload; the first one to wait asks for a nonce. */
    method AwaitSpan(n: Node, pending: Pending)
      requires Valid()
      modifies this`queues, this`log
      ensures Valid() && queues == old(queues)[n := QueueOf(old(queues), n) + [pending]]
      ensures log == old(log) + Outs(n, [Enqueue(pending)] + if QueueOf(old(queues), n) == [] then [NonceGet] else [])
    {
      if n !in queues {
        queues := queues[n := []];
      }
      var wasIdle := queues[n] == [];
      queues := queues[n := queues[n] + [pending]];
      Emit(n, Enqueue(pending));
      if wasIdle {
        Emit(n, NonceGet);
      }
      OutsShort(n, Enqueue(pending), NonceGet);
      assert [Enqueue(pending)] + [] == [Enqueue(pending)];
    }

    method OnApplicationCommand(n: Node, ccData: seq<Byte>)
      requires Valid()
      modifies this
      ensures Valid() && Snapshot() == Step(old(Snapshot()), ApplicationCommand(n, ccData))
    {
      log := log + [In(ApplicationCommand(n, ccData))];
      assert n in queues ==> queues[n := queues[n]] == queues;
      if CommandByte(ccData) != Some(NONCE_REPORT) {
        return;
      }
      if n !in queues || queues[n] == [] {
        return;
      }
      var report := DecodeNonceReport(ccData);
      if report.None? {
        return;
      }
      spanManager := AcceptNonceReport(spanManager, n, report.value);
      Drain(n);
    }

    /** Sends from the front until the queue is empty or encryption fails; the entry goes either way. */
    method Drain(n: Node)
      requires Valid() && n in queues
      modifies this
      ensures Valid() && queues == old(queues) - {n} && spanManager == Encrypt(old(spanManager), n)
      ensures log == old(log)
                     + Outs(n, if CanEncrypt(old(spanManager), n) then Sends(old(queues[n])) + [EndExchange([])]
                               else [EndExchange(old(queues[n]))])
    {
      ghost var all, before := queues[n], log;
      var rest := SendFromFront(n, queues[n]);
      OutsAppend(n, Sends(all[..|all| - |rest|]), EndExchange(rest), before);
      assert all[..|all|] == all && all[..0] == [];
      assert rest == all ==> Sends(all[..0]) + [EndExchange(rest)] == [EndExchange(all)];
      Emit(n, EndExchange(rest));
      queues := queues - {n};
    }

    /** Sends until the queue is empty or encryption fails: all of it, or nothing. */
    method SendFromFront(n: Node, all: seq<Pending>) returns (rest: seq<Pending>)
      requires all != []
      modifies this`spanManager, this`log
      ensures spanManager == Encrypt(old(spanManager), n)
      ensures rest == (if CanEncrypt(old(spanManager), n) then [] else all)
      ensures log == old(log) + Outs(n, Sends(all[..|all| - |rest|]))
    {
      ghost var done, first := 0, spanManager;
      rest := all;
      assert old(log) + [] == old(log);
      while rest != []
        invariant done <= |all| && rest == all[done..]
        invariant done > 0 ==> CanEncrypt(first, n) && spanManager == Encrypt(first, n)
        invariant done == 0 ==> spanManager == first
        invariant log == old(log) + Outs(n, Sends(all[..done]))
        decreases |rest|
      {
        EncryptTwice(first, n);
        var sent := SendEncrypted(n, SendQueued(rest[0]));
        if !sent {
          return;
        }
        SendsAppend(n, all, done, old(log));
        rest := rest[1..];
        done := done + 1;
      }
      assert all[..|all|] == all;
    }
  }

  /** Once it has succeeded, encryption goes on succeeding and changes nothing more. */
  lemma {:induction false} EncryptTwice(m: Manager, n: Node)
    ensures CanEncrypt(m, n) ==> CanEncrypt(Encrypt(m, n), n)
    ensures Encrypt(Encrypt(m, n), n) == Encrypt(m, n)
  {}

  lemma {:induction false} OutsAppend(n: Node, actions: seq<Action>, a: Action, log: seq<Entry>)
    ensures log + Outs(n, actions) + [Out(n, a)] == log + Outs(n, actions + [a])
  {
    assert (actions + [a])[..|actions|] == actions;
    ConcatAssociative(log, Outs(n, actions), [Out(n, a)]);
  }

  lemma {:induction false} SendsAppend(n: Node, all: seq<Pending>, done: nat, log: seq<Entry>)
    requires done < |all|
    ensures log + Outs(n, Sends(all[..done])) + [Out(n, SendQueued(all[done]))] == log + Outs(n, Sends(all[..done + 1]))
  {
    assert all[..done + 1][..done] == all[..done];
    OutsAppend(n, Sends(all[..done]), SendQueued(all[done]), log);
  }

  lemma {:induction false} OutsShort(n: Node, a: Action, b: Action)
    ensures Outs(n, []) == [] && Outs(n, [a]) == [Out(n, a)]
    ensures Outs(n, [a] + [b]) == [Out(n, a)] + [Out(n, b)]
  {
    assert [a][..0] == [];
    assert ([a] + [b])[..1] == [a];
  }
}
