/**
 * Sending to a node that uses Security 0: payloads wait in a queue per node, and each is encrypted under
 * a nonce of its own, fetched with one SECURITY_NONCE_GET.
 */
module S0Outbound {
  import opened Bytes
  import opened Sequences
  import opened OutboundQueue

  const COMMAND_CLASS: Byte := 0x98
  const SECURITY_NONCE_REPORT: Byte := 0x80
  const NONCE_SIZE: nat := 8

  function CommandByte(ccData: seq<Byte>): Option<Byte> {
    if |ccData| < 2 || ccData[0] != COMMAND_CLASS then None else Some(ccData[1])
  }

  function DecodeNonceReport(ccData: seq<Byte>): (nonce: Option<seq<Byte>>)
    ensures nonce.Some? ==>
              |nonce.value| == NONCE_SIZE && ccData == [COMMAND_CLASS, SECURITY_NONCE_REPORT] + nonce.value
  {
    if |ccData| != 2 + NONCE_SIZE || ccData[0] != COMMAND_CLASS || ccData[1] != SECURITY_NONCE_REPORT
    then None
    else Some(ccData[2..])
  }

  datatype Event =
    | SecureSendRequest(node: Node, pending: Pending)
    | ApplicationCommand(node: Node, ccData: seq<Byte>, networkKeyLoaded: bool)

  datatype Action =
    | NonceGet
    | SendEncrypted(pending: Pending, nonce: seq<Byte>)
    | DropQueued(payloads: seq<Pending>)

  datatype Entry = In(event: Event) | Out(node: Node, action: Action)

  datatype State = State(queues: Queues, log: seq<Entry>)

  const START := State(map[], [])

  /** What one event does to the queue of the node it concerns, and what it makes the node hear. */
  datatype Effect = Effect(queue: seq<Pending>, actions: seq<Action>)

  function RequestEffect(queue: seq<Pending>, pending: Pending): Effect {
    Effect(queue + [pending], if queue == [] then [NonceGet] else [])
  }

  function CommandEffect(queue: seq<Pending>, ccData: seq<Byte>, networkKeyLoaded: bool): Effect {
    if CommandByte(ccData) != Some(SECURITY_NONCE_REPORT) || queue == [] then Effect(queue, [])
    else
      var nonce := DecodeNonceReport(ccData);
      if nonce.None? || !networkKeyLoaded then Effect([], [DropQueued(queue)])
      else Effect(queue[1..], [SendEncrypted(queue[0], nonce.value)] + if |queue| > 1 then [NonceGet] else [])
  }

  function EventEffect(queue: seq<Pending>, e: Event): Effect {
    match e
    case SecureSendRequest(_, pending) => RequestEffect(queue, pending)
    case ApplicationCommand(_, ccData, networkKeyLoaded) => CommandEffect(queue, ccData, networkKeyLoaded)
  }

  function Outs(n: Node, actions: seq<Action>): seq<Entry> {
    if actions == [] then [] else Outs(n, actions[..|actions| - 1]) + [Out(n, actions[|actions| - 1])]
  }

  function Applied(s: State, e: Event, effect: Effect): State {
    State(WithQueue(s.queues, e.node, effect.queue), s.log + [In(e)] + Outs(e.node, effect.actions))
  }

  function Step(s: State, e: Event): State {
    Applied(s, e, EventEffect(QueueOf(s.queues, e.node), e))
  }

  function Run(events: seq<Event>): State {
    if events == [] then START else Step(Run(events[..|events| - 1]), events[|events| - 1])
  }

  // ---- Reading a log from one node's point of view -----------------------------------------------

  /** The payloads accepted for `n`, in order. */
  function Accepted(log: seq<Entry>, n: Node): seq<Pending> {
    if log == [] then [] else
      var x := log[|log| - 1];
      Accepted(log[..|log| - 1], n)
      + if x.In? && x.event.SecureSendRequest? && x.event.node == n then [x.event.pending] else []
  }

  function Leaving(a: Action): seq<Pending> {
    match a
    case NonceGet => []
    case SendEncrypted(pending, _) => [pending]
    case DropQueued(payloads) => payloads
  }

  /** The payloads that left the queue of `n`, encrypted or dropped, in order. */
  function Left(log: seq<Entry>, n: Node): seq<Pending> {
    if log == [] then [] else
      var x := log[|log| - 1];
      Left(log[..|log| - 1], n) + if x.Out? && x.node == n then Leaving(x.action) else []
  }

  function Weight(a: Action): int {
    if a.NonceGet? then 1 else -1
  }

  /** Nonces asked for minus nonce reports consumed. */
  function Outstanding(log: seq<Entry>, n: Node): int {
    if log == [] then 0 else
      var x := log[|log| - 1];
      Outstanding(log[..|log| - 1], n) + if x.Out? && x.node == n then Weight(x.action) else 0
  }

  lemma {:induction false} AppendViews(log: seq<Entry>, x: Entry, n: Node)
    ensures Accepted(log + [x], n)
            == Accepted(log, n)
               + if x.In? && x.event.SecureSendRequest? && x.event.node == n then [x.event.pending] else []
    ensures Left(log + [x], n) == Left(log, n) + if x.Out? && x.node == n then Leaving(x.action) else []
    ensures Outstanding(log + [x], n) == Outstanding(log, n) + if x.Out? && x.node == n then Weight(x.action) else 0
  {
    assert (log + [x])[..|log|] == log;
  }

  function Weights(actions: seq<Action>): int {
    if actions == [] then 0 else Weights(actions[..|actions| - 1]) + Weight(actions[|actions| - 1])
  }

  lemma {:induction false} OutsViews(log: seq<Entry>, m: Node, actions: seq<Action>, n: Node)
    ensures var after := log + Outs(m, actions);
            && Accepted(after, n) == Accepted(log, n)
            && Left(after, n) == Left(log, n) + (if m == n then FlatMap(actions, Leaving) else [])
            && Outstanding(after, n) == Outstanding(log, n) + (if m == n then Weights(actions) else 0)
    decreases |actions|
  {
    if actions == [] {
      assert log + Outs(m, actions) == log;
    } else {
      var front, a := actions[..|actions| - 1], actions[|actions| - 1];
      OutsViews(log, m, front, n);
      ConcatAssociative(log, Outs(m, front), [Out(m, a)]);
      AppendViews(log + Outs(m, front), Out(m, a), n);
      ConcatAssociative(Left(log, n), FlatMap(front, Leaving), Leaving(a));
    }
  }

  // ---- Per-event facts ---------------------------------------------------------------------------

  lemma {:induction false} ShortFolds(a: Action, b: Action)
    ensures FlatMap([], Leaving) == [] && FlatMap([a], Leaving) == Leaving(a)
    ensures FlatMap([a] + [b], Leaving) == Leaving(a) + Leaving(b)
    ensures Weights([]) == 0 && Weights([a]) == Weight(a) && Weights([a] + [b]) == Weight(a) + Weight(b)
  {
    FlatMapOne(a, Leaving);
    FlatMapAppend([a], b, Leaving);
    assert [a][..0] == [];
    assert ([a] + [b])[..1] == [a];
  }

  function Offered(e: Event): seq<Pending> {
    if e.SecureSendRequest? then [e.pending] else []
  }

  ghost predicate Balanced(queue: seq<Pending>, e: Event, effect: Effect) {
    && queue + Offered(e) == FlatMap(effect.actions, Leaving) + effect.queue
    && Waiting(queue) + Weights(effect.actions) == Waiting(effect.queue)
  }

  lemma {:induction false} ReportBalances(queue: seq<Pending>, ccData: seq<Byte>, loaded: bool)
    ensures var effect := CommandEffect(queue, ccData, loaded);
            && queue == FlatMap(effect.actions, Leaving) + effect.queue
            && Waiting(queue) + Weights(effect.actions) == Waiting(effect.queue)
  {
    var nonce := DecodeNonceReport(ccData);
    ShortFolds(DropQueued(queue), NonceGet);
    if queue != [] && nonce.Some? {
      var send := SendEncrypted(queue[0], nonce.value);
      ShortFolds(send, NonceGet);
      assert [queue[0]] + queue[1..] == queue;
      assert [send] + [] == [send];
      assert [queue[0]] + [] == [queue[0]];
    }
  }

  /** One event loses nothing, keeps the order and asks for exactly the nonces it will need. */
  lemma {:induction false} EffectBalances(queue: seq<Pending>, e: Event)
    ensures Balanced(queue, e, EventEffect(queue, e))
  {
    match e
    case SecureSendRequest(_, pending) =>
      ShortFolds(NonceGet, NonceGet);
      assert [] + (queue + [pending]) == queue + [pending];
    case ApplicationCommand(_, ccData, loaded) =>
      ReportBalances(queue, ccData, loaded);
      assert queue + [] == queue;
  }

  // ---- Every run ---------------------------------------------------------------------------------

  /** Only busy nodes have an entry, one nonce is in flight per busy node, and nothing is lost or reordered. */
  ghost predicate Inv(s: State, n: Node) {
    && (n in s.queues ==> s.queues[n] != [])
    && Outstanding(s.log, n) == (if n in s.queues then 1 else 0)
    && Accepted(s.log, n) == Left(s.log, n) + QueueOf(s.queues, n)
  }

  lemma {:induction false} OwnViews(log: seq<Entry>, e: Event, actions: seq<Action>)
    ensures var after := log + [In(e)] + Outs(e.node, actions);
            && Accepted(after, e.node) == Accepted(log, e.node) + Offered(e)
            && Left(after, e.node) == Left(log, e.node) + FlatMap(actions, Leaving)
            && Outstanding(after, e.node) == Outstanding(log, e.node) + Weights(actions)
  {
    AppendViews(log, In(e), e.node);
    OutsViews(log + [In(e)], e.node, actions, e.node);
    assert Left(log, e.node) + [] == Left(log, e.node);
  }

  lemma {:induction false} OtherViews(log: seq<Entry>, e: Event, actions: seq<Action>, n: Node)
    requires e.node != n
    ensures var after := log + [In(e)] + Outs(e.node, actions);
            Accepted(after, n) == Accepted(log, n) && Left(after, n) == Left(log, n)
            && Outstanding(after, n) == Outstanding(log, n)
  {
    AppendViews(log, In(e), n);
    OutsViews(log + [In(e)], e.node, actions, n);
    assert Left(log, n) + [] == Left(log, n) && Accepted(log, n) + [] == Accepted(log, n);
  }

  lemma {:induction false} AppliedKeepsInv(s: State, e: Event, effect: Effect, n: Node)
    requires Inv(s, n)
    requires Balanced(QueueOf(s.queues, e.node), e, effect)
    ensures Inv(Applied(s, e, effect), n)
  {
    var after := Applied(s, e, effect);
    if e.node == n {
      OwnViews(s.log, e, effect.actions);
      Conserve(Left(s.log, n), QueueOf(s.queues, n), Offered(e), FlatMap(effect.actions, Leaving), effect.queue);
      assert QueueOf(after.queues, n) == effect.queue;
    } else {
      OtherViews(s.log, e, effect.actions, n);
      assert QueueOf(after.queues, n) == QueueOf(s.queues, n);
    }
  }

  lemma {:induction false} StepKeepsInv(s: State, e: Event, n: Node)
    requires Inv(s, n)
    ensures Inv(Step(s, e), n)
  {
    var queue := QueueOf(s.queues, e.node);
    EffectBalances(queue, e);
    AppliedKeepsInv(s, e, EventEffect(queue, e), n);
  }

  /** For every run and every node: payloads leave first in, first out, and the nonce balance is 0 or 1. */
  lemma {:induction false} RunKeepsInv(events: seq<Event>, n: Node)
    ensures Inv(Run(events), n)
    decreases |events|
  {
    if events != [] {
      RunKeepsInv(events[..|events| - 1], n);
      StepKeepsInv(Run(events[..|events| - 1]), events[|events| - 1], n);
    }
  }

  /** The input right before an encryption is the report that brought its nonce. */
  ghost predicate UsesOwnNonce(log: seq<Entry>, i: nat)
    requires i < |log|
  {
    log[i].Out? && log[i].action.SendEncrypted? ==>
      && 0 < i
      && log[i - 1].In? && log[i - 1].event.ApplicationCommand?
      && log[i - 1].event.node == log[i].node
      && log[i - 1].event.networkKeyLoaded
      && DecodeNonceReport(log[i - 1].event.ccData) == Some(log[i].action.nonce)
  }

  lemma {:induction false} StepUsesOwnNonce(s: State, e: Event, i: nat)
    requires i < |Step(s, e).log|
    requires i < |s.log| ==> UsesOwnNonce(s.log, i)
    ensures UsesOwnNonce(Step(s, e).log, i)
  {
    var effect := EventEffect(QueueOf(s.queues, e.node), e);
    var log := Step(s, e).log;
    if |effect.actions| == 2 {
      assert effect.actions == [effect.actions[0]] + [effect.actions[1]];
      OutsShort(e.node, effect.actions[0], effect.actions[1]);
    } else if |effect.actions| == 1 {
      assert effect.actions == [effect.actions[0]];
      OutsShort(e.node, effect.actions[0], NonceGet);
    }
    if i < |s.log| {
      assert log[i] == s.log[i];
    }
  }

  /**
   * One nonce, one message, in every run: every encryption stands directly behind the report whose nonce
   * it uses, so no two encryptions can share a report.
   */
  lemma {:induction false} OneMessagePerNonce(events: seq<Event>, i: nat)
    requires i < |Run(events).log|
    ensures UsesOwnNonce(Run(events).log, i)
    decreases |events|
  {
    var before := Run(events[..|events| - 1]);
    if i < |before.log| {
      OneMessagePerNonce(events[..|events| - 1], i);
    }
    StepUsesOwnNonce(before, events[|events| - 1], i);
  }

  // ---- The reactor -------------------------------------------------------------------------------

  class Orchestrator {
    var queues: Queues
    var log: seq<Entry>

    ghost predicate Valid()
      reads this
    {
      forall n | n in queues :: queues[n] != []
    }

    ghost function Snapshot(): State
      reads this
    {
      State(queues, log)
    }

    constructor ()
      ensures Valid() && Snapshot() == START
    {
      queues := map[];
      log := [];
    }

    method Emit(n: Node, action: Action)
      modifies this`log
      ensures log == old(log) + [Out(n, action)]
    {
      log := log + [Out(n, action)];
    }

    method RequestNonce(n: Node)
      modifies this`log
      ensures log == old(log) + [Out(n, NonceGet)]
    {
      Emit(n, NonceGet);
    }

    method OnSecureSendRequest(n: Node, pending: Pending)
      requires Valid()
      modifies this
      ensures Valid() && Snapshot() == Step(old(Snapshot()), SecureSendRequest(n, pending))
    {
      log := log + [In(SecureSendRequest(n, pending))];
      if n !in queues {
        queues := queues[n := []];
      }
      var wasIdle := queues[n] == [];
      queues := queues[n := queues[n] + [pending]];
      if wasIdle {
        RequestNonce(n);
      }
      OutsShort(n, NonceGet, NonceGet);
    }

    method OnApplicationCommand(n: Node, ccData: seq<Byte>, networkKeyLoaded: bool)
      requires Valid()
      modifies this
      ensures Valid() && Snapshot() == Step(old(Snapshot()), ApplicationCommand(n, ccData, networkKeyLoaded))
    {
      log := log + [In(ApplicationCommand(n, ccData, networkKeyLoaded))];
      OutsShort(n, NonceGet, NonceGet);
      if CommandByte(ccData) != Some(SECURITY_NONCE_REPORT) {
        assert n in queues ==> queues[n := queues[n]] == queues;
        return;
      }
      if n !in queues || queues[n] == [] {
        return;
      }
      var nodeNonce := DecodeNonceReport(ccData);
      if nodeNonce.None? || !networkKeyLoaded {
        OutsShort(n, DropQueued(queues[n]), NonceGet);
        Emit(n, DropQueued(queues[n]));
        queues := queues - {n};
        return;
      }
      var pending := queues[n][0];
      OutsShort(n, SendEncrypted(pending, nodeNonce.value), NonceGet);
      queues := queues[n := queues[n][1..]];
      Emit(n, SendEncrypted(pending, nodeNonce.value));
      if queues[n] != [] {
        RequestNonce(n);
      } else {
        queues := queues - {n};
      }
    }
  }

  lemma {:induction false} OutsShort(n: Node, a: Action, b: Action)
    ensures Outs(n, []) == [] && Outs(n, [a]) == [Out(n, a)]
    ensures Outs(n, [a] + [b]) == [Out(n, a)] + [Out(n, b)]
  {
    assert [a][..0] == [];
    assert ([a] + [b])[..1] == [a];
  }
}
