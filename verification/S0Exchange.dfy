/**
 * The whole Security 0 exchange, read off the log alone: which report sends what, which one gives up, and what
 * is then still waiting.
 */
module S0Exchange {
  import opened Bytes
  import opened Sequences
  import opened OutboundQueue
  import opened S0Outbound

  /** What waits for `n` after one more entry of the log. */
  function WaitingAfter(waiting: seq<Pending>, x: Entry, n: Node): seq<Pending> {
    if x.In? then (if x.event.SecureSendRequest? && x.event.node == n then waiting + [x.event.pending] else waiting)
    else if x.node != n then waiting
    else match x.action
      case NonceGet => waiting
      case SendEncrypted(_, _) => if waiting == [] then [] else waiting[1..]
      case DropQueued(_) => []
  }

  /** What was requested for `n` and neither sent nor dropped. */
  function Unsent(log: seq<Entry>, n: Node): seq<Pending>
    decreases |log|
  {
    if log == [] then [] else WaitingAfter(Unsent(log[..|log| - 1], n), log[|log| - 1], n)
  }

  predicate IsNonceReport(ccData: seq<Byte>) {
    2 <= |ccData| && ccData[0] == 0x98 && ccData[1] == 0x80
  }

  /** What goes to the node in answer to an input, given what waits for it. */
  function Answer(e: Event, waiting: seq<Pending>): seq<Action> {
    match e
    case SecureSendRequest(_, _) => if waiting == [] then [NonceGet] else []
    case ApplicationCommand(_, ccData, networkKeyLoaded) =>
      if waiting == [] || !IsNonceReport(ccData) then []
      else if |ccData| == 10 && networkKeyLoaded then
        [SendEncrypted(waiting[0], ccData[2..])] + if |waiting| > 1 then [NonceGet] else []
      else [DropQueued(waiting)]
  }

  /** The actions stand right behind the input at `i`, and then comes the next input. */
  ghost predicate FollowedBy(log: seq<Entry>, i: nat, n: Node, actions: seq<Action>) {
    && i + 1 + |actions| <= |log|
    && (forall k | 0 <= k < |actions| :: log[i + 1 + k] == Out(n, actions[k]))
    && (i + 1 + |actions| < |log| ==> log[i + 1 + |actions|].In?)
  }

  ghost predicate AnsweredAt(log: seq<Entry>, i: nat)
    requires i < |log|
  {
    log[i].In? ==>
      var e := log[i].event;
      FollowedBy(log, i, e.node, Answer(e, Unsent(log[..i], e.node)))
  }

  ghost predicate Inv(s: State) {
    && (forall n: Node :: Unsent(s.log, n) == QueueOf(s.queues, n))
    && (forall i :: 0 <= i < |s.log| ==> AnsweredAt(s.log, i))
  }

  lemma {:induction false} OutsAre(n: Node, actions: seq<Action>)
    ensures |Outs(n, actions)| == |actions|
    ensures forall k | 0 <= k < |actions| :: Outs(n, actions)[k] == Out(n, actions[k])
    decreases |actions|
  {
    if actions != [] {
      OutsAre(n, actions[..|actions| - 1]);
    }
  }

  /** The reaction of the model is the answer the octets call for. */
  lemma {:induction false} EffectIsAnswer(queue: seq<Pending>, e: Event)
    ensures EventEffect(queue, e).actions == Answer(e, queue)
  {}

  lemma {:induction false} UnsentAppend(log: seq<Entry>, x: Entry, n: Node)
    ensures Unsent(log + [x], n) == WaitingAfter(Unsent(log, n), x, n)
  {
    assert (log + [x])[..|log|] == log;
  }

  /** What waits after a whole reaction. */
  function WaitingAfterAll(waiting: seq<Pending>, actions: seq<Action>, n: Node): seq<Pending> {
    if actions == [] then waiting
    else WaitingAfter(WaitingAfterAll(waiting, actions[..|actions| - 1], n), Out(n, actions[|actions| - 1]), n)
  }

  lemma {:induction false} UnsentAfterOuts(log: seq<Entry>, m: Node, actions: seq<Action>, n: Node)
    ensures Unsent(log + Outs(m, actions), n)
            == if m == n then WaitingAfterAll(Unsent(log, n), actions, n) else Unsent(log, n)
    decreases |actions|
  {
    if actions == [] {
      assert log + Outs(m, actions) == log;
    } else {
      var front, a := actions[..|actions| - 1], actions[|actions| - 1];
      UnsentAfterOuts(log, m, front, n);
      UnsentAppend(log + Outs(m, front), Out(m, a), n);
      ConcatAssociative(log, Outs(m, front), [Out(m, a)]);
    }
  }

  lemma {:induction false} WaitingShort(waiting: seq<Pending>, a: Action, b: Action, n: Node)
    ensures WaitingAfterAll(waiting, [a], n) == WaitingAfter(waiting, Out(n, a), n)
    ensures WaitingAfterAll(waiting, [a] + [b], n) == WaitingAfter(WaitingAfter(waiting, Out(n, a), n), Out(n, b), n)
  {
    assert [a][..0] == [] && ([a] + [b])[..1] == [a];
  }

  /** The queue of the model is what waits according to the log. */
  lemma {:induction false} EffectOnQueue(queue: seq<Pending>, e: Event)
    ensures EventEffect(queue, e).queue
            == WaitingAfterAll(WaitingAfter(queue, In(e), e.node), EventEffect(queue, e).actions, e.node)
  {
    var waiting, actions := WaitingAfter(queue, In(e), e.node), EventEffect(queue, e).actions;
    if |actions| == 2 {
      assert actions == [actions[0]] + [actions[1]];
      WaitingShort(waiting, actions[0], actions[1], e.node);
    } else if |actions| == 1 {
      assert actions == [actions[0]];
      WaitingShort(waiting, actions[0], NonceGet, e.node);
    }
  }

  lemma {:induction false} StepKeepsUnsent(s: State, e: Event, n: Node)
    requires Unsent(s.log, n) == QueueOf(s.queues, n)
    ensures Unsent(Step(s, e).log, n) == QueueOf(Step(s, e).queues, n)
  {
    var queue := QueueOf(s.queues, e.node);
    var effect := EventEffect(queue, e);
    UnsentAppend(s.log, In(e), n);
    UnsentAfterOuts(s.log + [In(e)], e.node, effect.actions, n);
    EffectOnQueue(queue, e);
    AppliedQueue(s, e, effect, n);
  }

  lemma {:induction false} AppliedQueue(s: State, e: Event, effect: Effect, n: Node)
    ensures QueueOf(Applied(s, e, effect).queues, n) == if e.node == n then effect.queue else QueueOf(s.queues, n)
  {}

  lemma {:induction false} AnswersStay(log: seq<Entry>, e: Event, actions: seq<Action>, i: nat)
    requires i < |log| && AnsweredAt(log, i)
    ensures AnsweredAt(log + [In(e)] + Outs(e.node, actions), i)
  {
    var all := log + [In(e)] + Outs(e.node, actions);
    assert all[..i] == log[..i] && all[i] == log[i] && all[|log|] == In(e);
    assert forall k | 0 <= k < |log| :: all[k] == log[k];
  }

  lemma {:induction false} StepKeepsAnswers(s: State, e: Event, i: nat)
    requires Inv(s) && i < |Step(s, e).log|
    ensures AnsweredAt(Step(s, e).log, i)
  {
    var queue := QueueOf(s.queues, e.node);
    var actions := EventEffect(queue, e).actions;
    var log := Step(s, e).log;
    if i < |s.log| {
      AnswersStay(s.log, e, actions, i);
    } else {
      OutsAre(e.node, actions);
      EffectIsAnswer(queue, e);
      assert Unsent(s.log, e.node) == queue;
      assert log[..|s.log|] == s.log && log[|s.log|] == In(e);
    }
  }

  lemma {:induction false} RunKeepsInv(events: seq<Event>)
    ensures Inv(Run(events))
    decreases |events|
  {
    if events != [] {
      var s, e := Run(events[..|events| - 1]), events[|events| - 1];
      RunKeepsInv(events[..|events| - 1]);
      forall n: Node
        ensures Unsent(Step(s, e).log, n) == QueueOf(Step(s, e).queues, n)
      {
        StepKeepsUnsent(s, e, n);
      }
      forall i | 0 <= i < |Step(s, e).log|
        ensures AnsweredAt(Step(s, e).log, i)
      {
        StepKeepsAnswers(s, e, i);
      }
    }
  }

  /**
   * In every run, a nonce report of exactly ten octets that meets a waiting payload while the network key is
   * loaded sends the oldest one under its nonce, and asks for the next nonce if more is waiting; any other nonce
   * report drops everything that waits; a request asks for a nonce exactly if nothing waited; nothing else is
   * ever sent.
   */
  lemma {:induction false} ExchangeIsExact(events: seq<Event>, i: nat)
    requires i < |Run(events).log|
    ensures AnsweredAt(Run(events).log, i)
    ensures Run(events).log[0].In?
  {
    RunKeepsInv(events);
    FirstIsInput(events);
  }

  lemma {:induction false} FirstIsInput(events: seq<Event>)
    requires Run(events).log != []
    ensures Run(events).log[0].In?
    decreases |events|
  {
    if Run(events[..|events| - 1]).log != [] {
      FirstIsInput(events[..|events| - 1]);
    }
  }

  // ---- Since the last drop -----------------------------------------------------------------------

  /** What was requested for `n` since its queue was last dropped. */
  function RequestedSince(log: seq<Entry>, n: Node): seq<Pending>
    decreases |log|
  {
    if log == [] then []
    else
      var x, before := log[|log| - 1], RequestedSince(log[..|log| - 1], n);
      if x.In? && x.event.SecureSendRequest? && x.event.node == n then before + [x.event.pending]
      else if x.Out? && x.node == n && x.action.DropQueued? then []
      else before
  }

  /** What was sent to `n` since its queue was last dropped. */
  function SentSince(log: seq<Entry>, n: Node): seq<Pending>
    decreases |log|
  {
    if log == [] then []
    else
      var x, before := log[|log| - 1], SentSince(log[..|log| - 1], n);
      if x.Out? && x.node == n && x.action.SendEncrypted? then before + [x.action.pending]
      else if x.Out? && x.node == n && x.action.DropQueued? then []
      else before
  }

  /** An entry keeps the account if what it sends is the oldest that waits. */
  lemma {:induction false} EntryKeepsAccount(log: seq<Entry>, x: Entry, n: Node)
    requires RequestedSince(log, n) == SentSince(log, n) + Unsent(log, n)
    requires x.Out? && x.node == n && x.action.SendEncrypted? ==>
               Unsent(log, n) != [] && x.action.pending == Unsent(log, n)[0]
    ensures RequestedSince(log + [x], n) == SentSince(log + [x], n) + Unsent(log + [x], n)
  {
    assert (log + [x])[..|log|] == log;
    var sent, waiting := SentSince(log, n), Unsent(log, n);
    if x.In? && x.event.SecureSendRequest? && x.event.node == n {
      ConcatAssociative(sent, waiting, [x.event.pending]);
    } else if x.Out? && x.node == n && x.action.SendEncrypted? {
      ConcatAssociative(sent, [waiting[0]], waiting[1..]);
      assert [waiting[0]] + waiting[1..] == waiting;
    }
  }

  ghost predicate Balanced(log: seq<Entry>, n: Node) {
    RequestedSince(log, n) == SentSince(log, n) + Unsent(log, n)
  }

  lemma {:induction false} StepKeepsAccount(s: State, e: Event, n: Node)
    requires Balanced(s.log, n) && Unsent(s.log, e.node) == QueueOf(s.queues, e.node)
    ensures Balanced(Step(s, e).log, n)
  {
    var queue := QueueOf(s.queues, e.node);
    var actions, log := Answer(e, queue), s.log + [In(e)];
    EffectIsAnswer(queue, e);
    OutsAre(e.node, actions);
    EntryKeepsAccount(s.log, In(e), n);
    UnsentAppend(s.log, In(e), e.node);
    if actions == [] {
      assert Step(s, e).log == log;
    } else {
      EntryKeepsAccount(log, Out(e.node, actions[0]), n);
      if |actions| == 1 {
        assert Step(s, e).log == log + [Out(e.node, actions[0])];
      } else {
        EntryKeepsAccount(log + [Out(e.node, actions[0])], Out(e.node, actions[1]), n);
        assert Step(s, e).log == log + [Out(e.node, actions[0])] + [Out(e.node, actions[1])];
      }
    }
  }

  /**
   * In every run, what was sent to a node since its queue was last dropped, followed by what waits, is what was
   * requested since then, in order.
   */
  lemma {:induction false} NothingIsLostBetweenDrops(events: seq<Event>, n: Node)
    ensures var s := Run(events);
            RequestedSince(s.log, n) == SentSince(s.log, n) + QueueOf(s.queues, n)
    decreases |events|
  {
    RunKeepsInv(events);
    if events != [] {
      NothingIsLostBetweenDrops(events[..|events| - 1], n);
      RunKeepsInv(events[..|events| - 1]);
      StepKeepsAccount(Run(events[..|events| - 1]), events[|events| - 1], n);
    }
  }
}
