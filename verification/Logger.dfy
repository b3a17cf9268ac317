/** The logger's queue between producers and the one consumer thread, as interleaved atomic steps. */
module Logger {
  import opened Bytes
  import opened Sequences

  const QUEUE_DRAIN_BATCH: nat := 64

  datatype Level = Debug | Info | Warn | Error

  function Rank(level: Level): nat {
    match level
    case Debug => 0
    case Info => 1
    case Warn => 2
    case Error => 3
  }

  datatype LogEntry = LogEntry(level: Level, message: string)

  /** Where the consumer thread is: at the top of its loop, emitting its batch, or gone. */
  datatype Consumer = Waiting | Emitting(next: nat) | Exited

  /** A thread that logs; `held` is what it has been admitted with and not yet put into the queue. */
  type Producer = nat

  datatype State = State(
    held: map<Producer, LogEntry>, queue: seq<LogEntry>, batch: seq<LogEntry>, emitted: seq<LogEntry>, running: bool,
    consumer: Consumer, minLevel: Level)

  const START := State(map[], [], [], [], true, Waiting, Info)

  /** A push is two steps: the level test without the lock, and the append under it. */
  datatype Event =
    | Admit(producer: Producer, level: Level, message: string)
    | Append(producer: Producer)
    | SetMinLevel(level: Level)
    | Stop
    | Take
    | EmitNext

  /** The consumer's critical section: wait is over, up to a batch is moved out, or the thread leaves. */
  function Taken(s: State): State {
    if s.consumer != Waiting || (s.queue == [] && s.running) then s
    else
      var take := if |s.queue| < QUEUE_DRAIN_BATCH then |s.queue| else QUEUE_DRAIN_BATCH;
      var moved := s.(batch := s.batch + s.queue[..take], queue := s.queue[take..]);
      if moved.batch == [] && !s.running then moved.(consumer := Exited) else moved.(consumer := Emitting(0))
  }

  /** One entry goes to the sink; after the last one the batch is cleared. */
  function Emitted(s: State): State {
    if !s.consumer.Emitting? || s.consumer.next >= |s.batch| then s
    else
      var next := s.consumer.next;
      var out := s.(emitted := s.emitted + [s.batch[next]]);
      if next + 1 == |s.batch| then out.(batch := [], consumer := Waiting) else out.(consumer := Emitting(next + 1))
  }

  function Step(s: State, e: Event): State {
    match e
    case Admit(p, level, message) =>
      if p in s.held || Rank(level) < Rank(s.minLevel) then s else s.(held := s.held[p := LogEntry(level, message)])
    case Append(p) => if p !in s.held then s else s.(held := s.held - {p}, queue := s.queue + [s.held[p]])
    case SetMinLevel(level) => s.(minLevel := level)
    case Stop => s.(running := false)
    case Take => Taken(s)
    case EmitNext => Emitted(s)
  }

  function Run(events: seq<Event>): State {
    if events == [] then START else Step(Run(events[..|events| - 1]), events[|events| - 1])
  }

  // ---- What was accepted -------------------------------------------------------------------------

  function MinLevel(events: seq<Event>): Level {
    if events == [] then Info
    else
      var e := events[|events| - 1];
      if e.SetMinLevel? then e.level else MinLevel(events[..|events| - 1])
  }

  /** A message passes at or above the level in force; the levels ascend from debug to error. */
  predicate Passes(level: Level, min: Level) {
    match min
    case Debug => true
    case Info => !level.Debug?
    case Warn => level.Warn? || level.Error?
    case Error => level.Error?
  }

  /** The message a producer has passed the level test with and not yet appended. */
  function Holding(events: seq<Event>, p: Producer): Option<LogEntry> {
    if events == [] then None
    else
      var e, front := events[|events| - 1], events[..|events| - 1];
      var before := Holding(front, p);
      if e == Append(p) then None
      else if e.Admit? && e.producer == p && before.None? && Passes(e.level, MinLevel(front))
      then Some(LogEntry(e.level, e.message))
      else before
  }

  /** The messages that were at or above the level in force when it was tested, in the order they were appended. */
  function Accepted(events: seq<Event>): seq<LogEntry> {
    if events == [] then []
    else
      var e, front := events[|events| - 1], events[..|events| - 1];
      Accepted(front) + if e.Append? && Holding(front, e.producer).Some? then [Holding(front, e.producer).value] else []
  }

  /** The part of the batch that is still to be emitted. */
  function Unemitted(s: State): seq<LogEntry> {
    if s.consumer.Emitting? && s.consumer.next <= |s.batch| then s.batch[s.consumer.next..] else s.batch
  }

  predicate Valid(s: State) {
    if s.consumer.Emitting? then s.consumer.next < |s.batch| else s.batch == []
  }

  function Flow(s: State): seq<LogEntry> {
    s.emitted + Unemitted(s) + s.queue
  }

  lemma {:induction false} TakenKeepsFlow(s: State)
    requires Valid(s)
    ensures Valid(Taken(s)) && Flow(Taken(s)) == Flow(s)
  {
    if s.consumer == Waiting && (s.queue != [] || !s.running) {
      var take := if |s.queue| < QUEUE_DRAIN_BATCH then |s.queue| else QUEUE_DRAIN_BATCH;
      assert [] + s.queue[..take] == s.queue[..take];
      assert s.queue[..take] + s.queue[take..] == s.queue;
      assert s.queue != [] ==> s.queue[..take] != [];
      ConcatAssociative(s.emitted, s.queue[..take], s.queue[take..]);
      assert s.queue[..take][0..] == s.queue[..take];
      assert s.emitted + [] == s.emitted;
    }
  }

  lemma {:induction false} EmittedKeepsFlow(s: State)
    requires Valid(s)
    ensures Valid(Emitted(s)) && Flow(Emitted(s)) == Flow(s)
  {
    if s.consumer.Emitting? {
      var next := s.consumer.next;
      var rest := s.batch[next + 1..];
      assert s.batch[next..] == [s.batch[next]] + rest;
      ConcatAssociative(s.emitted, [s.batch[next]], rest);
    }
  }

  ghost predicate HeldIs(s: State, events: seq<Event>) {
    forall p: Producer :: Holding(events, p) == if p in s.held then Some(s.held[p]) else None
  }

  lemma {:induction false} StepKeepsHeld(s: State, events: seq<Event>, e: Event)
    requires HeldIs(s, events) && s.minLevel == MinLevel(events)
    ensures HeldIs(Step(s, e), events + [e])
  {
    assert (events + [e])[..|events|] == events;
  }

  lemma {:induction false} StepKeepsFlow(s: State, e: Event)
    requires Valid(s)
    ensures Valid(Step(s, e))
    ensures Flow(Step(s, e)) == Flow(s) + if e.Append? && e.producer in s.held then [s.held[e.producer]] else []
  {
    assert Flow(s) + [] == Flow(s);
    match e
    case Append(p) =>
      if p in s.held {
        ConcatAssociative(s.emitted + Unemitted(s), s.queue, [s.held[p]]);
      }
    case Take => TakenKeepsFlow(s);
    case EmitNext => EmittedKeepsFlow(s);
    case _ =>
  }

  ghost predicate Inv(s: State, events: seq<Event>) {
    Valid(s) && Flow(s) == Accepted(events) && s.minLevel == MinLevel(events) && HeldIs(s, events)
  }

  lemma {:induction false} StepKeepsInv(s: State, events: seq<Event>, e: Event)
    requires Inv(s, events)
    ensures Inv(Step(s, e), events + [e])
  {
    StepKeepsFlow(s, e);
    StepKeepsHeld(s, events, e);
    assert (events + [e])[..|events|] == events;
    if e.Append? {
      assert Holding(events, e.producer) == if e.producer in s.held then Some(s.held[e.producer]) else None;
    }
  }

  lemma {:induction false} RunAppend(events: seq<Event>, e: Event)
    ensures Run(events + [e]) == Step(Run(events), e)
  {
    assert (events + [e])[..|events|] == events;
  }

  lemma {:induction false} RunKeepsInv(events: seq<Event>)
    ensures Inv(Run(events), events)
    decreases |events|
  {
    if events != [] {
      var front, e := events[..|events| - 1], events[|events| - 1];
      RunKeepsInv(front);
      StepKeepsInv(Run(front), front, e);
      RunAppend(front, e);
      assert front + [e] == events;
    }
  }

  /**
   * In every interleaving of producers, level changes, stop and consumer: what is emitted, followed by the
   * rest of the batch, followed by the queue, is what was accepted, in order.
   */
  lemma {:induction false} RunKeepsFlow(events: seq<Event>)
    ensures Valid(Run(events)) && Flow(Run(events)) == Accepted(events)
  {
    RunKeepsInv(events);
  }

  // ---- Leaving -----------------------------------------------------------------------------------

  /** The consumer leaves only after a stop, and by then everything accepted has been emitted. */
  lemma {:induction false} ExitEmitsEverything(events: seq<Event>, e: Event)
    requires Run(events).consumer != Exited && Run(events + [e]).consumer == Exited
    ensures var s := Run(events + [e]);
            !s.running && s.queue == [] && s.emitted == Accepted(events) == Accepted(events + [e])
  {
    RunKeepsFlow(events);
    assert (events + [e])[..|events|] == events;
    var s := Run(events);
    assert e == Take && s.queue == [] && s.batch == [];
    assert s.emitted + [] + [] == s.emitted;
  }

  function Batches(pending: nat): nat {
    (pending + 63) / 64
  }

  /** How many consumer steps are left: one per entry, one per batch, and one to leave. */
  function StepsLeft(s: State): nat {
    if s.consumer == Exited then 0 else |Unemitted(s)| + |s.queue| + Batches(|s.queue|) + 1
  }

  function ConsumerStep(s: State): State {
    if s.consumer == Waiting then Taken(s) else Emitted(s)
  }

  lemma {:induction false} ConsumerProgresses(s: State)
    requires Valid(s) && s.consumer != Exited && (!s.running || s.queue != [] || s.consumer.Emitting?)
    ensures Valid(ConsumerStep(s)) && StepsLeft(ConsumerStep(s)) == StepsLeft(s) - 1
    ensures ConsumerStep(s).running == s.running
  {}

  function ConsumerSteps(s: State, k: nat): State
    decreases k
  {
    if k == 0 then s else ConsumerSteps(ConsumerStep(s), k - 1)
  }

  /** After a stop, with no further pushes, the consumer leaves in exactly the steps left, all emitted. */
  lemma {:induction false} StoppedConsumerLeaves(s: State)
    requires Valid(s) && !s.running
    ensures var last := ConsumerSteps(s, StepsLeft(s));
            last.consumer == Exited && (s.consumer != Exited ==> last.emitted == Flow(s))
    decreases StepsLeft(s)
  {
    if s.consumer != Exited {
      ConsumerProgresses(s);
      var next := ConsumerStep(s);
      StoppedConsumerLeaves(next);
      ConsumerKeepsFlow(s);
    }
  }

  lemma {:induction false} ConsumerKeepsFlow(s: State)
    requires Valid(s) && s.consumer != Exited
    ensures Flow(ConsumerStep(s)) == Flow(s)
    ensures ConsumerStep(s).consumer == Exited ==> ConsumerStep(s).emitted == Flow(s)
  {
    TakenKeepsFlow(s);
    EmittedKeepsFlow(s);
    assert s.emitted + [] + [] == s.emitted;
  }

  // ---- The logger --------------------------------------------------------------------------------

  class LoggerState {
    var held: map<Producer, LogEntry>
    var queue: seq<LogEntry>
    var batch: seq<LogEntry>
    var emitted: seq<LogEntry>
    var running: bool
    var consumer: Consumer
    var minLevel: Level

    ghost function Snapshot(): State
      reads this
    {
      State(held, queue, batch, emitted, running, consumer, minLevel)
    }

    constructor ()
      ensures Snapshot() == START
    {
      held, queue, batch, emitted := map[], [], [], [];
      running := true;
      consumer := Waiting;
      minLevel := Info;
    }

    /** The first half of a push: a message below the level goes no further. */
    method AdmitEntry(producer: Producer, level: Level, message: string)
      requires producer !in held
      modifies this
      ensures Snapshot() == Step(old(Snapshot()), Admit(producer, level, message))
    {
      if Rank(level) < Rank(minLevel) {
        return;
      }
      held := held[producer := LogEntry(level, message)];
    }

    /** The second half, under the lock. */
    method AppendEntry(producer: Producer)
      requires producer in held
      modifies this
      ensures Snapshot() == Step(old(Snapshot()), Append(producer))
    {
      queue := queue + [held[producer]];
      held := held - {producer};
    }

    method ChangeMinLevel(level: Level)
      modifies this
      ensures Snapshot() == Step(old(Snapshot()), SetMinLevel(level))
    {
      minLevel := level;
    }

    method StopRunning()
      modifies this
      ensures Snapshot() == Step(old(Snapshot()), Stop)
    {
      running := false;
    }

    /** The critical section at the top of the consumer's loop, entered when the wait is over. */
    method TakeBatch()
      requires consumer == Waiting && (queue != [] || !running)
      modifies this
      ensures Snapshot() == Step(old(Snapshot()), Take)
    {
      ghost var all, had := queue, batch;
      var take := if |queue| < QUEUE_DRAIN_BATCH then |queue| else QUEUE_DRAIN_BATCH;
      var i := 0;
      while i < take
        invariant 0 <= i <= take <= |all|
        invariant batch == had + all[..i] && queue == all[i..]
        invariant running == old(running) && emitted == old(emitted) && minLevel == old(minLevel) && held == old(held)
      {
        assert all[..i + 1] == all[..i] + [all[i]];
        ConcatAssociative(had, all[..i], [all[i]]);
        batch := batch + [queue[0]];
        queue := queue[1..];
        i := i + 1;
      }
      if batch == [] && !running {
        consumer := Exited;
        return;
      }
      consumer := Emitting(0);
    }

    method EmitEntry()
      requires consumer.Emitting? && consumer.next < |batch|
      modifies this
      ensures Snapshot() == Step(old(Snapshot()), EmitNext)
    {
      var next := consumer.next;
      emitted := emitted + [batch[next]];
      if next + 1 == |batch| {
        batch := [];
        consumer := Waiting;
      } else {
        consumer := Emitting(next + 1);
      }
    }

    /** The consumer's loop from a stop on: it terminates with everything emitted. */
    method DrainUntilExit()
      requires Valid(Snapshot()) && !running
      modifies this
      ensures consumer == Exited
      ensures old(consumer) != Exited ==> emitted == Flow(old(Snapshot())) && queue == []
    {
      ghost var flow := Flow(Snapshot());
      while consumer != Exited
        invariant Valid(Snapshot()) && !running
        invariant old(consumer) != Exited ==> Flow(Snapshot()) == flow
        invariant old(consumer) != Exited && consumer == Exited ==> queue == []
        decreases StepsLeft(Snapshot())
      {
        ConsumerProgresses(Snapshot());
        TakenKeepsFlow(Snapshot());
        EmittedKeepsFlow(Snapshot());
        if consumer == Waiting {
          TakeBatch();
        } else {
          EmitEntry();
        }
      }
      assert emitted + [] + [] == emitted;
    }
  }
}
