/** What an inclusion sets up, read off the classes the node announces. */
module InclusionSetup {
  import opened Bytes
  import opened Sequences
  import opened Policy
  import opened PolicyRegister
  import opened PendingQueue
  import opened PostInclusion
  import opened PostInclusionRuns

  // ---- Which classes a node answers --------------------------------------------------------------

  /** The class stands in the announcement before the first mark. */
  ghost predicate Answers(ccs: seq<Byte>, cls: Byte) {
    exists i :: 0 <= i < |ccs| && ccs[i] == cls && 0xEF !in ccs[..i + 1]
  }

  lemma {:induction false} HalfIsAnswered(ccs: seq<Byte>, cls: Byte)
    ensures cls in SupportedHalf(ccs) <==> Answers(ccs, cls)
    decreases |ccs|
  {
    if ccs != [] {
      var rest := ccs[1..];
      HalfIsAnswered(rest, cls);
      if i :| 0 <= i < |rest| && rest[i] == cls && 0xEF !in rest[..i + 1] {
        assert ccs[..i + 2] == [ccs[0]] + rest[..i + 1] && ccs[i + 1] == cls;
        assert ccs[0] != 0xEF ==> 0xEF !in ccs[..i + 2];
      }
      if i :| 0 <= i < |ccs| && ccs[i] == cls && 0xEF !in ccs[..i + 1] {
        assert ccs[0] in ccs[..i + 1];
        if i > 0 {
          assert ccs[..i + 1] == [ccs[0]] + rest[..i] && rest[i - 1] == cls;
          assert 0xEF !in rest[..i - 1 + 1];
        }
      }
      if ccs[0] == cls && ccs[0] != 0xEF {
        assert ccs[..0 + 1] == [ccs[0]];
      }
    }
  }

  lemma {:induction false} ScanIsAnswered(ccs: seq<Byte>)
    ensures Scan(ccs).association <==> Answers(ccs, 0x85)
    ensures Scan(ccs).configuration <==> Answers(ccs, 0x70)
    ensures Scan(ccs).wakeUp <==> Answers(ccs, 0x84)
  {
    HalfIsAnswered(ccs, 0x85);
    HalfIsAnswered(ccs, 0x70);
    HalfIsAnswered(ccs, 0x84);
  }

  // ---- The policy step ---------------------------------------------------------------------------

  /** The class a policy entry needs. */
  function ClassFor(e: Entry): Byte {
    match e
    case Configuration(_, _, _, _) => 0x70
    case Association(_, _) => 0x85
    case WakeUp(_, _) => 0x84
  }

  /** A wake-up entry for node 0 is for the controller, as far as it is known. */
  function Directed(e: Entry, controller: Option<Byte>): Entry {
    match e
    case WakeUp(interval, target) =>
      WakeUp(interval, if target != 0 then target else if controller.Some? then controller.value else 0)
    case _ => e
  }

  /** The set commands for a policy, in its order. */
  ghost function CommandsFor(policy: seq<Entry>, ccs: seq<Byte>, controller: Option<Byte>): seq<Action> {
    if policy == [] then []
    else
      var e := policy[|policy| - 1];
      CommandsFor(policy[..|policy| - 1], ccs, controller)
      + if Answers(ccs, ClassFor(e)) then [SetPolicy(Directed(e, controller))] else []
  }

  lemma {:induction false} GatedIsCommands(policy: seq<Entry>, ccs: seq<Byte>, controller: Option<Byte>)
    ensures Gated(policy, Scan(ccs), controller) == CommandsFor(policy, ccs, controller)
    decreases |policy|
  {
    if policy != [] {
      GatedIsCommands(policy[..|policy| - 1], ccs, controller);
      ScanIsAnswered(ccs);
    }
  }

  /** A command is among them exactly if it is for an entry of the policy whose class the node answers. */
  lemma {:induction false} CommandIff(policy: seq<Entry>, ccs: seq<Byte>, controller: Option<Byte>, x: Entry)
    ensures SetPolicy(x) in CommandsFor(policy, ccs, controller)
            <==> exists e :: e in policy && Answers(ccs, ClassFor(e)) && x == Directed(e, controller)
    decreases |policy|
  {
    if policy != [] {
      var front, last := policy[..|policy| - 1], policy[|policy| - 1];
      CommandIff(front, ccs, controller, x);
      assert policy == front + [last];
    }
  }

  /** The actions stand right behind entry `i` of the log. */
  ghost predicate Behind(log: seq<LogEntry>, i: nat, n: Node, actions: seq<Action>) {
    i + 1 + |actions| <= |log| && forall k | 0 <= k < |actions| :: log[i + 1 + k] == Out(n, actions[k])
  }

  /**
   * In every run, right behind a completed interview stand one set command for each entry of the policy in force
   * whose class the node announced before the mark at its inclusion (0x70 for a configuration, 0x85 for an
   * association, 0x84 for a wake-up), in the order of the policy and with the controller as the default target of
   * a wake-up, then their number and the end of the set-up.
   */
  lemma {:induction false} PolicyStepIsExact(inclusionFirst: bool, dbValid: bool, events: seq<Event>, i: nat)
    requires i < |Run(inclusionFirst, dbValid, events).log| && Run(inclusionFirst, dbValid, events).log[i].Out?
    requires Run(inclusionFirst, dbValid, events).log[i].action.InterviewComplete?
    ensures var log := Run(inclusionFirst, dbValid, events).log;
            var n, before := log[i].node, log[..i];
            var policy, ccs := InForce(PoliciesIn(dbValid, before), n), WatchLog(before, n).ccs;
            var commands := CommandsFor(policy, ccs, ControllerIn(before));
            Behind(log, i, n, commands + [PolicyApplied(|commands|), InclusionComplete])
  {
    var log := Run(inclusionFirst, dbValid, events).log;
    var n, before := log[i].node, log[..i];
    var policy, ccs := InForce(PoliciesIn(dbValid, before), n), WatchLog(before, n).ccs;
    PolicyStepFollowsInterview(inclusionFirst, dbValid, events, i);
    GatedIsCommands(policy, ccs, ControllerIn(before));
    var actions := PolicyActions(policy, Scan(ccs), ControllerIn(before));
    SliceIsBehind(log, i, n, actions);
  }

  lemma {:induction false} SliceIsBehind(log: seq<LogEntry>, i: nat, n: Node, actions: seq<Action>)
    requires i + 1 + |actions| <= |log| && log[i + 1..i + 1 + |actions|] == Outs(n, actions)
    ensures Behind(log, i, n, actions)
  {
    forall k | 0 <= k < |actions|
      ensures log[i + 1 + k] == Out(n, actions[k])
    {
      assert log[i + 1..i + 1 + |actions|][k] == Outs(n, actions)[k];
    }
  }

  // ---- The interview -----------------------------------------------------------------------------

  /** Every node is asked who it is and what it runs; endpoints and Z-Wave Plus only if it announces them. */
  predicate Wanted(step: Step, ccs: seq<Byte>) {
    match step
    case ManufacturerSpecific => true
    case Version => true
    case Endpoints => 0x60 in ccs
    case ZWavePlus => 0x5E in ccs
  }

  function Place(step: Step): nat {
    match step
    case ManufacturerSpecific => 0
    case Version => 1
    case Endpoints => 2
    case ZWavePlus => 3
  }

  /** An interview asks for exactly the wanted steps, each once, in their order. */
  lemma {:induction false} StepsAreWanted(ccs: seq<Byte>)
    ensures forall step: Step :: step in StepsFor(ccs) <==> Wanted(step, ccs)
    ensures forall i, j :: 0 <= i < j < |StepsFor(ccs)| ==> Place(StepsFor(ccs)[i]) < Place(StepsFor(ccs)[j])
  {
    var a: seq<Step> := if 0x60 in ccs then [Endpoints] else [];
    var b: seq<Step> := if 0x5E in ccs then [ZWavePlus] else [];
    assert StepsFor(ccs) == [ManufacturerSpecific, Version] + a + b;
  }

  /** Each step is asked with the Get command of its own class. */
  lemma {:induction false} RequestIsGet(step: Step)
    ensures PayloadFor(step) == match step
              case ManufacturerSpecific => [0x72, 0x04]
              case Version => [0x86, 0x11]
              case Endpoints => [0x60, 0x07]
              case ZWavePlus => [0x5E, 0x01]
  {}

  // ---- The inclusion itself ----------------------------------------------------------------------

  /** The lifeline of a node that answers associations goes to the controller, if that is known. */
  ghost function LifelineFor(ccs: seq<Byte>, autoLifeline: bool, controller: Option<Byte>): seq<Action> {
    if !Answers(ccs, 0x85) || !autoLifeline then []
    else if controller.None? then [LifelineSkipped]
    else [SetPolicy(Association(1, [controller.value])), LifelineSet]
  }

  /** The requests an inclusion makes at once: none before a secure node is secure, all for a sleeping one. */
  function FirstRequests(ccs: seq<Byte>): seq<Action> {
    if 0x98 in ccs || 0x9F in ccs then []
    else if 0x84 in ccs then seq(|StepsFor(ccs)|, i requires 0 <= i < |StepsFor(ccs)| => QueueGet(StepsFor(ccs)[i]))
    else [Get(ManufacturerSpecific)]
  }

  /** The behaviour last configured; lifelines are set unless that was switched off. */
  function AutoIn(log: seq<LogEntry>): bool
    decreases |log|
  {
    if log == [] then true
    else
      var x := log[|log| - 1];
      if x.In? && x.event.BehaviorConfig? then x.event.autoLifeline else AutoIn(log[..|log| - 1])
  }

  /** Exactly these actions follow the input at `i`. */
  ghost predicate FollowedBy(log: seq<LogEntry>, i: nat, n: Node, actions: seq<Action>) {
    Behind(log, i, n, actions) && (i + 1 + |actions| < |log| ==> log[i + 1 + |actions|].In?)
  }

  ghost predicate SetUpAt(inclusionFirst: bool, log: seq<LogEntry>, i: nat)
    requires i < |log|
  {
    log[i].In? && log[i].event.NodeIncluded? ==>
      var ccs, before := log[i].event.commandClasses, log[..i];
      var lifeline := LifelineFor(ccs, AutoIn(before), ControllerIn(before));
      FollowedBy(log, i, log[i].event.node,
                 if inclusionFirst then lifeline + FirstRequests(ccs) else FirstRequests(ccs) + lifeline)
  }

  ghost predicate SetUpInv(inclusionFirst: bool, s: State) {
    && s.inclusionFirst == inclusionFirst && s.autoLifeline == AutoIn(s.log) && s.controller == ControllerIn(s.log)
    && forall i :: 0 <= i < |s.log| ==> SetUpAt(inclusionFirst, s.log, i)
  }

  /** The inputs and outputs an event adds to the log. */
  function AddedBy(s: State, e: Event): seq<Action>
    requires WellFormed(s)
  {
    if IsGlobal(e) then [] else EffectOf(Noted(s, e), e, e.node).actions
  }

  function Subject(e: Event): Node {
    if IsGlobal(e) then 0 else e.node
  }

  lemma {:induction false} LogAfter(s: State, e: Event)
    requires WellFormed(s)
    ensures StepOn(s, e).log == s.log + [In(e)] + Outs(Subject(e), AddedBy(s, e))
    ensures StepOn(s, e).inclusionFirst == s.inclusionFirst
    ensures StepOn(s, e).autoLifeline == if e.BehaviorConfig? then e.autoLifeline else s.autoLifeline
    ensures StepOn(s, e).controller == if e.DongleInfo? then Some(e.controller) else s.controller
  {
    if IsGlobal(e) {
      assert Outs(0, []) == [];
    }
  }

  lemma {:induction false} AutoAfter(log: seq<LogEntry>, e: Event, n: Node, actions: seq<Action>)
    ensures var all := log + [In(e)] + Outs(n, actions);
            && AutoIn(all) == (if e.BehaviorConfig? then e.autoLifeline else AutoIn(log))
            && ControllerIn(all) == (if e.DongleInfo? then Some(e.controller) else ControllerIn(log))
    decreases |actions|
  {
    var all := log + [In(e)] + Outs(n, actions);
    if actions == [] {
      assert all == log + [In(e)] && all[..|log|] == log;
    } else {
      var front := actions[..|actions| - 1];
      AutoAfter(log, e, n, front);
      assert all[..|all| - 1] == log + [In(e)] + Outs(n, front);
    }
  }

  lemma {:induction false} FollowedStays(log: seq<LogEntry>, more: seq<LogEntry>, i: nat, n: Node, actions: seq<Action>)
    requires i < |log| && FollowedBy(log, i, n, actions) && more != [] && more[0].In?
    ensures FollowedBy(log + more, i, n, actions)
  {
    var all := log + more;
    assert all[|log|] == more[0];
    forall k | 0 <= k < |actions|
      ensures all[i + 1 + k] == Out(n, actions[k])
    {
      assert all[i + 1 + k] == log[i + 1 + k];
    }
  }

  lemma {:induction false} SetUpStays(inclusionFirst: bool, log: seq<LogEntry>, more: seq<LogEntry>, i: nat)
    requires i < |log| && SetUpAt(inclusionFirst, log, i) && more != [] && more[0].In?
    ensures SetUpAt(inclusionFirst, log + more, i)
  {
    assert (log + more)[..i] == log[..i] && (log + more)[i] == log[i];
    if log[i].In? && log[i].event.NodeIncluded? {
      var ccs, before := log[i].event.commandClasses, log[..i];
      var lifeline := LifelineFor(ccs, AutoIn(before), ControllerIn(before));
      FollowedStays(log, more, i, log[i].event.node,
                    if inclusionFirst then lifeline + FirstRequests(ccs) else FirstRequests(ccs) + lifeline);
    }
  }

  lemma {:induction false} LifelineIs(ccs: seq<Byte>, autoLifeline: bool, controller: Option<Byte>)
    ensures LifelineActions(Scan(ccs), autoLifeline, controller) == LifelineFor(ccs, autoLifeline, controller)
  {
    ScanIsAnswered(ccs);
  }

  lemma {:induction false} FirstRequestsAre(ccs: seq<Byte>)
    ensures FirstRequests(ccs)
            == if IsSecure(ccs) then [] else BeginActions(Session(StepsFor(ccs), 0, false, IsSleeping(ccs)))
  {
    var steps := StepsFor(ccs);
    assert steps[0] == ManufacturerSpecific;
    assert QueueGets(steps) == seq(|steps|, i requires 0 <= i < |steps| => QueueGet(steps[i]));
  }

  lemma {:induction false} InclusionSetsUp(inclusionFirst: bool, s: State, n: Node, ccs: seq<Byte>)
    requires WellFormed(s) && s.inclusionFirst == inclusionFirst
    ensures var lifeline := LifelineFor(ccs, s.autoLifeline, s.controller);
            AddedBy(s, NodeIncluded(n, ccs))
            == if inclusionFirst then lifeline + FirstRequests(ccs) else FirstRequests(ccs) + lifeline
  {
    LifelineIs(ccs, s.autoLifeline, s.controller);
    FirstRequestsAre(ccs);
    assert AddedBy(s, NodeIncluded(n, ccs)) == IncludedEffect(s, n, ccs).actions;
  }

  lemma {:induction false} NewInputFollowed(log: seq<LogEntry>, e: Event, n: Node, actions: seq<Action>)
    ensures var all := log + [In(e)] + Outs(n, actions);
            all[..|log|] == log && all[|log|] == In(e) && FollowedBy(all, |log|, n, actions)
  {
    var all := log + [In(e)] + Outs(n, actions);
    assert all[..|log|] == log;
  }

  lemma {:induction false} StepKeepsSetUp(inclusionFirst: bool, s: State, e: Event, i: nat)
    requires WellFormed(s) && SetUpInv(inclusionFirst, s) && i < |StepOn(s, e).log|
    ensures SetUpAt(inclusionFirst, StepOn(s, e).log, i)
  {
    LogAfter(s, e);
    AddedKeepsSetUp(inclusionFirst, s, e, AddedBy(s, e), i);
  }

  lemma {:induction false} AddedKeepsSetUp(inclusionFirst: bool, s: State, e: Event, actions: seq<Action>, i: nat)
    requires WellFormed(s) && SetUpInv(inclusionFirst, s) && actions == AddedBy(s, e)
    requires i < |s.log + [In(e)] + Outs(Subject(e), actions)|
    ensures SetUpAt(inclusionFirst, s.log + [In(e)] + Outs(Subject(e), actions), i)
  {
    if i < |s.log| {
      var more := [In(e)] + Outs(Subject(e), actions);
      SetUpStays(inclusionFirst, s.log, more, i);
      ConcatAssociative(s.log, [In(e)], Outs(Subject(e), actions));
    } else if i == |s.log| {
      NewInputFollowed(s.log, e, Subject(e), actions);
      if e.NodeIncluded? {
        InclusionSetsUp(inclusionFirst, s, e.node, e.commandClasses);
      }
    }
  }

  lemma {:induction false} RunKeepsSetUp(inclusionFirst: bool, dbValid: bool, events: seq<Event>)
    ensures SetUpInv(inclusionFirst, Run(inclusionFirst, dbValid, events))
    decreases |events|
  {
    if events != [] {
      var s, e := Run(inclusionFirst, dbValid, events[..|events| - 1]), events[|events| - 1];
      RunKeepsSetUp(inclusionFirst, dbValid, events[..|events| - 1]);
      LogAfter(s, e);
      AutoAfter(s.log, e, Subject(e), AddedBy(s, e));
      forall i | 0 <= i < |StepOn(s, e).log|
        ensures SetUpAt(inclusionFirst, StepOn(s, e).log, i)
      {
        StepKeepsSetUp(inclusionFirst, s, e, i);
      }
    }
  }

  /**
   * In every run and for either order of the two reactors, an inclusion is followed by exactly the lifeline and
   * the first requests its classes call for: the lifeline if 0x85 stands before the mark and lifelines are
   * switched on, to the controller if that is known; the first request, or all of them queued for a sleeping
   * node, unless the node is about to become secure.
   */
  lemma {:induction false} InclusionIsExact(inclusionFirst: bool, dbValid: bool, events: seq<Event>, i: nat)
    requires i < |Run(inclusionFirst, dbValid, events).log|
    ensures SetUpAt(inclusionFirst, Run(inclusionFirst, dbValid, events).log, i)
  {
    RunKeepsSetUp(inclusionFirst, dbValid, events);
  }

  // ---- The wake-up -------------------------------------------------------------------------------

  /** What is pending for a node under the bound network. */
  function PendingFor(s: State, n: Node): seq<Item> {
    if s.queue.dbValid && s.queue.home.Some? then PendingIn(s.queue.rows, s.queue.home.value, n) else []
  }

  /**
   * A wake-up sends every pending command that is not empty, most urgent first and otherwise in the order they
   * were queued, then sends the node back to sleep and reports how many there were; nothing stays pending.
   */
  lemma {:induction false} WakeUpIsExact(s: State, n: Node)
    requires WellFormed(s)
    ensures var after, payloads := StepOn(s, WakeUpNotification(n)), DrainOrder(PendingFor(s, n));
            && after.log == s.log + [In(WakeUpNotification(n))]
                            + Outs(n, Sends(payloads) + [NoMoreInformation, WakeUpCycleComplete(|payloads|)])
            && after.queue.announced == s.queue.announced + [Drained(n, |payloads| % 0x1_0000_0000)]
            && PendingFor(after, n) == []
            && forall m: Node :: m != n ==> PendingFor(after, m) == PendingFor(s, m)
  {
    LogAfter(s, WakeUpNotification(n));
    EmptyBuckets(256);
    forall m: Node
      ensures PendingFor(StepOn(s, WakeUpNotification(n)), m) == if m == n then [] else PendingFor(s, m)
    {
      if s.queue.home.Some? {
        ClearedPending(s.queue, n, s.queue.home.value, m);
      }
    }
  }
}
