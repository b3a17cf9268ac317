/**
 * What follows an inclusion: the interview, the lifeline and policy set-up, and the replay of queued
 * commands when a sleeping node wakes. The reactors share one synchronous bus: a message published
 * inside a handler is handled, with all its consequences, before the handler goes on.
 */
module PostInclusion {
  import opened Bytes
  import opened Sequences
  import opened Policy
  import opened PolicyRegister
  import opened PendingQueue

  type Node = Byte

  const CC_ZWAVEPLUS_INFO: Byte := 0x5E
  const CC_MULTI_CHANNEL: Byte := 0x60
  const CC_CONFIGURATION: Byte := 0x70
  const CC_WAKE_UP: Byte := 0x84
  const CC_ASSOCIATION: Byte := 0x85
  const CC_SECURITY_0: Byte := 0x98
  const CC_SECURITY_2: Byte := 0x9F
  const CC_MARK: Byte := 0xEF
  const LIFELINE_GROUP_ID: Byte := 1

  // ---- The interview -----------------------------------------------------------------------------

  datatype Step = ManufacturerSpecific | Version | Endpoints | ZWavePlus

  function StepsFor(ccs: seq<Byte>): (steps: seq<Step>)
    ensures 2 <= |steps|
  {
    [ManufacturerSpecific, Version]
    + (if CC_MULTI_CHANNEL in ccs then [Endpoints] else [])
    + (if CC_ZWAVEPLUS_INFO in ccs then [ZWavePlus] else [])
  }

  function PayloadFor(step: Step): (payload: seq<Byte>)
    ensures payload != []
  {
    match step
    case ManufacturerSpecific => [0x72, 0x04]
    case Version => [0x86, 0x11]
    case Endpoints => [0x60, 0x07]
    case ZWavePlus => [0x5E, 0x01]
  }

  predicate IsSecure(ccs: seq<Byte>) {
    CC_SECURITY_0 in ccs || CC_SECURITY_2 in ccs
  }

  predicate IsSleeping(ccs: seq<Byte>) {
    CC_WAKE_UP in ccs
  }

  datatype Session = Session(steps: seq<Step>, index: nat, started: bool, viaQueue: bool)

  // ---- The policy step ---------------------------------------------------------------------------

  datatype SupportedCcs = SupportedCcs(association: bool, configuration: bool, wakeUp: bool)

  /** The classes a node answers: everything before the mark. */
  function SupportedHalf(ccs: seq<Byte>): seq<Byte> {
    if ccs == [] || ccs[0] == CC_MARK then [] else [ccs[0]] + SupportedHalf(ccs[1..])
  }

  function Scan(ccs: seq<Byte>): SupportedCcs {
    var half := SupportedHalf(ccs);
    SupportedCcs(CC_ASSOCIATION in half, CC_CONFIGURATION in half, CC_WAKE_UP in half)
  }

  /** The scan loop stops at the mark and records the three classes the policy step cares about. */
  method ScanSupported(commandClasses: seq<Byte>) returns (found: SupportedCcs)
    ensures found == Scan(commandClasses)
  {
    found := SupportedCcs(false, false, false);
    ghost var half := SupportedHalf(commandClasses);
    assert commandClasses[0..] == commandClasses;
    var i := 0;
    while i < |commandClasses|
      invariant 0 <= i <= |commandClasses|
      invariant half == commandClasses[..i] + SupportedHalf(commandClasses[i..])
      invariant found == SupportedCcs(CC_ASSOCIATION in commandClasses[..i], CC_CONFIGURATION in commandClasses[..i],
                                      CC_WAKE_UP in commandClasses[..i])
    {
      var cls := commandClasses[i];
      assert commandClasses[i..][0] == cls && commandClasses[i..][1..] == commandClasses[i + 1..];
      if cls == CC_MARK {
        assert half == commandClasses[..i];
        return;
      }
      assert commandClasses[..i + 1] == commandClasses[..i] + [cls];
      if cls == CC_ASSOCIATION {
        found := found.(association := true);
      } else if cls == CC_CONFIGURATION {
        found := found.(configuration := true);
      } else if cls == CC_WAKE_UP {
        found := found.(wakeUp := true);
      }
      i := i + 1;
    }
    assert half == commandClasses[..i];
  }

  predicate IsSupported(supported: SupportedCcs, entry: Entry) {
    match entry
    case Configuration(_, _, _, _) => supported.configuration
    case Association(_, _) => supported.association
    case WakeUp(_, _) => supported.wakeUp
  }

  /** A wake-up entry without a notification target reports to the controller. */
  function Resolved(entry: Entry, controller: Option<Byte>): Entry {
    if entry.WakeUp? && entry.notificationNodeId == 0
    then entry.(notificationNodeId := if controller.Some? then controller.value else 0)
    else entry
  }

  // ---- Events and actions ------------------------------------------------------------------------

  /** `device` is the identity a ManufacturerSpecific report carries; other reports carry none. */
  datatype Event =
    | NodeIncluded(node: Node, commandClasses: seq<Byte>)
    | SecurityStatus(node: Node, scheme: Byte)
    | Report(node: Node, step: Step, device: DeviceId)
    | WakeUpNotification(node: Node)
    | CommandQueued(node: Node, item: Item)
    | QueueCleared(node: Node)
    | OverrideSet(node: Node, policy: seq<Entry>)
    | OverrideDeleted(node: Node)
    | DevicePolicySet(device: DeviceId, policy: seq<Entry>)
    | HomeBound(home: Home)
    | DongleInfo(controller: Byte)
    | BehaviorConfig(autoLifeline: bool)

  /** An input that concerns no node in particular. */
  predicate IsGlobal(e: Event) {
    e.HomeBound? || e.DongleInfo? || e.BehaviorConfig? || e.DevicePolicySet?
  }

  /** `QueueGet` hands a request to the queue; whether it is kept is up to the queue. */
  datatype Action =
    | Get(step: Step)
    | QueueGet(step: Step)
    | InterviewComplete
    | SetPolicy(entry: Entry)
    | LifelineSet
    | LifelineSkipped
    | PolicyApplied(count: nat)
    | InclusionComplete
    | SendData(payload: seq<Byte>)
    | NoMoreInformation
    | WakeUpCycleComplete(count: nat)

  datatype LogEntry = In(event: Event) | Out(node: Node, action: Action)

  datatype State = State(
    inclusionFirst: bool,
    sessions: map<Node, Session>, pendingPolicy: map<Node, SupportedCcs>,
    controller: Option<Byte>, autoLifeline: bool,
    queue: Store, policies: Policies, log: seq<LogEntry>)

  /** `inclusionFirst` says which reactor the bus happens to call first for an inclusion. */
  function Init(inclusionFirst: bool, dbValid: bool): State {
    State(inclusionFirst, map[], map[], None, true, Empty(dbValid), NoPolicies(dbValid), [])
  }

  /** What handling an input for one node leaves behind. */
  datatype Effect = Effect(
    session: Option<Session>, pending: Option<SupportedCcs>, queue: Store, actions: seq<Action>)

  function Update<V>(m: map<Node, V>, n: Node, v: Option<V>): map<Node, V> {
    if v.Some? then m[n := v.value] else m - {n}
  }

  function Fetch<V>(m: map<Node, V>, n: Node): Option<V> {
    if n in m then Some(m[n]) else None
  }

  function Outs(n: Node, actions: seq<Action>): seq<LogEntry> {
    seq(|actions|, i requires 0 <= i < |actions| => Out(n, actions[i]))
  }

  function Apply(s: State, e: Event, n: Node, f: Effect): State {
    s.(sessions := Update(s.sessions, n, f.session),
       pendingPolicy := Update(s.pendingPolicy, n, f.pending),
       queue := f.queue,
       log := s.log + [In(e)] + Outs(n, f.actions))
  }

  function QueueGets(steps: seq<Step>): seq<Action> {
    seq(|steps|, i requires 0 <= i < |steps| => QueueGet(steps[i]))
  }

  function GetItems(steps: seq<Step>): seq<Item> {
    seq(|steps|, i requires 0 <= i < |steps| => Item(PRIORITY_NORMAL, PayloadFor(steps[i])))
  }

  function Begun(t: Session): Session {
    t.(started := true, index := 0)
  }

  function BeginActions(t: Session): seq<Action>
    requires t.steps != []
  {
    if t.viaQueue then QueueGets(t.steps) else [Get(t.steps[0])]
  }

  function BeginQueue(t: Session, q: Store, n: Node): Store {
    if t.viaQueue then AddedAll(q, n, GetItems(t.steps)) else q
  }

  function LifelineActions(supported: SupportedCcs, autoLifeline: bool, controller: Option<Byte>): seq<Action> {
    if !supported.association || !autoLifeline then []
    else if controller.Some? then [SetPolicy(Association(LIFELINE_GROUP_ID, [controller.value])), LifelineSet]
    else [LifelineSkipped]
  }

  function IncludedEffect(s: State, n: Node, ccs: seq<Byte>): Effect {
    var t := Session(StepsFor(ccs), 0, false, IsSleeping(ccs));
    var interview := if IsSecure(ccs) then [] else BeginActions(t);
    var lifeline := LifelineActions(Scan(ccs), s.autoLifeline, s.controller);
    Effect(Some(if IsSecure(ccs) then t else Begun(t)), Some(Scan(ccs)),
           if IsSecure(ccs) then s.queue else BeginQueue(t, s.queue, n),
           if s.inclusionFirst then lifeline + interview else interview + lifeline)
  }

  function SecuredEffect(s: State, n: Node, t: Session): Effect
    requires t.steps != []
  {
    Effect(Some(Begun(t)), Fetch(s.pendingPolicy, n), BeginQueue(t, s.queue, n), BeginActions(t))
  }

  function Gated(policy: seq<Entry>, supported: SupportedCcs, controller: Option<Byte>): seq<Action> {
    if policy == [] then []
    else
      var rest, last := Gated(policy[..|policy| - 1], supported, controller), policy[|policy| - 1];
      if IsSupported(supported, last) then rest + [SetPolicy(Resolved(last, controller))] else rest
  }

  /** The policy step: one set command per supported entry, then the count, then the end of the set-up. */
  function PolicyActions(policy: seq<Entry>, supported: SupportedCcs, controller: Option<Byte>): seq<Action> {
    var sets := Gated(policy, supported, controller);
    sets + [PolicyApplied(|sets|), InclusionComplete]
  }

  /** Without a cached set nothing counts as supported. */
  function CachedOrNone(p: Option<SupportedCcs>): SupportedCcs {
    if p.Some? then p.value else SupportedCcs(false, false, false)
  }

  predicate Awaits(s: State, n: Node, step: Step) {
    && n in s.sessions && s.sessions[n].started
    && s.sessions[n].index < |s.sessions[n].steps|
    && s.sessions[n].steps[s.sessions[n].index] == step
  }

  function ReportEffect(s: State, n: Node): Effect
    requires n in s.sessions && s.sessions[n].index < |s.sessions[n].steps|
  {
    var t := s.sessions[n].(index := s.sessions[n].index + 1);
    var cached := Fetch(s.pendingPolicy, n);
    if t.index >= |t.steps| then
      Effect(None, None, s.queue,
             [InterviewComplete] + PolicyActions(InForce(s.policies, n), CachedOrNone(cached), s.controller))
    else
      Effect(Some(t), cached, s.queue, if t.viaQueue then [] else [Get(t.steps[t.index])])
  }

  function Sends(payloads: seq<seq<Byte>>): seq<Action> {
    seq(|payloads|, i requires 0 <= i < |payloads| => SendData(payloads[i]))
  }

  /**
   * Everything pending under the bound network is sent, most urgent first; the node is sent back to sleep
   * whatever there was.
   */
  function WakeUpEffect(s: State, n: Node): Effect {
    var payloads := DrainedFrom(s.queue, n);
    Effect(Fetch(s.sessions, n), Fetch(s.pendingPolicy, n), AfterDrain(s.queue, n),
           Sends(payloads) + [NoMoreInformation, WakeUpCycleComplete(|payloads|)])
  }

  function Quiet(s: State, n: Node): Effect {
    Effect(Fetch(s.sessions, n), Fetch(s.pendingPolicy, n), s.queue, [])
  }

  ghost predicate WellFormed(s: State) {
    StoreValid(s.queue) && forall n :: n in s.sessions ==> s.sessions[n].steps != []
  }

  function EffectOf(s: State, e: Event, n: Node): Effect
    requires WellFormed(s)
  {
    match e
    case NodeIncluded(_, ccs) => IncludedEffect(s, n, ccs)
    case SecurityStatus(_, scheme) =>
      if scheme != 0 && n in s.sessions && !s.sessions[n].started then SecuredEffect(s, n, s.sessions[n])
      else Quiet(s, n)
    case Report(_, step, _) => if Awaits(s, n, step) then ReportEffect(s, n) else Quiet(s, n)
    case WakeUpNotification(_) => WakeUpEffect(s, n)
    case CommandQueued(_, item) => Quiet(s, n).(queue := Added(s.queue, n, item))
    case QueueCleared(_) => Quiet(s, n).(queue := Cleared(s.queue, n))
    case _ => Quiet(s, n)
  }

  lemma {:induction false} AllAddedIsValid(q: Store, n: Node, items: seq<Item>)
    requires StoreValid(q)
    ensures StoreValid(AddedAll(q, n, items))
    decreases |items|
  {
    if items != [] {
      AllAddedIsValid(q, n, items[..|items| - 1]);
      AddedIsValid(AddedAll(q, n, items[..|items| - 1]), n, items[|items| - 1]);
    }
  }

  lemma {:induction false} QueueStaysValid(s: State, e: Event)
    requires WellFormed(s)
    ensures !IsGlobal(e) ==> StoreValid(EffectOf(s, e, e.node).queue)
  {
    match e
    case NodeIncluded(n, ccs) => AllAddedIsValid(s.queue, n, GetItems(StepsFor(ccs)));
    case SecurityStatus(n, _) =>
      if n in s.sessions {
        AllAddedIsValid(s.queue, n, GetItems(s.sessions[n].steps));
      }
    case WakeUpNotification(n) => ClearedIsValid(s.queue, n);
    case CommandQueued(n, item) => AddedIsValid(s.queue, n, item);
    case QueueCleared(n) => ClearedIsValid(s.queue, n);
    case _ =>
  }

  /** The register hears of an identity before the interview does, and keeps what clients store. */
  function Noted(s: State, e: Event): State {
    match e
    case Report(n, ManufacturerSpecific, device) => s.(policies := WithIdentity(s.policies, n, device))
    case OverrideSet(n, policy) => s.(policies := WithOverride(s.policies, n, policy))
    case OverrideDeleted(n) => s.(policies := WithoutOverride(s.policies, n))
    case _ => s
  }

  /** How the reactors handle an input that concerns one node. */
  function React(s: State, e: Event): (s': State)
    requires WellFormed(s) && !IsGlobal(e)
    ensures WellFormed(s')
  {
    QueueStaysValid(s, e);
    Apply(s, e, e.node, EffectOf(s, e, e.node))
  }

  function StepOn(s: State, e: Event): (s': State)
    requires WellFormed(s)
    ensures WellFormed(s')
  {
    match e
    case HomeBound(home) =>
      s.(queue := s.queue.(home := Some(home)), policies := s.policies.(home := Some(home)), log := s.log + [In(e)])
    case DongleInfo(id) => s.(controller := Some(id), log := s.log + [In(e)])
    case BehaviorConfig(auto) => s.(autoLifeline := auto, log := s.log + [In(e)])
    case DevicePolicySet(device, policy) =>
      s.(policies := WithDevicePolicy(s.policies, device, policy), log := s.log + [In(e)])
    case _ => React(Noted(s, e), e)
  }

  function RunFrom(s: State, events: seq<Event>): (s': State)
    requires WellFormed(s)
    ensures WellFormed(s')
    decreases |events|
  {
    if events == [] then s else StepOn(RunFrom(s, events[..|events| - 1]), events[|events| - 1])
  }

  /** A run from the start, for either order of the bus and with or without a database. */
  function Run(inclusionFirst: bool, dbValid: bool, events: seq<Event>): (s: State)
    ensures WellFormed(s)
  {
    RunFrom(Init(inclusionFirst, dbValid), events)
  }

  // ---- The reactors as objects on the bus --------------------------------------------------------

  lemma {:induction false} OutsConcat(n: Node, a: seq<Action>, b: seq<Action>)
    ensures Outs(n, a + b) == Outs(n, a) + Outs(n, b)
    ensures Outs(n, []) == []
  {}

  lemma {:induction false} OutsOne(n: Node, a: Action)
    ensures Outs(n, [a]) == [Out(n, a)]
  {}

  class Reactors {
    const inclusionFirst: bool
    var sessions: map<Node, Session>
    var pendingPolicy: map<Node, SupportedCcs>
    var controllerNodeId: Option<Byte>
    var autoLifeline: bool
    const queue: Queue
    const register: Register
    var log: seq<LogEntry>

    ghost function Snapshot(): State
      reads this, queue, register
    {
      State(inclusionFirst, sessions, pendingPolicy, controllerNodeId, autoLifeline,
            queue.Value(), register.Value(), log)
    }

    constructor (inclusionFirst: bool, queue: Queue, register: Register)
      requires queue.Valid()
      ensures this.queue == queue && this.register == register
      ensures Snapshot() == Init(inclusionFirst, queue.dbValid).(queue := queue.Value(), policies := register.Value())
    {
      this.inclusionFirst := inclusionFirst;
      this.queue := queue;
      this.register := register;
      sessions, pendingPolicy, controllerNodeId, autoLifeline, log := map[], map[], None, true, [];
    }

    method Publish(n: Node, action: Action)
      modifies this`log
      ensures log == old(log) + [Out(n, action)]
    {
      log := log + [Out(n, action)];
    }

    /** Starts the requests: the first one live, or all of them through the queue of a sleeping node. */
    method BeginInterview(n: Node)
      requires n in sessions && sessions[n].steps != [] && queue.Valid()
      modifies this`sessions, this`log, queue
      ensures queue.Valid()
      ensures var t := old(sessions)[n];
              && sessions == old(sessions)[n := Begun(t)]
              && log == old(log) + Outs(n, BeginActions(t))
              && queue.Value() == BeginQueue(t, old(queue.Value()), n)
    {
      var t := sessions[n];
      sessions := sessions[n := t.(started := true, index := 0)];
      if t.viaQueue {
        OutsConcat(n, [], []);
        for i := 0 to |t.steps|
          invariant log == old(log) + Outs(n, QueueGets(t.steps)[..i])
          invariant queue.Valid() && queue.Value() == AddedAll(old(queue.Value()), n, GetItems(t.steps)[..i])
          invariant sessions == old(sessions)[n := Begun(t)]
        {
          queue.Enqueue(n, PayloadFor(t.steps[i]), PRIORITY_NORMAL);
          assert GetItems(t.steps)[..i + 1][..i] == GetItems(t.steps)[..i];
          Publish(n, QueueGet(t.steps[i]));
          assert QueueGets(t.steps)[..i + 1] == QueueGets(t.steps)[..i] + [QueueGet(t.steps[i])];
          OutsConcat(n, QueueGets(t.steps)[..i], [QueueGet(t.steps[i])]);
          OutsOne(n, QueueGet(t.steps[i]));
        }
        assert QueueGets(t.steps)[..|t.steps|] == QueueGets(t.steps);
        assert GetItems(t.steps)[..|t.steps|] == GetItems(t.steps);
        return;
      }
      Publish(n, Get(t.steps[0]));
      OutsOne(n, Get(t.steps[0]));
    }

    method InterviewNodeIncluded(n: Node, ccs: seq<Byte>)
      requires queue.Valid()
      modifies this`sessions, this`log, queue
      ensures queue.Valid()
      ensures var t := Session(StepsFor(ccs), 0, false, IsSleeping(ccs));
              && sessions == old(sessions)[n := if IsSecure(ccs) then t else Begun(t)]
              && log == old(log) + Outs(n, if IsSecure(ccs) then [] else BeginActions(t))
              && queue.Value() == if IsSecure(ccs) then old(queue.Value()) else BeginQueue(t, old(queue.Value()), n)
    {
      var steps := [ManufacturerSpecific, Version];
      if CC_MULTI_CHANNEL in ccs {
        steps := steps + [Endpoints];
      }
      if CC_ZWAVEPLUS_INFO in ccs {
        steps := steps + [ZWavePlus];
      }
      assert steps == StepsFor(ccs);
      sessions := sessions[n := Session(steps, 0, false, CC_WAKE_UP in ccs)];
      if IsSecure(ccs) {
        OutsConcat(n, [], []);
        return;
      }
      BeginInterview(n);
    }

    method InclusionNodeIncluded(n: Node, ccs: seq<Byte>)
      modifies this`pendingPolicy, this`log
      ensures pendingPolicy == old(pendingPolicy)[n := Scan(ccs)]
      ensures log == old(log) + Outs(n, LifelineActions(Scan(ccs), autoLifeline, controllerNodeId))
    {
      var supported := ScanSupported(ccs);
      OutsConcat(n, [], []);
      if supported.association && autoLifeline {
        if controllerNodeId.Some? {
          var lifeline := SetPolicy(Association(LIFELINE_GROUP_ID, [controllerNodeId.value]));
          Publish(n, lifeline);
          Publish(n, LifelineSet);
          assert [lifeline] + [LifelineSet] == [lifeline, LifelineSet];
          OutsConcat(n, [lifeline], [LifelineSet]);
          OutsOne(n, lifeline);
          OutsOne(n, LifelineSet);
        } else {
          Publish(n, LifelineSkipped);
          OutsOne(n, LifelineSkipped);
        }
      }
      pendingPolicy := pendingPolicy[n := supported];
    }

    method OnNodeIncluded(n: Node, ccs: seq<Byte>)
      requires WellFormed(Snapshot())
      modifies this, queue
      ensures Snapshot() == StepOn(old(Snapshot()), NodeIncluded(n, ccs))
    {
      log := log + [In(NodeIncluded(n, ccs))];
      ghost var interview :=
        if IsSecure(ccs) then [] else BeginActions(Session(StepsFor(ccs), 0, false, IsSleeping(ccs)));
      ghost var lifeline := LifelineActions(Scan(ccs), autoLifeline, controllerNodeId);
      OutsConcat(n, interview, lifeline);
      OutsConcat(n, lifeline, interview);
      ConcatAssociative(log, Outs(n, interview), Outs(n, lifeline));
      ConcatAssociative(log, Outs(n, lifeline), Outs(n, interview));
      if inclusionFirst {
        InclusionNodeIncluded(n, ccs);
        InterviewNodeIncluded(n, ccs);
      } else {
        InterviewNodeIncluded(n, ccs);
        InclusionNodeIncluded(n, ccs);
      }
    }

    method OnNodeSecurityStatus(n: Node, scheme: Byte)
      requires WellFormed(Snapshot())
      modifies this, queue
      ensures Snapshot() == StepOn(old(Snapshot()), SecurityStatus(n, scheme))
    {
      log := log + [In(SecurityStatus(n, scheme))];
      assert Update(sessions, n, Fetch(sessions, n)) == sessions;
      assert Update(pendingPolicy, n, Fetch(pendingPolicy, n)) == pendingPolicy;
      OutsConcat(n, [], []);
      if scheme == 0 {
        return;
      }
      if n in sessions && !sessions[n].started {
        BeginInterview(n);
      }
    }

    /** Publishes the set command of one entry if the node supports its class. */
    method ApplyPolicyEntry(n: Node, supported: SupportedCcs, entry: Entry) returns (applied: bool)
      modifies this`log
      ensures applied == IsSupported(supported, entry)
      ensures log == old(log) + if applied then [Out(n, SetPolicy(Resolved(entry, controllerNodeId)))] else []
    {
      match entry {
        case Configuration(_, _, _, _) =>
          if !supported.configuration {
            return false;
          }
          Publish(n, SetPolicy(entry));
          return true;
        case Association(_, _) =>
          if !supported.association {
            return false;
          }
          Publish(n, SetPolicy(entry));
          return true;
        case WakeUp(interval, notify) =>
          if !supported.wakeUp {
            return false;
          }
          var target := if notify != 0 then notify else if controllerNodeId.Some? then controllerNodeId.value else 0;
          Publish(n, SetPolicy(WakeUp(interval, target)));
          return true;
      }
    }

    /** Applies the entries one by one and counts those that went out. */
    method ApplyPolicy(n: Node, supported: SupportedCcs, policy: seq<Entry>) returns (entriesApplied: nat)
      modifies this`log
      ensures entriesApplied == |Gated(policy, supported, controllerNodeId)|
      ensures log == old(log) + Outs(n, Gated(policy, supported, controllerNodeId))
    {
      entriesApplied := 0;
      OutsConcat(n, [], []);
      for i := 0 to |policy|
        invariant log == old(log) + Outs(n, Gated(policy[..i], supported, controllerNodeId))
        invariant entriesApplied == |Gated(policy[..i], supported, controllerNodeId)|
      {
        ghost var before := Gated(policy[..i], supported, controllerNodeId);
        assert policy[..i + 1][..i] == policy[..i];
        var applied := ApplyPolicyEntry(n, supported, policy[i]);
        if applied {
          OutsConcat(n, before, [SetPolicy(Resolved(policy[i], controllerNodeId))]);
          OutsOne(n, SetPolicy(Resolved(policy[i], controllerNodeId)));
          entriesApplied := entriesApplied + 1;
        }
      }
      assert policy[..|policy|] == policy;
    }

    method OnNodeInterviewComplete(n: Node)
      modifies this`pendingPolicy, this`log
      ensures pendingPolicy == old(pendingPolicy) - {n}
      ensures log == old(log)
                     + Outs(n, PolicyActions(InForce(register.Value(), n), CachedOrNone(Fetch(old(pendingPolicy), n)),
                                             controllerNodeId))
    {
      var supported := SupportedCcs(false, false, false);
      if n in pendingPolicy {
        supported := pendingPolicy[n];
        pendingPolicy := pendingPolicy - {n};
      }
      assert pendingPolicy == old(pendingPolicy) - {n};
      var policy := register.EffectivePolicy(n);
      var entriesApplied := ApplyPolicy(n, supported, policy);
      Publish(n, PolicyApplied(entriesApplied));
      Publish(n, InclusionComplete);
      ghost var close := [PolicyApplied(entriesApplied), InclusionComplete];
      OutsConcat(n, Gated(policy, supported, controllerNodeId), close);
      assert Outs(n, close) == [Out(n, PolicyApplied(entriesApplied)), Out(n, InclusionComplete)];
      ConcatAssociative(old(log), Outs(n, Gated(policy, supported, controllerNodeId)), Outs(n, close));
    }

    /** A report reaches the register, if it identifies the device, and then the interview. */
    method OnReport(n: Node, step: Step, device: DeviceId)
      requires WellFormed(Snapshot())
      modifies this, register
      ensures Snapshot() == StepOn(old(Snapshot()), Report(n, step, device))
    {
      if step == ManufacturerSpecific {
        register.NoteDeviceIdentity(n, device);
      }
      Advance(n, step, device);
    }

    /** The announcement of a completed interview, with the policy step inside it. */
    method CompleteInterview(n: Node)
      modifies this`sessions, this`pendingPolicy, this`log
      ensures sessions == old(sessions) - {n} && pendingPolicy == old(pendingPolicy) - {n}
      ensures log == old(log) + Outs(n, [InterviewComplete]
                                        + PolicyActions(InForce(register.Value(), n),
                                                        CachedOrNone(Fetch(old(pendingPolicy), n)), controllerNodeId))
    {
      ghost var tail :=
        PolicyActions(InForce(register.Value(), n), CachedOrNone(Fetch(pendingPolicy, n)), controllerNodeId);
      ConcatAssociative(log, [Out(n, InterviewComplete)], Outs(n, tail));
      OutsConcat(n, [InterviewComplete], tail);
      OutsOne(n, InterviewComplete);
      Publish(n, InterviewComplete);
      OnNodeInterviewComplete(n);
      sessions := sessions - {n};
    }

    /** The awaited report has come: ask for the next step, or complete the interview. */
    method MoveOn(n: Node)
      requires n in sessions && sessions[n].index < |sessions[n].steps|
      modifies this`sessions, this`pendingPolicy, this`log
      ensures var f := ReportEffect(old(Snapshot()), n);
              && sessions == Update(old(sessions), n, f.session)
              && pendingPolicy == Update(old(pendingPolicy), n, f.pending)
              && log == old(log) + Outs(n, f.actions)
    {
      assert Update(pendingPolicy, n, Fetch(pendingPolicy, n)) == pendingPolicy;
      OutsConcat(n, [], []);
      var t := sessions[n].(index := sessions[n].index + 1);
      sessions := sessions[n := t];
      if t.index >= |t.steps| {
        CompleteInterview(n);
        assert sessions == old(sessions) - {n};
        return;
      }
      if !t.viaQueue {
        Publish(n, Get(t.steps[t.index]));
        OutsOne(n, Get(t.steps[t.index]));
      }
    }

    /** A report; the policy step runs inside the announcement, before the session is closed. */
    method Advance(n: Node, completed: Step, device: DeviceId)
      requires WellFormed(Snapshot())
      modifies this
      ensures Snapshot() == React(old(Snapshot()), Report(n, completed, device))
    {
      log := log + [In(Report(n, completed, device))];
      assert Update(sessions, n, Fetch(sessions, n)) == sessions;
      assert Update(pendingPolicy, n, Fetch(pendingPolicy, n)) == pendingPolicy;
      OutsConcat(n, [], []);
      if n !in sessions {
        return;
      }
      var t := sessions[n];
      if !t.started || t.index >= |t.steps| || t.steps[t.index] != completed {
        return;
      }
      MoveOn(n);
    }

    method OnWakeUpNotification(n: Node)
      requires WellFormed(Snapshot())
      modifies this, queue
      ensures Snapshot() == StepOn(old(Snapshot()), WakeUpNotification(n))
    {
      log := log + [In(WakeUpNotification(n))];
      assert Update(sessions, n, Fetch(sessions, n)) == sessions;
      assert Update(pendingPolicy, n, Fetch(pendingPolicy, n)) == pendingPolicy;
      var payloads := queue.Drain(n);
      ReplayAndClose(n, payloads);
    }

    /** Sends what was drained, then lets the node sleep again and reports the cycle. */
    method ReplayAndClose(n: Node, payloads: seq<seq<Byte>>)
      modifies this`log
      ensures log == old(log) + Outs(n, Sends(payloads) + [NoMoreInformation, WakeUpCycleComplete(|payloads|)])
    {
      SendAll(n, payloads);
      Publish(n, NoMoreInformation);
      Publish(n, WakeUpCycleComplete(|payloads|));
      ghost var close := [NoMoreInformation, WakeUpCycleComplete(|payloads|)];
      OutsConcat(n, Sends(payloads), close);
      assert Outs(n, close) == [Out(n, NoMoreInformation), Out(n, WakeUpCycleComplete(|payloads|))];
      ConcatAssociative(old(log), Outs(n, Sends(payloads)), Outs(n, close));
    }

    /** Replays drained payloads one by one. */
    method SendAll(n: Node, payloads: seq<seq<Byte>>)
      modifies this`log
      ensures log == old(log) + Outs(n, Sends(payloads))
    {
      OutsConcat(n, [], []);
      for i := 0 to |payloads|
        invariant log == old(log) + Outs(n, Sends(payloads)[..i])
      {
        Publish(n, SendData(payloads[i]));
        assert Sends(payloads)[..i + 1] == Sends(payloads)[..i] + [SendData(payloads[i])];
        OutsConcat(n, Sends(payloads)[..i], [SendData(payloads[i])]);
        OutsOne(n, SendData(payloads[i]));
      }
      assert Sends(payloads)[..|payloads|] == Sends(payloads);
    }

    /** Another component queues a command for a sleeping node. */
    method QueueCommand(n: Node, item: Item)
      requires WellFormed(Snapshot())
      modifies this, queue
      ensures Snapshot() == StepOn(old(Snapshot()), CommandQueued(n, item))
    {
      log := log + [In(CommandQueued(n, item))];
      assert Update(sessions, n, Fetch(sessions, n)) == sessions;
      assert Update(pendingPolicy, n, Fetch(pendingPolicy, n)) == pendingPolicy;
      queue.Enqueue(n, item.payload, item.priority);
    }

    method ClearQueue(n: Node)
      requires WellFormed(Snapshot())
      modifies this, queue
      ensures Snapshot() == StepOn(old(Snapshot()), QueueCleared(n))
    {
      log := log + [In(QueueCleared(n))];
      assert Update(sessions, n, Fetch(sessions, n)) == sessions;
      assert Update(pendingPolicy, n, Fetch(pendingPolicy, n)) == pendingPolicy;
      queue.ClearForNode(n);
    }

    method SetOverride(n: Node, policy: seq<Entry>)
      requires WellFormed(Snapshot())
      modifies this, register
      ensures Snapshot() == StepOn(old(Snapshot()), OverrideSet(n, policy))
    {
      log := log + [In(OverrideSet(n, policy))];
      assert Update(sessions, n, Fetch(sessions, n)) == sessions;
      assert Update(pendingPolicy, n, Fetch(pendingPolicy, n)) == pendingPolicy;
      register.SetNodeOverride(n, policy);
    }

    method DeleteOverride(n: Node)
      requires WellFormed(Snapshot())
      modifies this, register
      ensures Snapshot() == StepOn(old(Snapshot()), OverrideDeleted(n))
    {
      log := log + [In(OverrideDeleted(n))];
      assert Update(sessions, n, Fetch(sessions, n)) == sessions;
      assert Update(pendingPolicy, n, Fetch(pendingPolicy, n)) == pendingPolicy;
      register.DeleteNodeOverride(n);
    }

    method SetDeviceDefault(device: DeviceId, policy: seq<Entry>)
      requires WellFormed(Snapshot())
      modifies this, register
      ensures Snapshot() == StepOn(old(Snapshot()), DevicePolicySet(device, policy))
    {
      log := log + [In(DevicePolicySet(device, policy))];
      register.SetDevicePolicy(device, policy);
    }

    /** The dongle's home id reaches the queue and the register together. */
    method BindHome(home: Home)
      requires WellFormed(Snapshot())
      modifies this, queue, register
      ensures Snapshot() == StepOn(old(Snapshot()), HomeBound(home))
    {
      log := log + [In(HomeBound(home))];
      queue.SetHomeId(home);
      register.SetHomeId(home);
    }

    method OnBehaviorConfig(auto: bool)
      requires WellFormed(Snapshot())
      modifies this, queue
      ensures Snapshot() == StepOn(old(Snapshot()), BehaviorConfig(auto))
    {
      log := log + [In(BehaviorConfig(auto))];
      autoLifeline := auto;
    }

    method OnDongleInfo(controller: Byte)
      requires WellFormed(Snapshot())
      modifies this, queue
      ensures Snapshot() == StepOn(old(Snapshot()), DongleInfo(controller))
    {
      log := log + [In(DongleInfo(controller))];
      controllerNodeId := Some(controller);
    }
  }
}
