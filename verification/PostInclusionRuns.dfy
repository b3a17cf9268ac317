/** What every run of the post-inclusion reactors guarantees, whichever of them the bus calls first. */
module PostInclusionRuns {
  import opened Bytes
  import opened Policy
  import opened PolicyRegister
  import opened PostInclusion

  // ---- Progress of an interview, defined on the reports alone -------------------------------------

  /** Is `a` obtained from `b` by leaving elements out? */
  ghost predicate IsSubsequence(a: seq<Step>, b: seq<Step>)
    decreases |b|
  {
    if a == [] then true
    else if b == [] then false
    else
      || (a[|a| - 1] == b[|b| - 1] && IsSubsequence(a[..|a| - 1], b[..|b| - 1]))
      || IsSubsequence(a, b[..|b| - 1])
  }

  /** How many steps are answered when each report can only answer the step at hand. */
  function Answered(steps: seq<Step>, reports: seq<Step>): (k: nat)
    ensures k <= |steps|
    decreases |reports|
  {
    if reports == [] then 0
    else
      var k := Answered(steps, reports[..|reports| - 1]);
      if k < |steps| && steps[k] == reports[|reports| - 1] then k + 1 else k
  }

  /** Taking reports as they come answers as many steps as any choice of reports could. */
  lemma {:induction false} AnsweredIsLongest(steps: seq<Step>, reports: seq<Step>, j: nat)
    requires j <= |steps|
    ensures IsSubsequence(steps[..j], reports) <==> j <= Answered(steps, reports)
    decreases |reports|
  {
    if reports != [] && j > 0 {
      var n := |reports| - 1;
      AnsweredIsLongest(steps, reports[..n], j);
      AnsweredIsLongest(steps, reports[..n], j - 1);
      assert steps[..j][..j - 1] == steps[..j - 1];
    }
  }

  // ---- What can be read off the log for one node --------------------------------------------------

  /** Since the last inclusion of the node: its classes, the reports that count, and what was emitted. */
  datatype Watch = Watch(
    included: bool, ccs: seq<Byte>, started: bool, reports: seq<Step>,
    gets: seq<Step>, queued: seq<Step>, completions: nat)

  const UNSEEN := Watch(false, [], false, [], [], [], 0)

  function SeeIn(w: Watch, e: Event, n: Node): Watch {
    match e
    case NodeIncluded(m, ccs) => if m == n then Watch(true, ccs, 0x98 !in ccs && 0x9F !in ccs, [], [], [], 0) else w
    case SecurityStatus(m, scheme) => if m == n && w.included && scheme != 0 then w.(started := true) else w
    case Report(m, step, _) => if m == n && w.started then w.(reports := w.reports + [step]) else w
    case _ => w
  }

  function SeeOut(w: Watch, a: Action): Watch {
    match a
    case Get(step) => w.(gets := w.gets + [step])
    case QueueGet(step) => w.(queued := w.queued + [step])
    case InterviewComplete => w.(completions := w.completions + 1)
    case _ => w
  }

  function WatchLog(log: seq<LogEntry>, n: Node): Watch
    decreases |log|
  {
    if log == [] then UNSEEN
    else
      var w, x := WatchLog(log[..|log| - 1], n), log[|log| - 1];
      if x.In? then SeeIn(w, x.event, n) else if x.node == n then SeeOut(w, x.action) else w
  }

  function ControllerIn(log: seq<LogEntry>): Option<Byte>
    decreases |log|
  {
    if log == [] then None
    else
      var x := log[|log| - 1];
      if x.In? && x.event.DongleInfo? then Some(x.event.controller) else ControllerIn(log[..|log| - 1])
  }

  /** What the register holds after an input. */
  function PoliciesAfter(p: Policies, e: Event): Policies {
    match e
    case Report(n, ManufacturerSpecific, device) => WithIdentity(p, n, device)
    case OverrideSet(n, policy) => WithOverride(p, n, policy)
    case OverrideDeleted(n) => WithoutOverride(p, n)
    case DevicePolicySet(device, policy) => WithDevicePolicy(p, device, policy)
    case HomeBound(home) => p.(home := Some(home))
    case _ => p
  }

  /** What the register holds after all the inputs of a log. */
  function PoliciesIn(dbValid: bool, log: seq<LogEntry>): Policies
    decreases |log|
  {
    if log == [] then NoPolicies(dbValid)
    else
      var before, x := PoliciesIn(dbValid, log[..|log| - 1]), log[|log| - 1];
      if x.In? then PoliciesAfter(before, x.event) else before
  }

  /**
   * The exact state of an interview: live requests are the steps in order up to the one being answered,
   * a sleeping node's requests are queued all at once, completion is announced once, when the steps are
   * a subsequence of the reports, and never for a node that has not started. A node sleeps if it announces
   * class 0x84, and starts only once it is secure if it announces 0x98 or 0x9F.
   */
  ghost predicate Exact(w: Watch) {
    var steps := StepsFor(w.ccs);
    var k := Answered(steps, w.reports);
    && w.gets == (if !w.started || 0x84 in w.ccs then [] else if k < |steps| then steps[..k + 1] else steps)
    && w.queued == (if w.started && 0x84 in w.ccs then steps else [])
    && w.completions == (if k == |steps| then 1 else 0)
    && (!w.started ==> w.reports == [])
  }

  /** How the log's view of a node relates to its session and its cached classes. */
  ghost predicate NodeOk(w: Watch, t: Option<Session>, p: Option<SupportedCcs>) {
    if !w.included then w == UNSEEN && t.None?
    else
      var steps := StepsFor(w.ccs);
      var k := Answered(steps, w.reports);
      && Exact(w)
      && (t.Some? <==> k < |steps|)
      && (t.Some? ==> t.value == Session(steps, k, w.started, IsSleeping(w.ccs)) && p == Some(Scan(w.ccs)))
  }

  ghost predicate NodeInv(s: State, n: Node) {
    NodeOk(WatchLog(s.log, n), Fetch(s.sessions, n), Fetch(s.pendingPolicy, n))
  }

  /**
   * A completed interview answers a report, after the node's ManufacturerSpecific report, and is followed at
   * once by the policy step: the policy then in force, gated by the classes of that inclusion.
   */
  ghost predicate FollowedByPolicy(dbValid: bool, log: seq<LogEntry>, i: nat)
    requires i < |log| && log[i].Out?
  {
    var n, before := log[i].node, log[..i];
    var w := WatchLog(before, n);
    var expected := Outs(n, PolicyActions(InForce(PoliciesIn(dbValid, before), n), Scan(w.ccs), ControllerIn(before)));
    && 0 < i && log[i - 1].In? && log[i - 1].event.Report? && log[i - 1].event.node == n
    && w.included && ManufacturerSpecific in w.reports
    && i + 1 + |expected| <= |log| && log[i + 1..i + 1 + |expected|] == expected
  }

  ghost predicate PoliciesFollow(dbValid: bool, log: seq<LogEntry>) {
    forall i :: 0 <= i < |log| && log[i].Out? && log[i].action.InterviewComplete? ==> FollowedByPolicy(dbValid, log, i)
  }

  ghost predicate Inv(dbValid: bool, s: State) {
    && WellFormed(s)
    && PoliciesFollow(dbValid, s.log)
    && ControllerIn(s.log) == s.controller
    && s.policies == PoliciesIn(dbValid, s.log)
    && forall n: Node :: NodeInv(s, n)
  }

  // ---- Reading the log after one more input ------------------------------------------------------

  function After(log: seq<LogEntry>, e: Event, n: Node, actions: seq<Action>): seq<LogEntry> {
    log + [In(e)] + Outs(n, actions)
  }

  function SeeAll(w: Watch, actions: seq<Action>): Watch
    decreases |actions|
  {
    if actions == [] then w else SeeOut(SeeAll(w, actions[..|actions| - 1]), actions[|actions| - 1])
  }

  lemma {:induction false} AfterGrows(log: seq<LogEntry>, e: Event, n: Node, actions: seq<Action>)
    ensures actions == [] ==> After(log, e, n, actions) == log + [In(e)]
    ensures actions != [] ==>
              After(log, e, n, actions) ==
              After(log, e, n, actions[..|actions| - 1]) + [Out(n, actions[|actions| - 1])]
  {}

  lemma {:induction false} WatchAppend(log: seq<LogEntry>, x: LogEntry, n: Node)
    ensures WatchLog(log + [x], n) ==
            if x.In? then SeeIn(WatchLog(log, n), x.event, n)
            else if x.node == n then SeeOut(WatchLog(log, n), x.action) else WatchLog(log, n)
    ensures ControllerIn(log + [x]) ==
            if x.In? && x.event.DongleInfo? then Some(x.event.controller) else ControllerIn(log)
  {
    assert (log + [x])[..|log|] == log;
  }

  lemma {:induction false} WatchAfter(log: seq<LogEntry>, e: Event, n: Node, actions: seq<Action>, m: Node)
    ensures WatchLog(After(log, e, n, actions), m) ==
            if m == n then SeeAll(SeeIn(WatchLog(log, m), e, m), actions) else SeeIn(WatchLog(log, m), e, m)
    ensures !e.DongleInfo? ==> ControllerIn(After(log, e, n, actions)) == ControllerIn(log)
    decreases |actions|
  {
    AfterGrows(log, e, n, actions);
    if actions == [] {
      WatchAppend(log, In(e), m);
    } else {
      var k := |actions| - 1;
      WatchAfter(log, e, n, actions[..k], m);
      WatchAppend(After(log, e, n, actions[..k]), Out(n, actions[k]), m);
    }
  }

  lemma {:induction false} SeeAllConcat(w: Watch, a: seq<Action>, b: seq<Action>)
    ensures SeeAll(w, a + b) == SeeAll(SeeAll(w, a), b)
    decreases |b|
  {
    if b == [] {
      assert a + b == a;
    } else {
      var k := |b| - 1;
      assert (a + b)[..|a + b| - 1] == a + b[..k];
      SeeAllConcat(w, a, b[..k]);
    }
  }

  predicate Neutral(a: Action) {
    !a.Get? && !a.QueueGet? && !a.InterviewComplete?
  }

  lemma {:induction false} NeutralChangesNothing(w: Watch, actions: seq<Action>)
    requires forall a :: a in actions ==> Neutral(a)
    ensures SeeAll(w, actions) == w
    decreases |actions|
  {
    if actions != [] {
      assert Neutral(actions[|actions| - 1]);
      NeutralChangesNothing(w, actions[..|actions| - 1]);
    }
  }

  lemma {:induction false} SeeQueueGets(w: Watch, steps: seq<Step>)
    ensures SeeAll(w, QueueGets(steps)) == w.(queued := w.queued + steps)
    decreases |steps|
  {
    if steps != [] {
      var k := |steps| - 1;
      assert QueueGets(steps)[..k] == QueueGets(steps[..k]);
      SeeQueueGets(w, steps[..k]);
      assert w.queued + steps == w.queued + steps[..k] + [steps[k]];
    } else {
      assert w.queued + [] == w.queued;
    }
  }

  lemma {:induction false} SeeOne(w: Watch, a: Action)
    ensures SeeAll(w, [a]) == SeeOut(w, a)
  {
    assert [a][..0] == [];
  }

  lemma {:induction false} GatedIsNeutral(policy: seq<Entry>, supported: SupportedCcs, controller: Option<Byte>)
    ensures forall a :: a in Gated(policy, supported, controller) ==> Neutral(a)
    decreases |policy|
  {
    if policy != [] {
      GatedIsNeutral(policy[..|policy| - 1], supported, controller);
    }
  }

  lemma {:induction false} PolicyIsNeutral(policy: seq<Entry>, supported: SupportedCcs, controller: Option<Byte>)
    ensures var tail := PolicyActions(policy, supported, controller);
            && (forall a :: a in tail ==> Neutral(a))
            && forall j :: 0 <= j < |tail| ==> !tail[j].InterviewComplete?
  {
    GatedIsNeutral(policy, supported, controller);
    var tail := PolicyActions(policy, supported, controller);
    assert forall j :: 0 <= j < |tail| ==> tail[j] in tail;
  }

  // ---- Each kind of input keeps the node's invariant ----------------------------------------------

  lemma {:induction false} SeeBegin(w: Watch, t: Session)
    requires t.steps != []
    ensures SeeAll(w, BeginActions(t)) ==
            if t.viaQueue then w.(queued := w.queued + t.steps) else w.(gets := w.gets + [t.steps[0]])
  {
    if t.viaQueue {
      SeeQueueGets(w, t.steps);
    } else {
      SeeOne(w, Get(t.steps[0]));
    }
  }

  /** The requests that open an interview bring the view of a node that has just started up to date. */
  lemma {:induction false} BeginIsExact(w: Watch, t: Session)
    requires w.included && w.started && w.reports == [] && w.gets == [] && w.queued == [] && w.completions == 0
    requires t.steps == StepsFor(w.ccs) && t.viaQueue == IsSleeping(w.ccs)
    ensures NodeOk(SeeAll(w, BeginActions(t)), Some(Begun(t)), Some(Scan(w.ccs)))
    ensures SeeAll(w, BeginActions(t)).included
  {
    SeeBegin(w, t);
    assert Answered(t.steps, []) == 0;
    if t.viaQueue {
      assert SeeAll(w, BeginActions(t)).queued == t.steps;
    } else {
      assert SeeAll(w, BeginActions(t)).gets == [t.steps[0]] == t.steps[..1];
    }
  }

  lemma {:induction false} LifelineIsNeutral(supported: SupportedCcs, autoLifeline: bool, controller: Option<Byte>)
    ensures forall a :: a in LifelineActions(supported, autoLifeline, controller) ==> Neutral(a)
  {}

  lemma {:induction false} IncludedIsExact(s: State, n: Node, ccs: seq<Byte>)
    ensures var f, w := IncludedEffect(s, n, ccs), Watch(true, ccs, !IsSecure(ccs), [], [], [], 0);
            NodeOk(SeeAll(w, f.actions), f.session, f.pending)
  {
    var t := Session(StepsFor(ccs), 0, false, IsSleeping(ccs));
    var w := Watch(true, ccs, !IsSecure(ccs), [], [], [], 0);
    var interview := if IsSecure(ccs) then [] else BeginActions(t);
    var lifeline := LifelineActions(Scan(ccs), s.autoLifeline, s.controller);
    LifelineIsNeutral(Scan(ccs), s.autoLifeline, s.controller);
    NeutralChangesNothing(w, lifeline);
    NeutralChangesNothing(SeeAll(w, interview), lifeline);
    SeeAllConcat(w, lifeline, interview);
    SeeAllConcat(w, interview, lifeline);
    if IsSecure(ccs) {
      assert Answered(t.steps, []) == 0;
    } else {
      BeginIsExact(w, t);
    }
  }

  /** A session whose view is exact and which awaits `step`. */
  ghost predicate AwaitsExactly(w: Watch, t: Session, step: Step) {
    && w.included && NodeOk(w, Some(t), Some(Scan(w.ccs)))
    && t.started && t.index < |t.steps| && t.steps[t.index] == step
  }

  /** The requests of an interview that has come one step further. */
  lemma {:induction false} NextIsExact(v: Watch, k: nat)
    requires v.included && v.started && v.completions == 0
    requires k + 1 < |StepsFor(v.ccs)| && Answered(StepsFor(v.ccs), v.reports) == k + 1
    requires v.gets == if IsSleeping(v.ccs) then [] else StepsFor(v.ccs)[..k + 2]
    requires v.queued == if IsSleeping(v.ccs) then StepsFor(v.ccs) else []
    ensures NodeOk(v, Some(Session(StepsFor(v.ccs), k + 1, true, IsSleeping(v.ccs))), Some(Scan(v.ccs)))
  {}

  lemma {:induction false} NextReportIsExact(w: Watch, t: Session, step: Step)
    requires AwaitsExactly(w, t, step) && t.index + 1 < |t.steps|
    ensures NodeOk(SeeAll(w.(reports := w.reports + [step]), if t.viaQueue then [] else [Get(t.steps[t.index + 1])]),
                   Some(t.(index := t.index + 1)), Some(Scan(w.ccs)))
  {
    var v := w.(reports := w.reports + [step]);
    AnsweredNext(t.steps, w.reports, step);
    if t.viaQueue {
      assert SeeAll(v, []) == v;
      NextIsExact(v, t.index);
    } else {
      var u := v.(gets := v.gets + [t.steps[t.index + 1]]);
      SeeOne(v, Get(t.steps[t.index + 1]));
      assert t.steps[..t.index + 2] == t.steps[..t.index + 1] + [t.steps[t.index + 1]];
      NextIsExact(u, t.index);
    }
  }

  lemma {:induction false} LastIsExact(v: Watch)
    requires v.included && v.started && v.completions == 1
    requires Answered(StepsFor(v.ccs), v.reports) == |StepsFor(v.ccs)|
    requires v.gets == if IsSleeping(v.ccs) then [] else StepsFor(v.ccs)
    requires v.queued == if IsSleeping(v.ccs) then StepsFor(v.ccs) else []
    ensures NodeOk(v, None, None)
  {}

  lemma {:induction false} LastReportIsExact(w: Watch, t: Session, step: Step, tail: seq<Action>)
    requires AwaitsExactly(w, t, step) && t.index + 1 == |t.steps|
    requires forall a :: a in tail ==> Neutral(a)
    ensures NodeOk(SeeAll(w.(reports := w.reports + [step]), [InterviewComplete] + tail), None, None)
  {
    var v := w.(reports := w.reports + [step]);
    AnsweredNext(t.steps, w.reports, step);
    CompletionIsSeen(v, tail);
    assert t.steps[..t.index + 1] == t.steps;
    LastIsExact(v.(completions := v.completions + 1));
  }

  lemma {:induction false} CompletionIsSeen(v: Watch, tail: seq<Action>)
    requires forall a :: a in tail ==> Neutral(a)
    ensures SeeAll(v, [InterviewComplete] + tail) == v.(completions := v.completions + 1)
  {
    SeeAllConcat(v, [InterviewComplete], tail);
    SeeOne(v, InterviewComplete);
    NeutralChangesNothing(v.(completions := v.completions + 1), tail);
  }

  lemma {:induction false} ReportIsExact(w: Watch, s: State, n: Node, step: Step)
    requires n in s.sessions && AwaitsExactly(w, s.sessions[n], step)
    requires Fetch(s.pendingPolicy, n) == Some(Scan(w.ccs))
    ensures var f := ReportEffect(s, n);
            NodeOk(SeeAll(w.(reports := w.reports + [step]), f.actions), f.session, f.pending)
  {
    var t := s.sessions[n];
    if t.index + 1 < |t.steps| {
      NextReportIsExact(w, t, step);
    } else {
      PolicyIsNeutral(InForce(s.policies, n), Scan(w.ccs), s.controller);
      LastReportIsExact(w, t, step, PolicyActions(InForce(s.policies, n), Scan(w.ccs), s.controller));
    }
  }

  lemma {:induction false} AnsweredNext(steps: seq<Step>, reports: seq<Step>, step: Step)
    ensures var k := Answered(steps, reports);
            Answered(steps, reports + [step]) == if k < |steps| && steps[k] == step then k + 1 else k
  {
    assert (reports + [step])[..|reports|] == reports;
  }

  lemma {:induction false} NodeAfter(s: State, e: Event, n: Node, f: Effect)
    requires NodeOk(SeeAll(SeeIn(WatchLog(s.log, n), e, n), f.actions), f.session, f.pending)
    ensures NodeInv(Apply(s, e, n, f), n)
  {
    WatchAfter(s.log, e, n, f.actions, n);
  }

  lemma {:induction false} SecuredIsExact(s: State, e: Event, w: Watch)
    requires WellFormed(s) && e.SecurityStatus? && NodeOk(w, Fetch(s.sessions, e.node), Fetch(s.pendingPolicy, e.node))
    ensures var f := EffectOf(s, e, e.node);
            NodeOk(SeeAll(SeeIn(w, e, e.node), f.actions), f.session, f.pending)
  {
    var n := e.node;
    if e.scheme != 0 && n in s.sessions && !s.sessions[n].started {
      assert w.included;
      BeginIsExact(w.(started := true), s.sessions[n]);
    }
  }

  lemma {:induction false} AnyReportIsExact(s: State, e: Event, w: Watch)
    requires WellFormed(s) && e.Report? && NodeOk(w, Fetch(s.sessions, e.node), Fetch(s.pendingPolicy, e.node))
    ensures var f := EffectOf(s, e, e.node);
            NodeOk(SeeAll(SeeIn(w, e, e.node), f.actions), f.session, f.pending)
  {
    AnsweredNext(StepsFor(w.ccs), w.reports, e.step);
    if Awaits(s, e.node, e.step) {
      assert w.included;
      ReportIsExact(w, s, e.node, e.step);
    }
  }

  lemma {:induction false} SubjectKeeps(s: State, e: Event)
    requires WellFormed(s) && !IsGlobal(e) && NodeInv(s, e.node)
    ensures NodeInv(React(s, e), e.node)
  {
    var n := e.node;
    var w, f := WatchLog(s.log, n), EffectOf(s, e, n);
    match e {
      case NodeIncluded(_, ccs) => IncludedIsExact(s, n, ccs);
      case SecurityStatus(_, _) => SecuredIsExact(s, e, w);
      case Report(_, _, _) => AnyReportIsExact(s, e, w);
      case _ => NeutralChangesNothing(w, f.actions);
    }
    NodeAfter(s, e, n, f);
  }

  lemma {:induction false} GlobalKeeps(s: State, after: State, e: Event, m: Node)
    requires NodeInv(s, m) && IsGlobal(e)
    requires after.sessions == s.sessions && after.pendingPolicy == s.pendingPolicy && after.log == s.log + [In(e)]
    ensures NodeInv(after, m)
  {
    WatchAppend(s.log, In(e), m);
  }

  lemma {:induction false} OtherNodeKeeps(s: State, e: Event, n: Node, f: Effect, m: Node)
    requires NodeInv(s, m) && n != m && !IsGlobal(e) && e.node == n
    ensures NodeInv(Apply(s, e, n, f), m)
  {
    WatchAfter(s.log, e, n, f.actions, m);
    assert Fetch(Apply(s, e, n, f).sessions, m) == Fetch(s.sessions, m);
    assert Fetch(Apply(s, e, n, f).pendingPolicy, m) == Fetch(s.pendingPolicy, m);
  }

  // ---- The register ------------------------------------------------------------------------------

  lemma {:induction false} PoliciesAppend(dbValid: bool, log: seq<LogEntry>, x: LogEntry)
    ensures PoliciesIn(dbValid, log + [x])
            == if x.In? then PoliciesAfter(PoliciesIn(dbValid, log), x.event) else PoliciesIn(dbValid, log)
  {
    assert (log + [x])[..|log|] == log;
  }

  lemma {:induction false} OutputsChangeNoPolicy(
    dbValid: bool, log: seq<LogEntry>, e: Event, n: Node, actions: seq<Action>)
    ensures PoliciesIn(dbValid, After(log, e, n, actions)) == PoliciesIn(dbValid, log + [In(e)])
    decreases |actions|
  {
    AfterGrows(log, e, n, actions);
    if actions != [] {
      var k := |actions| - 1;
      OutputsChangeNoPolicy(dbValid, log, e, n, actions[..k]);
      PoliciesAppend(dbValid, After(log, e, n, actions[..k]), Out(n, actions[k]));
    }
  }

  /** An input reaches the register before the reactors handle it. */
  lemma {:induction false} NotedIsInLog(dbValid: bool, s: State, e: Event)
    requires s.policies == PoliciesIn(dbValid, s.log) && !IsGlobal(e)
    ensures Noted(s, e).policies == PoliciesIn(dbValid, s.log + [In(e)])
  {
    PoliciesAppend(dbValid, s.log, In(e));
  }

  // ---- The policy step follows -------------------------------------------------------------------

  lemma {:induction false} FollowedStays(dbValid: bool, log: seq<LogEntry>, more: seq<LogEntry>, i: nat)
    requires i < |log| && log[i].Out? && FollowedByPolicy(dbValid, log, i)
    ensures FollowedByPolicy(dbValid, log + more, i)
  {
    var all, n, before := log + more, log[i].node, log[..i];
    assert all[..i] == before;
    var policy, ccs := InForce(PoliciesIn(dbValid, before), n), Scan(WatchLog(before, n).ccs);
    var expected := Outs(n, PolicyActions(policy, ccs, ControllerIn(before)));
    assert all[i + 1..i + 1 + |expected|] == log[i + 1..i + 1 + |expected|];
  }

  /** No effect announces a completion except the last awaited report, and there it comes first. */
  lemma {:induction false} CompletionComesFirst(s: State, e: Event, i: nat)
    requires WellFormed(s) && !IsGlobal(e)
    requires i < |EffectOf(s, e, e.node).actions| && EffectOf(s, e, e.node).actions[i].InterviewComplete?
    ensures i == 0 && e.Report? && Awaits(s, e.node, e.step)
    ensures s.sessions[e.node].index + 1 == |s.sessions[e.node].steps|
    ensures EffectOf(s, e, e.node).actions ==
            [InterviewComplete]
            + PolicyActions(InForce(s.policies, e.node), CachedOrNone(Fetch(s.pendingPolicy, e.node)), s.controller)
  {
    var n := e.node;
    if e.Report? && Awaits(s, n, e.step) {
      PolicyIsNeutral(InForce(s.policies, n), CachedOrNone(Fetch(s.pendingPolicy, n)), s.controller);
    }
  }

  lemma {:induction false} PoliciesExtend(dbValid: bool, log: seq<LogEntry>, e: Event, n: Node, actions: seq<Action>)
    requires PoliciesFollow(dbValid, log)
    requires forall j :: 0 <= j < |actions| && actions[j].InterviewComplete? ==>
               j == 0 && FollowedByPolicy(dbValid, After(log, e, n, actions), |log| + 1)
    ensures PoliciesFollow(dbValid, After(log, e, n, actions))
  {
    var all := After(log, e, n, actions);
    forall i | 0 <= i < |all| && all[i].Out? && all[i].action.InterviewComplete?
      ensures FollowedByPolicy(dbValid, all, i)
    {
      if i < |log| {
        assert all == log + ([In(e)] + Outs(n, actions));
        FollowedStays(dbValid, log, [In(e)] + Outs(n, actions), i);
      } else {
        assert all[i] == Out(n, actions[i - |log| - 1]);
      }
    }
  }

  /** `s` is the state in which the register already knows the input. */
  lemma {:induction false} PoliciesKeepFollowing(dbValid: bool, s: State, e: Event)
    requires WellFormed(s) && PoliciesFollow(dbValid, s.log) && ControllerIn(s.log) == s.controller
    requires !IsGlobal(e) && NodeInv(s, e.node) && s.policies == PoliciesIn(dbValid, s.log + [In(e)])
    ensures PoliciesFollow(dbValid, React(s, e).log)
  {
    var actions := EffectOf(s, e, e.node).actions;
    forall j | 0 <= j < |actions| && actions[j].InterviewComplete?
      ensures j == 0 && FollowedByPolicy(dbValid, After(s.log, e, e.node, actions), |s.log| + 1)
    {
      CompletionComesFirst(s, e, j);
      NewCompletionFollows(dbValid, s, e);
    }
    PoliciesExtend(dbValid, s.log, e, e.node, actions);
  }

  lemma {:induction false} AnsweredMeansReported(steps: seq<Step>, reports: seq<Step>)
    requires Answered(steps, reports) > 0
    ensures steps[0] in reports
    decreases |reports|
  {
    var front := reports[..|reports| - 1];
    if Answered(steps, front) > 0 {
      AnsweredMeansReported(steps, front);
    }
    assert reports == front + [reports[|reports| - 1]];
  }

  lemma {:induction false} NewCompletionFollows(dbValid: bool, s: State, e: Event)
    requires WellFormed(s) && ControllerIn(s.log) == s.controller && s.policies == PoliciesIn(dbValid, s.log + [In(e)])
    requires e.Report? && Awaits(s, e.node, e.step) && NodeInv(s, e.node)
    requires var actions := EffectOf(s, e, e.node).actions; actions != [] && actions[0].InterviewComplete?
    ensures FollowedByPolicy(dbValid, After(s.log, e, e.node, EffectOf(s, e, e.node).actions), |s.log| + 1)
  {
    var n, w := e.node, WatchLog(s.log, e.node);
    CompletionComesFirst(s, e, 0);
    WatchAppend(s.log, In(e), n);
    AnsweredMeansReported(StepsFor(w.ccs), w.reports);
    CompletionIsFollowed(dbValid, s.log, e,
                         PolicyActions(InForce(s.policies, n), CachedOrNone(Fetch(s.pendingPolicy, n)), s.controller));
  }

  lemma {:induction false} CompletionIsFollowed(dbValid: bool, log: seq<LogEntry>, e: Event, tail: seq<Action>)
    requires e.Report?
    requires var before := log + [In(e)];
             var w := WatchLog(before, e.node);
             && w.included && ManufacturerSpecific in w.reports
             && tail == PolicyActions(InForce(PoliciesIn(dbValid, before), e.node), Scan(w.ccs), ControllerIn(before))
    ensures FollowedByPolicy(dbValid, After(log, e, e.node, [InterviewComplete] + tail), |log| + 1)
  {
    var n, i := e.node, |log| + 1;
    var all := After(log, e, n, [InterviewComplete] + tail);
    assert all[..i] == log + [In(e)];
    assert all[i + 1..i + 1 + |Outs(n, tail)|] == Outs(n, tail);
  }

  lemma {:induction false} GlobalKeepsInv(dbValid: bool, s: State, e: Event)
    requires Inv(dbValid, s) && IsGlobal(e)
    ensures Inv(dbValid, StepOn(s, e))
  {
    var s' := StepOn(s, e);
    forall m: Node
      ensures NodeInv(s', m)
    {
      assert NodeInv(s, m);
      GlobalKeeps(s, s', e, m);
    }
    WatchAppend(s.log, In(e), 0);
    PoliciesAppend(dbValid, s.log, In(e));
    InputKeepsFollowing(dbValid, s.log, e);
  }

  lemma {:induction false} InputKeepsFollowing(dbValid: bool, log: seq<LogEntry>, e: Event)
    requires PoliciesFollow(dbValid, log)
    ensures PoliciesFollow(dbValid, log + [In(e)])
  {
    var all := log + [In(e)];
    forall i | 0 <= i < |all| && all[i].Out? && all[i].action.InterviewComplete?
      ensures FollowedByPolicy(dbValid, all, i)
    {
      FollowedStays(dbValid, log, [In(e)], i);
    }
  }

  lemma {:induction false} NotedKeeps(s: State, e: Event)
    ensures var t := Noted(s, e);
            && t.log == s.log && t.sessions == s.sessions && t.pendingPolicy == s.pendingPolicy
            && t.controller == s.controller && t.queue == s.queue
  {}

  lemma {:induction false} NodeKeeps(s: State, e: Event, m: Node)
    requires WellFormed(s) && !IsGlobal(e) && NodeInv(s, m)
    ensures NodeInv(React(s, e), m)
  {
    if e.node != m {
      OtherNodeKeeps(s, e, e.node, EffectOf(s, e, e.node), m);
    } else {
      SubjectKeeps(s, e);
    }
  }

  lemma {:induction false} ReactKeepsLog(dbValid: bool, t: State, e: Event)
    requires WellFormed(t) && !IsGlobal(e) && NodeInv(t, e.node) && PoliciesFollow(dbValid, t.log)
    requires ControllerIn(t.log) == t.controller && t.policies == PoliciesIn(dbValid, t.log + [In(e)])
    ensures var s' := React(t, e);
            && PoliciesFollow(dbValid, s'.log)
            && ControllerIn(s'.log) == s'.controller && s'.policies == PoliciesIn(dbValid, s'.log)
  {
    var f := EffectOf(t, e, e.node);
    PoliciesKeepFollowing(dbValid, t, e);
    WatchAfter(t.log, e, e.node, f.actions, e.node);
    OutputsChangeNoPolicy(dbValid, t.log, e, e.node, f.actions);
  }

  lemma {:induction false} ReactKeepsInv(dbValid: bool, s: State, e: Event)
    requires Inv(dbValid, s) && !IsGlobal(e)
    ensures Inv(dbValid, React(Noted(s, e), e))
  {
    var t := Noted(s, e);
    NotedIsInLog(dbValid, s, e);
    NotedKeeps(s, e);
    forall m: Node
      ensures NodeInv(t, m) && NodeInv(React(t, e), m)
    {
      assert NodeInv(s, m);
      assert NodeInv(t, m);
      NodeKeeps(t, e, m);
    }
    ReactKeepsLog(dbValid, t, e);
  }

  lemma {:induction false} RunKeepsInv(inclusionFirst: bool, dbValid: bool, events: seq<Event>)
    ensures Inv(dbValid, Run(inclusionFirst, dbValid, events))
    decreases |events|
  {
    if events != [] {
      var front, e := events[..|events| - 1], events[|events| - 1];
      RunKeepsInv(inclusionFirst, dbValid, front);
      if IsGlobal(e) {
        GlobalKeepsInv(dbValid, Run(inclusionFirst, dbValid, front), e);
      } else {
        ReactKeepsInv(dbValid, Run(inclusionFirst, dbValid, front), e);
      }
    }
  }

  // ---- The guarantees ----------------------------------------------------------------------------

  /**
   * In every run, for every included node: the requests sent since its last inclusion are exactly the
   * interview steps in order, without repeats, up to the first unanswered one (or all queued at once for a
   * sleeping node, or none while the node waits to become secure), and the completion has been announced
   * exactly once if the steps are a subsequence of its reports and not at all otherwise.
   */
  lemma {:induction false} InterviewIsExact(inclusionFirst: bool, dbValid: bool, events: seq<Event>, n: Node)
    ensures var w := WatchLog(Run(inclusionFirst, dbValid, events).log, n);
            w.included ==>
              && Exact(w)
              && (w.completions == 1 <==> IsSubsequence(StepsFor(w.ccs), w.reports))
              && w.completions <= 1
  {
    RunKeepsInv(inclusionFirst, dbValid, events);
    var w := WatchLog(Run(inclusionFirst, dbValid, events).log, n);
    assert NodeInv(Run(inclusionFirst, dbValid, events), n);
    var steps := StepsFor(w.ccs);
    AnsweredIsLongest(steps, w.reports, |steps|);
    assert steps[..|steps|] == steps;
  }

  /**
   * In every run, each announced completion is followed immediately by the set commands of the policy then in
   * force, in order, filtered by the classes of the very inclusion whose interview completed, then by
   * their number and the end of the set-up.
   */
  lemma {:induction false} PolicyStepFollowsInterview(inclusionFirst: bool, dbValid: bool, events: seq<Event>, i: nat)
    requires i < |Run(inclusionFirst, dbValid, events).log| && Run(inclusionFirst, dbValid, events).log[i].Out?
    requires Run(inclusionFirst, dbValid, events).log[i].action.InterviewComplete?
    ensures FollowedByPolicy(dbValid, Run(inclusionFirst, dbValid, events).log, i)
  {
    RunKeepsInv(inclusionFirst, dbValid, events);
  }

  // ---- Whose policy it is ------------------------------------------------------------------------

  /** Since the last inclusion of a node: the identity it last reported, and whether the network changed. */
  datatype Known = Known(included: bool, device: Option<DeviceId>, rebound: bool)

  function Learn(k: Known, e: Event, n: Node): Known {
    match e
    case NodeIncluded(m, _) => if m == n then Known(true, None, false) else k
    case Report(m, ManufacturerSpecific, device) => if m == n then k.(device := Some(device)) else k
    case HomeBound(_) => k.(rebound := true)
    case _ => k
  }

  function KnownFrom(log: seq<LogEntry>, n: Node): Known
    decreases |log|
  {
    if log == [] then Known(false, None, false)
    else
      var k, x := KnownFrom(log[..|log| - 1], n), log[|log| - 1];
      if x.In? then Learn(k, x.event, n) else k
  }

  /** A report counts only since an inclusion, and a ManufacturerSpecific one that counts has told the identity. */
  lemma {:induction false} CountedIsKnown(log: seq<LogEntry>, n: Node)
    ensures WatchLog(log, n).included ==> KnownFrom(log, n).included
    ensures WatchLog(log, n).started || WatchLog(log, n).reports != [] ==> WatchLog(log, n).included
    ensures ManufacturerSpecific in WatchLog(log, n).reports ==> KnownFrom(log, n).device.Some?
    decreases |log|
  {
    if log != [] {
      CountedIsKnown(log[..|log| - 1], n);
    }
  }

  /** While the network stays bound, the register holds the identity the node reported last. */
  lemma {:induction false} KnownIsNoted(dbValid: bool, log: seq<LogEntry>, n: Node)
    ensures var k, p := KnownFrom(log, n), PoliciesIn(dbValid, log);
            k.included && !k.rebound && k.device.Some? && p.home.Some? ==> IdentityOf(p, n) == k.device
    decreases |log|
  {
    if log != [] {
      KnownIsNoted(dbValid, log[..|log| - 1], n);
    }
  }

  /**
   * In every run, when an interview completes the node has been included and has told its identity since, and
   * if a network was bound and stayed so, the policy step applies the default of that very device overlaid with
   * the node's override.
   */
  lemma {:induction false} PolicyIsOfReportedDevice(inclusionFirst: bool, dbValid: bool, events: seq<Event>, i: nat)
    requires i < |Run(inclusionFirst, dbValid, events).log| && Run(inclusionFirst, dbValid, events).log[i].Out?
    requires Run(inclusionFirst, dbValid, events).log[i].action.InterviewComplete?
    ensures var log := Run(inclusionFirst, dbValid, events).log;
            var n, before := log[i].node, log[..i];
            var k, p := KnownFrom(before, n), PoliciesIn(dbValid, before);
            && k.included && k.device.Some?
            && (!k.rebound && p.home.Some? ==>
                  InForce(p, n) == Effective(DevicePolicyOf(p, k.device.value), OverrideOf(p, n)))
  {
    PolicyStepFollowsInterview(inclusionFirst, dbValid, events, i);
    var log := Run(inclusionFirst, dbValid, events).log;
    CountedIsKnown(log[..i], log[i].node);
    KnownIsNoted(dbValid, log[..i], log[i].node);
  }
}
