/**
 * Installing class keys on several nodes at once. The orchestrator keeps one class-key runtime and replaces
 * it at every class NONCE_GET it answers, so a node whose turn was overtaken can never prove its key.
 */
module S2KeyInstall {
  import opened Bytes
  import opened Kex
  import opened SpanManager
  import opened S2Encapsulation
  import opened S2Bootstrap
  import opened S2Handshake

  /** A session that waits for a proof of a key it has no means left to decrypt. */
  predicate Stuck(s: State, n: Node) {
    && n in s.sessions && s.sessions[n].phase == AwaitKeyVerify
    && !PeerOf(s.classes, n).span && !PeerOf(s.classes, n).ourRei
  }

  /** The inclusion of `n` that replaces its session by a new one. */
  predicate Restarts(s: State, e: Event, n: Node) {
    e.NodeIncluded? && e.node == n && COMMAND_CLASS in e.commandClasses && s.keysReady
  }

  // ---- The stall is permanent --------------------------------------------------------------------

  /** A runtime that holds nothing for `n` gives it no nonce, whatever the frame. */
  lemma {:induction false} NothingFromNothing(classes: Manager, n: Node, m: Node, frame: seq<Byte>)
    requires !PeerOf(classes, n).span && !PeerOf(classes, n).ourRei
    ensures !NonceAvailable(classes, n, frame)
    ensures var after := PeerOf(ReceiveNonce(classes, m, frame), n); !after.span && !after.ourRei
  {}

  /** Only a new inclusion frees a stuck session; until then it is as it was and its node hears nothing. */
  lemma {:induction false} StuckUntilIncluded(s: State, e: Event, n: Node)
    requires Stuck(s, n)
    ensures Stuck(Step(s, e), n) <==> !Restarts(s, e, n)
    ensures !Restarts(s, e, n) ==>
              && Step(s, e).sessions[n] == s.sessions[n] && |s.log| < |Step(s, e).log|
              && forall i :: |s.log| <= i < |Step(s, e).log| ==>
                   !(Step(s, e).log[i].Out? && Step(s, e).log[i].node == n)
  {
    if e.ApplicationCommand? && e.node in s.sessions {
      NothingFromNothing(s.classes, n, e.node, e.ccData);
      OtherReactionKeepsEmptiness(s, e, n);
    }
  }

  lemma {:induction false} OtherReactionKeepsEmptiness(s: State, e: Event, n: Node)
    requires Stuck(s, n) && e.ApplicationCommand? && e.node in s.sessions
    ensures var f := CommandEffect(e.node, s.sessions[e.node], s.temp, s.classes, e.ccData, e.oracle);
            && !PeerOf(f.classes, n).span
            && (e.node != n ==> !PeerOf(f.classes, n).ourRei)
            && (e.node == n ==> f.actions == [] && f.session == Some(s.sessions[n]) && !PeerOf(f.classes, n).ourRei)
  {
    NothingFromNothing(s.classes, n, e.node, e.ccData);
  }

  function Steps(s: State, events: seq<Event>): State
    decreases |events|
  {
    if events == [] then s else Step(Steps(s, events[..|events| - 1]), events[|events| - 1])
  }

  /** So it stays stuck through every run in which its node is not included again. */
  lemma {:induction false} StuckForever(s: State, events: seq<Event>, n: Node)
    requires Stuck(s, n) && forall e :: e in events ==> !(e.NodeIncluded? && e.node == n)
    ensures Stuck(Steps(s, events), n) && Steps(s, events).sessions[n] == s.sessions[n]
    decreases |events|
  {
    if events != [] {
      StuckForever(s, events[..|events| - 1], n);
      assert events[|events| - 1] in events;
      StuckUntilIncluded(Steps(s, events[..|events| - 1]), events[|events| - 1], n);
    }
  }

  // ---- Which sessions are stuck ------------------------------------------------------------------

  /** The entry at `i` answers a class NONCE_GET: a nonce report to a node whose key is being installed. */
  ghost predicate IsClassReply(log: seq<Entry>, i: nat)
    requires i < |log|
  {
    log[i].Out? && log[i].action == Send(NonceReport) && Track(log[..i], log[i].node).Installing?
  }

  /** The node whose class NONCE_GET was answered last. */
  ghost function LastReplied(log: seq<Entry>): Option<Node> {
    if log == [] then None
    else if IsClassReply(log, |log| - 1) then Some(log[|log| - 1].node)
    else LastReplied(log[..|log| - 1])
  }

  /** Another node's class NONCE_GET was answered at `j`, and this one's own was not answered since. */
  ghost predicate OvertakenAt(log: seq<Entry>, n: Node, j: nat) {
    && j < |log| && IsClassReply(log, j) && log[j].node != n
    && forall k :: j < k < |log| && IsClassReply(log, k) ==> log[k].node != n
  }

  ghost predicate Overtaken(log: seq<Entry>, n: Node) {
    exists j :: OvertakenAt(log, n, j)
  }

  lemma {:induction false} ReplyInPrefix(log: seq<Entry>, k: nat, i: nat)
    requires i < k <= |log|
    ensures IsClassReply(log[..k], i) <==> IsClassReply(log, i)
  {
    assert log[..k][..i] == log[..i];
  }

  lemma {:induction false} OvertakenInFront(log: seq<Entry>, n: Node, j: nat)
    requires log != [] && j < |log| - 1 && (IsClassReply(log, |log| - 1) ==> log[|log| - 1].node != n)
    ensures OvertakenAt(log[..|log| - 1], n, j) <==> OvertakenAt(log, n, j)
  {
    var front := log[..|log| - 1];
    forall i | 0 <= i < |front|
      ensures IsClassReply(front, i) <==> IsClassReply(log, i)
    {
      ReplyInPrefix(log, |front|, i);
    }
  }

  lemma {:induction false} OvertakenIff(log: seq<Entry>, n: Node)
    ensures Overtaken(log, n) <==> LastReplied(log).Some? && LastReplied(log) != Some(n)
    decreases |log|
  {
    if log != [] {
      var last := |log| - 1;
      OvertakenIff(log[..last], n);
      if IsClassReply(log, last) {
        assert log[last].node != n ==> OvertakenAt(log, n, last);
      } else {
        if j :| OvertakenAt(log[..last], n, j) {
          OvertakenInFront(log, n, j);
        }
        if j :| OvertakenAt(log, n, j) {
          OvertakenInFront(log, n, j);
        }
      }
    }
  }

  lemma {:induction false} LastRepliedAppend(log: seq<Entry>, x: Entry)
    ensures LastReplied(log + [x])
            == if x.Out? && x.action == Send(NonceReport) && Track(log, x.node).Installing? then Some(x.node)
               else LastReplied(log)
  {
    assert (log + [x])[..|log|] == log;
  }

  /** A reaction answers a class NONCE_GET, or it does not emit a nonce report while a key is being installed. */
  predicate Replies(f: Effect, t: Session) {
    f.actions == [Send(NonceReport)] && t.phase == AwaitClassNonceGet
  }

  lemma {:induction false} AfterReply(log: seq<Entry>, e: Event, n: Node, actions: seq<Action>, installing: bool)
    requires Track(log, n).Installing? <==> installing
    requires forall i :: 0 <= i < |actions| && actions[i] == Send(NonceReport) ==> actions == [Send(NonceReport)]
    ensures LastReplied(After(log, e, n, actions))
            == if actions == [Send(NonceReport)] && installing then Some(n) else LastReplied(log)
    decreases |actions|
  {
    LastRepliedAppend(log, In(e));
    TrackAppend(log, In(e), n);
    if actions == [] {
      assert After(log, e, n, actions) == log + [In(e)];
    } else {
      AfterAppend(log, e, n, actions);
      var front, a := actions[..|actions| - 1], actions[|actions| - 1];
      if |actions| == 1 {
        assert After(log, e, n, front) == log + [In(e)];
        LastRepliedAppend(log + [In(e)], Out(n, a));
      } else {
        AfterReply(log, e, n, front, installing);
        LastRepliedAppend(After(log, e, n, front), Out(n, a));
      }
    }
  }

  /** What the runtime holds for a node right after its class NONCE_GET was answered. */
  const ASKED := Peer(false, true, false)

  /** The runtime knows only the node it was last replaced for, and its entropy is used at most once. */
  ghost predicate RuntimeInv(s: State, n: Node) {
    && (LastReplied(s.log) != Some(n) ==> PeerOf(s.classes, n) == NEW_PEER)
    && (n in s.sessions && s.sessions[n].phase == AwaitKeyVerify ==> LastReplied(s.log).Some?)
    && (n in s.sessions && s.sessions[n].phase == AwaitKeyVerify && LastReplied(s.log) == Some(n) ==>
          PeerOf(s.classes, n) == ASKED)
  }

  /** What a reaction of `m` does to the class runtime, as `n` sees it. */
  ghost predicate RuntimeStep(m: Node, t: Session, classes: Manager, f: Effect, n: Node) {
    && (forall i :: 0 <= i < |f.actions| && f.actions[i] == Send(NonceReport) ==> f.actions == [Send(NonceReport)])
    && (Replies(f, t) ==>
          f.session == Some(t.(phase := AwaitKeyVerify)) && PeerOf(f.classes, n) == if n == m then ASKED else NEW_PEER)
    && (!Replies(f, t) ==>
          && (n != m ==> PeerOf(f.classes, n) == PeerOf(classes, n))
          && (f.session.Some? && f.session.value.phase == AwaitKeyVerify ==>
                && t.phase == AwaitKeyVerify
                && (PeerOf(classes, m) in {NEW_PEER, ASKED} ==> PeerOf(f.classes, m) == PeerOf(classes, m)))
          && (PeerOf(classes, m) == NEW_PEER ==> PeerOf(f.classes, m) == NEW_PEER)
          && (f.actions == [Send(NonceReport)] ==> t.phase == AwaitTempChannel))
  }

  /** A reaction that leaves the class runtime alone. */
  ghost predicate LeavesRuntime(t: Session, classes: Manager, f: Effect) {
    && f.classes == classes
    && (f.session.Some? ==> f.session.value.phase != AwaitKeyVerify)
    && (forall i :: 0 <= i < |f.actions| && f.actions[i] == Send(NonceReport) ==>
          f.actions == [Send(NonceReport)] && t.phase == AwaitTempChannel)
  }

  lemma {:induction false} EarlyPhasesLeaveRuntime(
    m: Node, t: Session, temp: Manager, classes: Manager, ccData: seq<Byte>, o: Oracle)
    requires t.phase in {AwaitKexReport, AwaitPublicKey, AwaitDsk, AwaitTempChannel}
    ensures LeavesRuntime(t, classes, CommandEffect(m, t, temp, classes, ccData, o))
  {}

  lemma {:induction false} EchoLeavesRuntime(
    m: Node, t: Session, temp: Manager, classes: Manager, ccData: seq<Byte>, o: Oracle)
    requires t.phase == AwaitKexSetEcho
    ensures LeavesRuntime(t, classes, CommandEffect(m, t, temp, classes, ccData, o))
  {}

  lemma {:induction false} RequestLeavesRuntime(
    m: Node, t: Session, temp: Manager, classes: Manager, ccData: seq<Byte>, o: Oracle)
    requires t.phase == AwaitNetworkKeyGet
    ensures LeavesRuntime(t, classes, CommandEffect(m, t, temp, classes, ccData, o))
  {}

  lemma {:induction false} ProofUsesRuntime(
    m: Node, t: Session, temp: Manager, classes: Manager, ccData: seq<Byte>, o: Oracle, n: Node)
    requires t.phase == AwaitKeyVerify
    ensures RuntimeStep(m, t, classes, CommandEffect(m, t, temp, classes, ccData, o), n)
  {}

  lemma {:induction false} CommandRuntimeStep(
    m: Node, t: Session, temp: Manager, classes: Manager, ccData: seq<Byte>, o: Oracle, n: Node)
    ensures RuntimeStep(m, t, classes, CommandEffect(m, t, temp, classes, ccData, o), n)
  {
    match t.phase
    case AwaitClassNonceGet =>
    case AwaitKeyVerify => ProofUsesRuntime(m, t, temp, classes, ccData, o, n);
    case AwaitKexSetEcho => EchoLeavesRuntime(m, t, temp, classes, ccData, o);
    case AwaitNetworkKeyGet => RequestLeavesRuntime(m, t, temp, classes, ccData, o);
    case _ => EarlyPhasesLeaveRuntime(m, t, temp, classes, ccData, o);
  }

  lemma {:induction false} ReactionKeepsRuntime(s: State, e: Event, m: Node, f: Effect, n: Node)
    requires m in s.sessions && Track(s.log, m) == MonitorOf(s.sessions[m])
    requires RuntimeInv(s, n) && RuntimeInv(s, m)
    requires RuntimeStep(m, s.sessions[m], s.classes, f, n) && RuntimeStep(m, s.sessions[m], s.classes, f, m)
    ensures RuntimeInv(Apply(s, e, m, f), n)
  {
    var t := s.sessions[m];
    AfterReply(s.log, e, m, f.actions, MonitorOf(t).Installing?);
    assert Apply(s, e, m, f).log == After(s.log, e, m, f.actions);
  }

  lemma {:induction false} QuietRuntimeStep(
    m: Node, t: Session, temp: Manager, classes: Manager, pin: string, o: Oracle, n: Node)
    ensures RuntimeStep(m, t, classes, ConfirmEffect(t, temp, classes, pin, o), n)
  {}

  lemma {:induction false} InputKeepsRuntime(s: State, e: Event, ready: bool, n: Node)
    requires RuntimeInv(s, n)
    ensures RuntimeInv(s.(keysReady := ready, log := s.log + [In(e)]), n)
  {
    LastRepliedAppend(s.log, In(e));
  }

  lemma {:induction false} StepKeepsRuntime(s: State, e: Event, n: Node)
    requires Inv(s) && forall m: Node :: RuntimeInv(s, m)
    ensures RuntimeInv(Step(s, e), n)
  {
    InputKeepsRuntime(s, e, if e.KeysReady? then e.ready else s.keysReady, n);
    match e
    case KeysReady(ready) =>
    case NodeIncluded(m, ccs) =>
      if COMMAND_CLASS in ccs && s.keysReady {
        var f := Effect(Some(NEW_SESSION), s.temp, s.classes, [Send(KexGet)]);
        AfterReply(s.log, e, m, f.actions, Track(s.log, m).Installing?);
        assert Apply(s, e, m, f).log == After(s.log, e, m, f.actions);
      }
    case ApplicationCommand(m, ccData, o) =>
      if m in s.sessions {
        CommandRuntimeStep(m, s.sessions[m], s.temp, s.classes, ccData, o, n);
        CommandRuntimeStep(m, s.sessions[m], s.temp, s.classes, ccData, o, m);
        ReactionKeepsRuntime(s, e, m, CommandEffect(m, s.sessions[m], s.temp, s.classes, ccData, o), n);
      }
    case ConfirmDsk(m, pin, o) =>
      if m in s.sessions {
        QuietRuntimeStep(m, s.sessions[m], s.temp, s.classes, pin, o, n);
        QuietRuntimeStep(m, s.sessions[m], s.temp, s.classes, pin, o, m);
        ReactionKeepsRuntime(s, e, m, ConfirmEffect(s.sessions[m], s.temp, s.classes, pin, o), n);
      }
  }

  lemma {:induction false} RunKeepsRuntime(events: seq<Event>)
    ensures forall n: Node :: RuntimeInv(Run(events), n)
    decreases |events|
  {
    if events != [] {
      var front, e := events[..|events| - 1], events[|events| - 1];
      RunKeepsRuntime(front);
      RunKeepsInv(front);
      forall n: Node
        ensures RuntimeInv(Step(Run(front), e), n)
      {
        StepKeepsRuntime(Run(front), e, n);
      }
    }
  }

  /** In every run, a session that waits for a proof is stuck exactly if another install overtook its own. */
  lemma {:induction false} StuckIffOvertaken(events: seq<Event>, n: Node)
    requires n in Run(events).sessions && Run(events).sessions[n].phase == AwaitKeyVerify
    ensures Stuck(Run(events), n) <==> Overtaken(Run(events).log, n)
  {
    RunKeepsRuntime(events);
    assert RuntimeInv(Run(events), n);
    OvertakenIff(Run(events).log, n);
  }

  /** In every run, a decryptable proof with a SPAN extension moves the session on exactly if it is not stuck. */
  lemma {:induction false} ProofAcceptedIff(events: seq<Event>, n: Node, frame: seq<Byte>, o: Oracle)
    requires n in Run(events).sessions && Run(events).sessions[n].phase == AwaitKeyVerify
    requires CarriesSpanExtension(frame) && Decrypted(frame, o).Some?
    ensures var s := Run(events);
            var after := Step(s, ApplicationCommand(n, frame, o));
            (n in after.sessions && after.sessions[n].phase == AwaitNetworkKeyGet) <==> !Overtaken(s.log, n)
  {
    var s := Run(events);
    RunKeepsRuntime(events);
    assert RuntimeInv(s, n);
    StuckIffOvertaken(events, n);
    OvertakenIff(s.log, n);
    ProofAt(s, n, frame, o);
  }

  lemma {:induction false} ProofAt(s: State, n: Node, frame: seq<Byte>, o: Oracle)
    requires n in s.sessions && s.sessions[n].phase == AwaitKeyVerify
    requires CarriesSpanExtension(frame) && Decrypted(frame, o).Some?
    ensures var after := Step(s, ApplicationCommand(n, frame, o));
            (n in after.sessions && after.sessions[n].phase == AwaitNetworkKeyGet) <==> !Stuck(s, n)
  {
    assert CommandByte(frame) == Some(MESSAGE_ENCAPSULATION);
  }

  // ---- It happens ---------------------------------------------------------------------------------

  lemma {:induction false} StepsAppend(s: State, events: seq<Event>, e: Event)
    ensures Steps(s, events + [e]) == Step(Steps(s, events), e)
  {
    assert (events + [e])[..|events|] == events;
  }

  lemma {:induction false} StepsConcat(s: State, a: seq<Event>, b: seq<Event>)
    ensures Steps(s, a + b) == Steps(Steps(s, a), b)
    decreases |b|
  {
    if b == [] {
      assert a + b == a;
    } else {
      assert (a + b)[..|a + b| - 1] == a + b[..|b| - 1];
      StepsConcat(s, a, b[..|b| - 1]);
    }
  }

  lemma {:induction false} RunIsSteps(events: seq<Event>)
    ensures Run(events) == Steps(INIT, events)
    decreases |events|
  {
    if events != [] {
      RunIsSteps(events[..|events| - 1]);
    }
  }

  const WILLING := Oracle(true, None, true)

  function Octets(k: nat): seq<Byte> {
    seq(k, _ => 0)
  }

  /** The extension object that establishes a SPAN. */
  function SpanExtension(): seq<Byte> {
    [18, 1] + Octets(16)
  }

  /** An encapsulation of `k` octets with the given extensions. */
  function Encapsulation(number: Byte, extensions: seq<Byte>, k: nat): seq<Byte> {
    Encapsulate(number, extensions, [], Octets(k + TAG_SIZE))
  }

  const ECHO: seq<Byte> := [0x9F, 0x06, 1, 2, 1, 1]
  const KEY_REQUEST: seq<Byte> := [0x9F, 0x09, 1]

  // The inputs of a node that asks for the unauthenticated class, up to its key request.

  function Included(n: Node): Event { NodeIncluded(n, [COMMAND_CLASS]) }
  function Reports(n: Node): Event { ApplicationCommand(n, [0x9F, 0x05, 0, 2, 1, 1], WILLING) }
  function ShowsKey(n: Node): Event { ApplicationCommand(n, [0x9F, 0x08, 0, 9] + Octets(31), WILLING) }
  function AsksNonce(n: Node): Event { ApplicationCommand(n, [0x9F, 0x01, 0], WILLING) }
  function Echoes(n: Node): Event {
    ApplicationCommand(n, Encapsulation(1, SpanExtension(), |ECHO|), Oracle(true, Some(ECHO), true))
  }
  function Requests(n: Node): Event {
    ApplicationCommand(n, Encapsulation(2, [], |KEY_REQUEST|), Oracle(true, Some(KEY_REQUEST), true))
  }

  /** `n` has come as far as `phase`, and nothing else has changed since `s0`. */
  ghost predicate Reached(s0: State, s: State, n: Node, phase: Phase) {
    && s.keysReady && s.classes == s0.classes
    && n in s.sessions && s.sessions[n].phase == phase
    && (phase != AwaitKexReport ==> s.sessions[n].granted == 1 && s.sessions[n].sent == SetFor(1))
    && (forall m :: m != n ==> (m in s.sessions <==> m in s0.sessions))
    && (forall m :: m != n && m in s0.sessions ==> s.sessions[m] == s0.sessions[m])
  }

  lemma {:induction false} ReportReached(s0: State, s: State, n: Node)
    requires Reached(s0, s, n, AwaitKexReport)
    ensures Reached(s0, Step(s, Reports(n)), n, AwaitPublicKey)
  {
    var data: seq<Byte> := [0x9F, 0x05, 0, 2, 1, 1];
    assert DecodeReport(data) == Some(KexReport(false, false, 2, 1, 1));
    assert GrantKeys(KexReport(false, false, 2, 1, 1)) == 1;
  }

  lemma {:induction false} KeyReached(s0: State, s: State, n: Node)
    requires Reached(s0, s, n, AwaitPublicKey)
    ensures Reached(s0, Step(s, ShowsKey(n)), n, AwaitTempChannel)
  {
    assert !Includes(1, DSK_REQUIRED_KEYS);
  }

  lemma {:induction false} NonceReached(s0: State, s: State, n: Node)
    requires Reached(s0, s, n, AwaitTempChannel)
    ensures Reached(s0, Step(s, AsksNonce(n)), n, AwaitKexSetEcho)
    ensures PeerOf(Step(s, AsksNonce(n)).temp, n).ourRei
  {}

  /** The frame opens to the command inside it. */
  lemma {:induction false} EncapsulationOpens(number: Byte, extensions: seq<Byte>, inner: seq<Byte>)
    requires IsChain(extensions)
    ensures var frame := Encapsulation(number, extensions, |inner|);
            CommandByte(frame) == Some(MESSAGE_ENCAPSULATION) && Decrypt(frame, Some(inner)) == Some(inner)
  {
    assert [] + inner == inner;
    DecryptUndoesEncapsulate(number, extensions, [], inner, Octets(|inner| + TAG_SIZE));
  }

  lemma {:induction false} SpanExtensionIsCarried(number: Byte, k: nat)
    ensures IsChain(SpanExtension()) && CarriesSpanExtension(Encapsulation(number, SpanExtension(), k))
  {
    var frame := Encapsulation(number, SpanExtension(), k);
    assert frame[4..] == SpanExtension() + Octets(k + TAG_SIZE);
  }

  lemma {:induction false} EchoReached(s0: State, s: State, n: Node)
    requires Reached(s0, s, n, AwaitKexSetEcho) && PeerOf(s.temp, n).ourRei
    ensures Reached(s0, Step(s, Echoes(n)), n, AwaitNetworkKeyGet)
    ensures PeerOf(Step(s, Echoes(n)).temp, n).span
  {
    SpanExtensionIsCarried(1, |ECHO|);
    EncapsulationOpens(1, SpanExtension(), ECHO);
    assert DecodeSet(ECHO) == Some(KexSet(true, false, 2, 1, 1));
    assert EchoMatches(ECHO, SetFor(1));
  }

  lemma {:induction false} RequestReached(s0: State, s: State, n: Node)
    requires Reached(s0, s, n, AwaitNetworkKeyGet) && PeerOf(s.temp, n).span
    ensures Reached(s0, Step(s, Requests(n)), n, AwaitClassNonceGet)
  {
    EncapsulationOpens(2, [], KEY_REQUEST);
    assert DecodeKeyGet(KEY_REQUEST) == Some(1) && Includes(1, 1);
  }

  function UpToRequest(n: Node): seq<Event> {
    [Included(n)] + [Reports(n)] + [ShowsKey(n)] + [AsksNonce(n)] + [Echoes(n)] + [Requests(n)]
  }

  function UpToNonce(n: Node): seq<Event> {
    UpToRequest(n) + [AsksNonce(n)]
  }

  lemma {:induction false} RequestIsReached(s0: State, n: Node)
    requires s0.keysReady
    ensures Reached(s0, Steps(s0, UpToRequest(n)), n, AwaitClassNonceGet)
  {
    var e1 := [Included(n)];
    var e2 := e1 + [Reports(n)];
    var e3 := e2 + [ShowsKey(n)];
    var e4 := e3 + [AsksNonce(n)];
    var e5 := e4 + [Echoes(n)];
    StepsAppend(s0, [], Included(n));
    assert [] + [Included(n)] == e1;
    assert Reached(s0, Steps(s0, e1), n, AwaitKexReport);
    StepsAppend(s0, e1, Reports(n));
    ReportReached(s0, Steps(s0, e1), n);
    StepsAppend(s0, e2, ShowsKey(n));
    KeyReached(s0, Steps(s0, e2), n);
    StepsAppend(s0, e3, AsksNonce(n));
    NonceReached(s0, Steps(s0, e3), n);
    StepsAppend(s0, e4, Echoes(n));
    EchoReached(s0, Steps(s0, e4), n);
    StepsAppend(s0, e5, Requests(n));
    RequestReached(s0, Steps(s0, e5), n);
  }

  /** A second node comes as far as its class NONCE_GET while the first waits for its proof. */
  lemma {:induction false} SecondTakesOver(s: State, first: Node, second: Node)
    requires first != second && s.keysReady && first in s.sessions && s.sessions[first].phase == AwaitKeyVerify
    ensures Stuck(Steps(s, UpToNonce(second)), first)
  {
    var t := Steps(s, UpToRequest(second));
    RequestIsReached(s, second);
    StepsAppend(s, UpToRequest(second), AsksNonce(second));
    assert t.sessions[first] == s.sessions[first];
    assert PeerOf(RespondToNonceGet(map[], second), first) == NEW_PEER;
  }

  lemma {:induction false} FirstWaits(first: Node)
    ensures var s := Steps(INIT, [KeysReady(true)] + UpToNonce(first));
            s.keysReady && first in s.sessions && s.sessions[first].phase == AwaitKeyVerify
  {
    var a, b := [KeysReady(true)], UpToRequest(first);
    StepsAppend(INIT, [], KeysReady(true));
    assert [] + a == a;
    StepsConcat(INIT, a, b + [AsksNonce(first)]);
    RequestIsReached(Steps(INIT, a), first);
    StepsAppend(Steps(INIT, a), b, AsksNonce(first));
  }

  /** Two nodes that were both sent a key, answered one after the other: the first is stuck. */
  lemma {:induction false} SecondInstallStallsFirst(first: Node, second: Node)
    requires first != second
    ensures Stuck(Run([KeysReady(true)] + UpToNonce(first) + UpToNonce(second)), first)
  {
    var a, b := [KeysReady(true)] + UpToNonce(first), UpToNonce(second);
    RunIsSteps(a + b);
    StepsConcat(INIT, a, b);
    FirstWaits(first);
    SecondTakesOver(Steps(INIT, a), first, second);
  }
}
