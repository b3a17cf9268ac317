/**
 * The Security 2 inclusion handshake. Each joining node has a session that walks through eight phases;
 * every input comes from the bus. Cryptography answers through the input: whether the key agreement
 * succeeds, what a frame decrypts to, whether the class keys are loaded. The statements hold for all answers.
 */
module S2Bootstrap {
  import opened Bytes
  import opened Kex
  import opened SpanManager
  import opened S2Encapsulation

  type Node = Byte

  datatype Phase =
    | AwaitKexReport
    | AwaitPublicKey
    | AwaitDsk
    | AwaitTempChannel
    | AwaitKexSetEcho
    | AwaitNetworkKeyGet
    | AwaitClassNonceGet
    | AwaitKeyVerify

  datatype Session = Session(phase: Phase, granted: KeyMask, report: KexReport, sent: KexSet, installing: KeyMask)

  const NEW_SESSION :=
    Session(AwaitKexReport, 0, KexReport(false, false, 0, 0, 0), KexSet(false, false, 0, 0, 0), 0)

  /** What cryptography says about the input at hand. */
  datatype Oracle = Oracle(agrees: bool, plain: Option<seq<Byte>>, keysLoaded: bool)

  datatype Event =
    | KeysReady(ready: bool)
    | NodeIncluded(node: Node, commandClasses: seq<Byte>)
    | ApplicationCommand(node: Node, ccData: seq<Byte>, oracle: Oracle)
    | ConfirmDsk(node: Node, pin: string, oracle: Oracle)

  datatype Message =
    | KexGet
    | KexSetMessage(content: KexSet)
    | KexFail(reason: Byte)
    | OwnPublicKey
    | NonceReport
    | KexReportEcho(report: KexReport)
    | NetworkKey(keyBit: KeyMask)
    | KeyVerified

  datatype Action =
    | Send(message: Message)
    | SendEncrypted(message: Message)
    | DropUnencryptable(message: Message)
    | PromptDsk
    | ClearDskPrompt
    | KeyAgreementComplete
    | RecordScheme(scheme: Scheme)
    | PublishSecurityStatus(scheme: Scheme)

  datatype Entry = In(event: Event) | Out(node: Node, action: Action)

  datatype State = State(
    sessions: map<Node, Session>, keysReady: bool, temp: Manager, classes: Manager, log: seq<Entry>)

  const INIT := State(map[], false, map[], map[], [])

  /** What a frame decrypts to, given what the cipher says. */
  function Decrypted(frame: seq<Byte>, o: Oracle): Option<seq<Byte>> {
    Decrypt(frame, o.plain)
  }

  // ---- The reaction of one session --------------------------------------------------------------

  /** The session afterwards (none if it ended), the two SPAN runtimes, and what was emitted, in order. */
  datatype Effect = Effect(session: Option<Session>, temp: Manager, classes: Manager, actions: seq<Action>)

  function Quiet(s: Session, temp: Manager, classes: Manager): Effect {
    Effect(Some(s), temp, classes, [])
  }

  function Encrypted(temp: Manager, n: Node, m: Message): Action {
    if CanEncrypt(temp, n) then SendEncrypted(m) else DropUnencryptable(m)
  }

  function SetFor(granted: KeyMask): KexSet {
    KexSet(false, false, KEX_SCHEME_1, ECDH_CURVE25519, granted)
  }

  function KexReportEffect(s: Session, temp: Manager, classes: Manager, ccData: seq<Byte>): Effect {
    match DecodeReport(ccData)
    case None => Quiet(s, temp, classes)
    case Some(report) =>
      var granted := GrantKeys(report);
      if granted == 0 then Effect(None, temp, classes, [Send(KexFail(FAIL_KEY))])
      else
        var sent := SetFor(granted);
        Effect(Some(s.(phase := AwaitPublicKey, granted := granted, report := report, sent := sent)),
               temp, classes, [Send(KexSetMessage(sent))])
  }

  function AgreementEffect(s: Session, temp: Manager, classes: Manager, agrees: bool, before: seq<Action>): Effect {
    if !agrees then Effect(None, temp, classes, before + [Send(KexFail(FAIL_DECRYPT))])
    else Effect(Some(s.(phase := AwaitTempChannel)), temp, classes, before + [KeyAgreementComplete])
  }

  function PublicKeyEffect(s: Session, temp: Manager, classes: Manager, ccData: seq<Byte>, o: Oracle): Effect {
    if !IsPublicKeyReport(ccData) then Quiet(s, temp, classes)
    else if Includes(s.granted, DSK_REQUIRED_KEYS) then
      Effect(Some(s.(phase := AwaitDsk)), temp, classes, [Send(OwnPublicKey), PromptDsk])
    else AgreementEffect(s, temp, classes, o.agrees, [Send(OwnPublicKey)])
  }

  function ConfirmEffect(s: Session, temp: Manager, classes: Manager, pin: string, o: Oracle): Effect {
    if s.phase != AwaitDsk || !WellFormedPin(pin) then Quiet(s, temp, classes)
    else AgreementEffect(s, temp, classes, o.agrees, [ClearDskPrompt])
  }

  predicate EchoMatches(inner: seq<Byte>, sent: KexSet) {
    var echoed := DecodeSet(inner);
    && echoed.Some?
    && echoed.value.scheme == sent.scheme && echoed.value.curve == sent.curve
    && echoed.value.grantedKeys == sent.grantedKeys
  }

  function EchoEffect(n: Node, s: Session, temp: Manager, classes: Manager, frame: seq<Byte>, o: Oracle): Effect {
    var temp1 := ReceiveNonce(temp, n, frame);
    if !NonceAvailable(temp, n, frame) || Decrypted(frame, o).None? then Quiet(s, temp1, classes)
    else if !EchoMatches(Decrypted(frame, o).value, s.sent) then
      Effect(None, Encrypt(temp1, n), classes, [Encrypted(temp1, n, KexFail(FAIL_AUTH))])
    else
      Effect(Some(s.(phase := AwaitNetworkKeyGet)), Encrypt(temp1, n), classes,
             [Encrypted(temp1, n, KexReportEcho(s.report.(echo := true)))])
  }

  function KeyExchangeEffect(
    n: Node, s: Session, temp: Manager, classes: Manager, frame: seq<Byte>, o: Oracle): Effect {
    var temp1 := ReceiveNonce(temp, n, frame);
    if !NonceAvailable(temp, n, frame) || Decrypted(frame, o).None? then Quiet(s, temp1, classes)
    else
      var inner := Decrypted(frame, o).value;
      if CommandByte(inner) == Some(TRANSFER_END) then
        if IsKeyRequestComplete(inner) then
          var scheme := SchemeFor(s.granted);
          Effect(None, temp1, classes, [RecordScheme(scheme), PublishSecurityStatus(scheme)])
        else Quiet(s, temp1, classes)
      else
        match DecodeKeyGet(inner)
        case None => Quiet(s, temp1, classes)
        case Some(bit) =>
          if !Includes(s.granted, bit) then
            Effect(None, Encrypt(temp1, n), classes, [Encrypted(temp1, n, KexFail(FAIL_KEY_GET))])
          else if !NamesOneClass(bit) || !o.keysLoaded then Quiet(s, temp1, classes)
          else
            Effect(Some(s.(phase := AwaitClassNonceGet, installing := bit)), Encrypt(temp1, n), classes,
                   [Encrypted(temp1, n, NetworkKey(bit))])
  }

  function KeyVerifyEffect(n: Node, s: Session, temp: Manager, classes: Manager, frame: seq<Byte>, o: Oracle): Effect {
    var classes1 := ReceiveNonce(classes, n, frame);
    if !NonceAvailable(classes, n, frame) then Quiet(s, temp, classes1)
    else if Decrypted(frame, o).None? then
      Effect(None, Encrypt(temp, n), classes1, [Encrypted(temp, n, KexFail(FAIL_KEY_VERIFY))])
    else
      Effect(Some(s.(phase := AwaitNetworkKeyGet)), Encrypt(temp, n), classes1, [Encrypted(temp, n, KeyVerified)])
  }

  function CommandEffect(n: Node, s: Session, temp: Manager, classes: Manager, ccData: seq<Byte>, o: Oracle): Effect {
    var command := CommandByte(ccData);
    match s.phase
    case AwaitKexReport =>
      if command == Some(KEX_REPORT) then KexReportEffect(s, temp, classes, ccData) else Quiet(s, temp, classes)
    case AwaitPublicKey =>
      if command == Some(PUBLIC_KEY_REPORT) then PublicKeyEffect(s, temp, classes, ccData, o)
      else Quiet(s, temp, classes)
    case AwaitDsk => Quiet(s, temp, classes)
    case AwaitTempChannel =>
      if command == Some(NONCE_GET) then
        Effect(Some(s.(phase := AwaitKexSetEcho)), RespondToNonceGet(temp, n), classes, [Send(NonceReport)])
      else Quiet(s, temp, classes)
    case AwaitKexSetEcho =>
      if command == Some(MESSAGE_ENCAPSULATION) then EchoEffect(n, s, temp, classes, ccData, o)
      else Quiet(s, temp, classes)
    case AwaitNetworkKeyGet =>
      if command == Some(MESSAGE_ENCAPSULATION) then KeyExchangeEffect(n, s, temp, classes, ccData, o)
      else Quiet(s, temp, classes)
    case AwaitClassNonceGet =>
      // The class runtime is replaced by a fresh one, for every peer at once.
      if command == Some(NONCE_GET) then
        Effect(Some(s.(phase := AwaitKeyVerify)), temp, RespondToNonceGet(map[], n), [Send(NonceReport)])
      else Quiet(s, temp, classes)
    case AwaitKeyVerify =>
      if command == Some(MESSAGE_ENCAPSULATION) then KeyVerifyEffect(n, s, temp, classes, ccData, o)
      else Quiet(s, temp, classes)
  }

  // ---- The orchestrator as a step function ------------------------------------------------------

  function Outs(n: Node, actions: seq<Action>): seq<Entry> {
    seq(|actions|, i requires 0 <= i < |actions| => Out(n, actions[i]))
  }

  function Logged(s: State, e: Event): State {
    s.(log := s.log + [In(e)])
  }

  function Applied(s: State, n: Node, f: Effect): State {
    State(if f.session.Some? then s.sessions[n := f.session.value] else s.sessions - {n},
          s.keysReady, f.temp, f.classes, s.log + Outs(n, f.actions))
  }

  function Apply(s: State, e: Event, n: Node, f: Effect): State {
    Applied(Logged(s, e), n, f)
  }

  function Step(s: State, e: Event): State {
    match e
    case KeysReady(ready) => s.(keysReady := ready, log := s.log + [In(e)])
    case NodeIncluded(n, ccs) =>
      if COMMAND_CLASS !in ccs || !s.keysReady then Logged(s, e)
      else Apply(s, e, n, Effect(Some(NEW_SESSION), s.temp, s.classes, [Send(KexGet)]))
    case ApplicationCommand(n, ccData, o) =>
      if n !in s.sessions then Logged(s, e)
      else Apply(s, e, n, CommandEffect(n, s.sessions[n], s.temp, s.classes, ccData, o))
    case ConfirmDsk(n, pin, o) =>
      if n !in s.sessions then Logged(s, e)
      else Apply(s, e, n, ConfirmEffect(s.sessions[n], s.temp, s.classes, pin, o))
  }

  function Run(events: seq<Event>): State
    decreases |events|
  {
    if events == [] then INIT else Step(Run(events[..|events| - 1]), events[|events| - 1])
  }

  // ---- The orchestrator object -------------------------------------------------------------------

  class Orchestrator {
    var sessions: map<Node, Session>
    var keysReady: bool
    var spanManager: Manager
    var classSpanManager: Manager
    var log: seq<Entry>

    function Snapshot(): State
      reads this
    {
      State(sessions, keysReady, spanManager, classSpanManager, log)
    }

    constructor ()
      ensures Snapshot() == INIT
    {
      sessions, keysReady, spanManager, classSpanManager, log := map[], false, map[], map[], [];
    }

    method Emit(n: Node, action: Action)
      modifies this`log
      ensures log == old(log) + [Out(n, action)]
    {
      log := log + [Out(n, action)];
    }

    method SendOverTempChannel(n: Node, m: Message)
      modifies this`log, this`spanManager
      ensures spanManager == Encrypt(old(spanManager), n)
      ensures log == old(log) + [Out(n, Encrypted(old(spanManager), n, m))]
    {
      if CanEncrypt(spanManager, n) {
        Emit(n, SendEncrypted(m));
      } else {
        Emit(n, DropUnencryptable(m));
      }
      spanManager := Encrypt(spanManager, n);
    }

    method OnKeysReady(ready: bool)
      modifies this
      ensures Snapshot() == Step(old(Snapshot()), KeysReady(ready))
    {
      log := log + [In(KeysReady(ready))];
      keysReady := ready;
    }

    method OnNodeIncluded(n: Node, commandClasses: seq<Byte>)
      modifies this
      ensures Snapshot() == Step(old(Snapshot()), NodeIncluded(n, commandClasses))
    {
      log := log + [In(NodeIncluded(n, commandClasses))];
      if COMMAND_CLASS !in commandClasses {
        return;
      }
      if !keysReady {
        return;
      }
      sessions := sessions[n := NEW_SESSION];
      Emit(n, Send(KexGet));
      OutsShort(n, Send(KexGet), PromptDsk);
    }

    method OnKexReport(n: Node, ccData: seq<Byte>)
      requires n in sessions
      modifies this
      ensures Snapshot()
              == Applied(old(Snapshot()), n,
                         KexReportEffect(old(sessions)[n], old(spanManager), old(classSpanManager), ccData))
    {
      var session := sessions[n];
      OutsShort(n, Send(KexFail(FAIL_KEY)), PromptDsk);
      var report := DecodeReport(ccData);
      if report.None? {
        assert sessions[n := session] == sessions;
        return;
      }
      var granted := GrantKeys(report.value);
      if granted == 0 {
        Emit(n, Send(KexFail(FAIL_KEY)));
        sessions := sessions - {n};
        return;
      }
      session := session.(granted := granted);
      session := session.(report := report.value);
      session := session.(sent := KexSet(false, false, KEX_SCHEME_1, ECDH_CURVE25519, granted));
      session := session.(phase := AwaitPublicKey);
      sessions := sessions[n := session];
      Emit(n, Send(KexSetMessage(session.sent)));
      OutsShort(n, Send(KexSetMessage(session.sent)), PromptDsk);
    }

    /** `before` is what the caller has already emitted while handling the same input. */
    method FinishKeyAgreement(n: Node, agrees: bool, ghost before: Action, ghost start: State)
      requires n in sessions && Snapshot() == start.(log := start.log + [Out(n, before)])
      modifies this
      ensures Snapshot()
              == Applied(start, n, AgreementEffect(start.sessions[n], start.temp, start.classes, agrees, [before]))
    {
      OutsShort(n, before, if agrees then KeyAgreementComplete else Send(KexFail(FAIL_DECRYPT)));
      if !agrees {
        Emit(n, Send(KexFail(FAIL_DECRYPT)));
        sessions := sessions - {n};
        return;
      }
      sessions := sessions[n := sessions[n].(phase := AwaitTempChannel)];
      Emit(n, KeyAgreementComplete);
    }

    method OnPublicKeyReport(n: Node, ccData: seq<Byte>, o: Oracle)
      requires n in sessions
      modifies this
      ensures Snapshot()
              == Applied(old(Snapshot()), n,
                         PublicKeyEffect(old(sessions)[n], old(spanManager), old(classSpanManager), ccData, o))
    {
      ghost var start := Snapshot();
      if !IsPublicKeyReport(ccData) {
        assert sessions[n := sessions[n]] == sessions;
        return;
      }
      Emit(n, Send(OwnPublicKey));
      if Includes(sessions[n].granted, DSK_REQUIRED_KEYS) {
        sessions := sessions[n := sessions[n].(phase := AwaitDsk)];
        Emit(n, PromptDsk);
        OutsShort(n, Send(OwnPublicKey), PromptDsk);
        return;
      }
      FinishKeyAgreement(n, o.agrees, Send(OwnPublicKey), start);
    }

    method OnConfirmDsk(n: Node, pin: string, o: Oracle)
      modifies this
      ensures Snapshot() == Step(old(Snapshot()), ConfirmDsk(n, pin, o))
    {
      log := log + [In(ConfirmDsk(n, pin, o))];
      ghost var start := Snapshot();
      if n !in sessions {
        return;
      }
      if sessions[n].phase != AwaitDsk || !WellFormedPin(pin) {
        assert sessions[n := sessions[n]] == sessions;
        return;
      }
      Emit(n, ClearDskPrompt);
      FinishKeyAgreement(n, o.agrees, ClearDskPrompt, start);
    }

    method DecryptInbound(n: Node, frame: seq<Byte>, o: Oracle) returns (inner: Option<seq<Byte>>)
      modifies this`spanManager
      ensures spanManager == ReceiveNonce(old(spanManager), n, frame)
      ensures inner == if NonceAvailable(old(spanManager), n, frame) then Decrypted(frame, o) else None
    {
      spanManager := ReceiveNonce(spanManager, n, frame);
      if !PeerOf(spanManager, n).span {
        return None;
      }
      return Decrypted(frame, o);
    }

    method OnKexSetEcho(n: Node, frame: seq<Byte>, o: Oracle)
      requires n in sessions
      modifies this
      ensures Snapshot()
              == Applied(old(Snapshot()), n,
                         EchoEffect(n, old(sessions)[n], old(spanManager), old(classSpanManager), frame, o))
    {
      var session := sessions[n];
      var inner := DecryptInbound(n, frame, o);
      if inner.None? {
        assert sessions[n := session] == sessions;
        return;
      }
      OutsShort(n, Encrypted(spanManager, n, KexFail(FAIL_AUTH)), PromptDsk);
      OutsShort(n, Encrypted(spanManager, n, KexReportEcho(session.report.(echo := true))), PromptDsk);
      if !EchoMatches(inner.value, session.sent) {
        SendOverTempChannel(n, KexFail(FAIL_AUTH));
        sessions := sessions - {n};
        return;
      }
      SendOverTempChannel(n, KexReportEcho(session.report.(echo := true)));
      sessions := sessions[n := session.(phase := AwaitNetworkKeyGet)];
    }

    method CompleteBootstrap(n: Node)
      requires n in sessions
      modifies this`sessions, this`log
      ensures var scheme := SchemeFor(old(sessions)[n].granted);
              sessions == old(sessions) - {n}
              && log == old(log) + Outs(n, [RecordScheme(scheme), PublishSecurityStatus(scheme)])
    {
      var scheme := SchemeFor(sessions[n].granted);
      Emit(n, RecordScheme(scheme));
      Emit(n, PublishSecurityStatus(scheme));
      sessions := sessions - {n};
      OutsShort(n, RecordScheme(scheme), PublishSecurityStatus(scheme));
    }

    method OnTempChannelKeyExchange(n: Node, frame: seq<Byte>, o: Oracle)
      requires n in sessions
      modifies this
      ensures Snapshot()
              == Applied(old(Snapshot()), n,
                         KeyExchangeEffect(n, old(sessions)[n], old(spanManager), old(classSpanManager), frame, o))
    {
      var session := sessions[n];
      assert sessions[n := session] == sessions;
      var inner := DecryptInbound(n, frame, o);
      if inner.None? {
        return;
      }
      var command := CommandByte(inner.value);
      if command.None? {
        return;
      }
      if command == Some(TRANSFER_END) {
        if IsKeyRequestComplete(inner.value) {
          CompleteBootstrap(n);
        }
        return;
      }
      var requestedBit := DecodeKeyGet(inner.value);
      if requestedBit.None? {
        return;
      }
      OutsShort(n, Encrypted(spanManager, n, KexFail(FAIL_KEY_GET)), PromptDsk);
      OutsShort(n, Encrypted(spanManager, n, NetworkKey(requestedBit.value)), PromptDsk);
      if !Includes(session.granted, requestedBit.value) {
        SendOverTempChannel(n, KexFail(FAIL_KEY_GET));
        sessions := sessions - {n};
        return;
      }
      if !NamesOneClass(requestedBit.value) || !o.keysLoaded {
        return;
      }
      SendOverTempChannel(n, NetworkKey(requestedBit.value));
      sessions := sessions[n := session.(installing := requestedBit.value, phase := AwaitClassNonceGet)];
    }

    method OnKeyVerify(n: Node, frame: seq<Byte>, o: Oracle)
      requires n in sessions
      modifies this
      ensures Snapshot()
              == Applied(old(Snapshot()), n,
                         KeyVerifyEffect(n, old(sessions)[n], old(spanManager), old(classSpanManager), frame, o))
    {
      var session := sessions[n];
      classSpanManager := ReceiveNonce(classSpanManager, n, frame);
      if !PeerOf(classSpanManager, n).span {
        assert sessions[n := session] == sessions;
        return;
      }
      OutsShort(n, Encrypted(spanManager, n, KexFail(FAIL_KEY_VERIFY)), PromptDsk);
      OutsShort(n, Encrypted(spanManager, n, KeyVerified), PromptDsk);
      var inner := Decrypted(frame, o);
      if inner.None? {
        SendOverTempChannel(n, KexFail(FAIL_KEY_VERIFY));
        sessions := sessions - {n};
        return;
      }
      SendOverTempChannel(n, KeyVerified);
      sessions := sessions[n := session.(phase := AwaitNetworkKeyGet)];
    }

    method OnApplicationCommand(n: Node, ccData: seq<Byte>, o: Oracle)
      modifies this
      ensures Snapshot() == Step(old(Snapshot()), ApplicationCommand(n, ccData, o))
    {
      log := log + [In(ApplicationCommand(n, ccData, o))];
      if n !in sessions {
        return;
      }
      var command := CommandByte(ccData);
      var session := sessions[n];
      assert sessions[n := session] == sessions;
      OutsShort(n, Send(NonceReport), PromptDsk);
      match session.phase {
        case AwaitKexReport =>
          if command == Some(KEX_REPORT) {
            OnKexReport(n, ccData);
          }
        case AwaitPublicKey =>
          if command == Some(PUBLIC_KEY_REPORT) {
            OnPublicKeyReport(n, ccData, o);
          }
        case AwaitDsk =>
        case AwaitTempChannel =>
          if command == Some(NONCE_GET) {
            spanManager := RespondToNonceGet(spanManager, n);
            Emit(n, Send(NonceReport));
            sessions := sessions[n := session.(phase := AwaitKexSetEcho)];
          }
        case AwaitKexSetEcho =>
          if command == Some(MESSAGE_ENCAPSULATION) {
            OnKexSetEcho(n, ccData, o);
          }
        case AwaitNetworkKeyGet =>
          if command == Some(MESSAGE_ENCAPSULATION) {
            OnTempChannelKeyExchange(n, ccData, o);
          }
        case AwaitClassNonceGet =>
          if command == Some(NONCE_GET) {
            classSpanManager := map[];
            classSpanManager := RespondToNonceGet(classSpanManager, n);
            Emit(n, Send(NonceReport));
            sessions := sessions[n := session.(phase := AwaitKeyVerify)];
          }
        case AwaitKeyVerify =>
          if command == Some(MESSAGE_ENCAPSULATION) {
            OnKeyVerify(n, ccData, o);
          }
      }
    }
  }

  lemma {:induction false} OutsShort(n: Node, a: Action, b: Action)
    ensures Outs(n, []) == []
    ensures Outs(n, [a]) == [Out(n, a)]
    ensures Outs(n, [a] + [b]) == [Out(n, a)] + [Out(n, b)]
    ensures Outs(n, [a, b]) == [Out(n, a)] + [Out(n, b)]
  {}
}
