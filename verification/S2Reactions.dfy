/**
 * What each input makes the Security 2 handshake do, read off the octets that arrive. The guarantees of
 * `S2Handshake` say that nothing happens without cause; these say that each cause has its effect.
 */
module S2Reactions {
  import opened Bytes
  import opened Kex
  import Decimal
  import opened SpanManager
  import opened S2Bootstrap
  import opened S2Handshake

  predicate InPhase(s: State, n: Node, phase: Phase) {
    n in s.sessions && s.sessions[n].phase == phase
  }

  /**
   * In answer to `e` exactly these actions go to `n`, whose session then waits in `next`, with the grant it had,
   * or is over; no other session changes.
   */
  ghost predicate Reacts(s: State, e: Event, n: Node, actions: seq<Action>, next: Option<Phase>) {
    var after := Step(s, e);
    && after.log == s.log + [In(e)] + Outs(n, actions)
    && (if next.Some? then InPhase(after, n, next.value) else n !in after.sessions)
    && (next.Some? && n in s.sessions && s.sessions[n].phase != AwaitKexReport && !e.NodeIncluded? ==>
          after.sessions[n].granted == s.sessions[n].granted)
    && (forall m :: m != n ==> (m in after.sessions <==> m in s.sessions))
    && (forall m :: m != n && m in s.sessions ==> after.sessions[m] == s.sessions[m])
  }

  /** Nothing is sent and no session changes. */
  ghost predicate Ignores(s: State, e: Event) {
    Step(s, e).log == s.log + [In(e)] && Step(s, e).sessions == s.sessions
  }

  // ---- From the inclusion to the public keys -----------------------------------------------------

  /** A session starts exactly if the node announces class 0x9F and the network keys are there. */
  lemma {:induction false} InclusionStartsIff(s: State, n: Node, ccs: seq<Byte>)
    ensures var e := NodeIncluded(n, ccs);
            if 0x9F in ccs && s.keysReady then Reacts(s, e, n, [Send(KexGet)], Some(AwaitKexReport)) else Ignores(s, e)
  {}

  /** The class bits a KEX_REPORT asks for and may have: three classes, two for client-side authentication. */
  function Grantable(p: seq<Byte>): KeyMask
    requires 6 <= |p|
  {
    (p[5] as KeyMask) & (if p[2] / 2 % 2 == 1 then 0x03 else 0x07)
  }

  /** A well-formed KEX_REPORT is answered with exactly the classes it may have, or with a failure if there are none. */
  lemma {:induction false} ReportIsAnswered(s: State, n: Node, p: seq<Byte>, o: Oracle)
    requires InPhase(s, n, AwaitKexReport)
    ensures var e := ApplicationCommand(n, p, o);
            if !(6 <= |p| && p[0] == 0x9F && p[1] == 0x05) then Ignores(s, e)
            else if Grantable(p) == 0 then Reacts(s, e, n, [Send(KexFail(0x01))], None)
            else
              && Reacts(s, e, n, [Send(KexSetMessage(KexSet(false, false, 0x02, 0x01, Grantable(p))))],
                        Some(AwaitPublicKey))
              && Step(s, e).sessions[n].granted == Grantable(p)
  {
    var e := ApplicationCommand(n, p, o);
    if DecodeReport(p).Some? {
      GrantIsGrant(DecodeReport(p).value);
      assert GrantKeys(DecodeReport(p).value) == Grantable(p);
    } else {
      assert Step(s, e).sessions == s.sessions;
    }
  }

  /** Our key answers the node's; classes above the unauthenticated one need the operator, the others agree at once. */
  lemma {:induction false} PublicKeyIsAnswered(s: State, n: Node, p: seq<Byte>, o: Oracle)
    requires InPhase(s, n, AwaitPublicKey)
    ensures var e := ApplicationCommand(n, p, o);
            if !(|p| == 35 && p[0] == 0x9F && p[1] == 0x08) then Ignores(s, e)
            else if s.sessions[n].granted & 0x06 != 0 then
              Reacts(s, e, n, [Send(OwnPublicKey), PromptDsk], Some(AwaitDsk))
            else if o.agrees then Reacts(s, e, n, [Send(OwnPublicKey), KeyAgreementComplete], Some(AwaitTempChannel))
            else Reacts(s, e, n, [Send(OwnPublicKey), Send(KexFail(0x05))], None)
  {
    assert Step(s, ApplicationCommand(n, p, o)).sessions[n := s.sessions[n]] == s.sessions ||
           IsPublicKeyReport(p);
  }

  // ---- The operator ------------------------------------------------------------------------------

  /** The number five digits stand for. */
  function PinValue(pin: string): int
    requires |pin| == 5
  {
    10000 * (pin[0] as int - '0' as int) + 1000 * (pin[1] as int - '0' as int) + 100 * (pin[2] as int - '0' as int)
    + 10 * (pin[3] as int - '0' as int) + (pin[4] as int - '0' as int)
  }

  ghost predicate IsPin(pin: string) {
    |pin| == 5 && (forall i | 0 <= i < 5 :: '0' <= pin[i] <= '9') && PinValue(pin) < 65536
  }

  lemma {:induction false} PinIffWellFormed(pin: string)
    ensures IsPin(pin) <==> WellFormedPin(pin)
  {
    if |pin| == 5 && Decimal.AllDigits(pin) {
      assert pin[..4][..3] == pin[..3] && pin[..3][..2] == pin[..2] && pin[..2][..1] == pin[..1] && pin[..1][..0] == [];
      assert Decimal.Value(pin[..1]) == pin[0] as int - '0' as int;
      assert Decimal.Value(pin[..2]) == 10 * Decimal.Value(pin[..1]) + (pin[1] as int - '0' as int);
      assert Decimal.Value(pin[..3]) == 10 * Decimal.Value(pin[..2]) + (pin[2] as int - '0' as int);
      assert Decimal.Value(pin[..4]) == 10 * Decimal.Value(pin[..3]) + (pin[3] as int - '0' as int);
      assert Decimal.Value(pin) == PinValue(pin);
    }
  }

  /** A confirmation resumes a parked session exactly if it is five digits of at most sixteen bits. */
  lemma {:induction false} ConfirmationResumesIff(s: State, n: Node, pin: string, o: Oracle)
    requires n in s.sessions
    ensures var e := ConfirmDsk(n, pin, o);
            if !(InPhase(s, n, AwaitDsk) && IsPin(pin)) then Ignores(s, e)
            else if o.agrees then Reacts(s, e, n, [ClearDskPrompt, KeyAgreementComplete], Some(AwaitTempChannel))
            else Reacts(s, e, n, [ClearDskPrompt, Send(KexFail(0x05))], None)
  {
    PinIffWellFormed(pin);
    if !(InPhase(s, n, AwaitDsk) && IsPin(pin)) {
      assert Step(s, ConfirmDsk(n, pin, o)).sessions == s.sessions;
    }
  }

  // ---- The temporary channel ---------------------------------------------------------------------

  /** A NONCE_GET is answered where one is due, on the temporary channel and for a new class key. */
  lemma {:induction false} NonceIsAnswered(s: State, n: Node, p: seq<Byte>, o: Oracle)
    requires InPhase(s, n, AwaitTempChannel) || InPhase(s, n, AwaitClassNonceGet)
    ensures var e := ApplicationCommand(n, p, o);
            if !(2 <= |p| && p[0] == 0x9F && p[1] == 0x01) then Ignores(s, e)
            else if InPhase(s, n, AwaitTempChannel) then
              Reacts(s, e, n, [Send(NonceReport)], Some(AwaitKexSetEcho)) && PeerOf(Step(s, e).temp, n).ourRei
            else Reacts(s, e, n, [Send(NonceReport)], Some(AwaitKeyVerify)) && PeerOf(Step(s, e).classes, n).ourRei
  {
    assert Step(s, ApplicationCommand(n, p, o)).sessions == s.sessions || CommandByte(p) == Some(NONCE_GET);
  }

  /** What an encapsulation on the temporary channel opens to, if a nonce and the cipher allow it. */
  function Opened(s: State, n: Node, p: seq<Byte>, o: Oracle): Option<seq<Byte>> {
    if NonceAvailable(s.temp, n, p) then Decrypted(p, o) else None
  }

  predicate IsEncapsulation(p: seq<Byte>) {
    2 <= |p| && p[0] == 0x9F && p[1] == 0x03
  }

  /** A KEX_SET that repeats the scheme, the curve and the classes that were granted. */
  predicate RepeatsGrant(inner: seq<Byte>, g: KeyMask) {
    && 6 <= |inner| && inner[0] == 0x9F && inner[1] == 0x06
    && inner[3] == 0x02 && inner[4] == 0x01 && inner[5] as KeyMask == g
  }

  /** In every run: the encrypted echo continues the session exactly if it repeats the grant, else it ends it. */
  lemma {:induction false} EchoIsCompared(events: seq<Event>, n: Node, p: seq<Byte>, o: Oracle)
    requires InPhase(Run(events), n, AwaitKexSetEcho) && IsEncapsulation(p)
    ensures var s, e := Run(events), ApplicationCommand(n, p, o);
            var t := s.sessions[n];
            if Opened(s, n, p, o).None? then Ignores(s, e)
            else if RepeatsGrant(Opened(s, n, p, o).value, t.granted) then
              Reacts(s, e, n, [SendEncrypted(KexReportEcho(t.report.(echo := true)))], Some(AwaitNetworkKeyGet))
            else Reacts(s, e, n, [SendEncrypted(KexFail(0x07))], None)
  {
    RunKeepsInv(events);
    assert SessionInv(Run(events), n);
    EchoReacts(Run(events), n, p, o);
  }

  lemma {:induction false} EchoReacts(s: State, n: Node, p: seq<Byte>, o: Oracle)
    requires InPhase(s, n, AwaitKexSetEcho) && IsEncapsulation(p) && WellKept(n, s.sessions[n], s.temp)
    ensures var e, t := ApplicationCommand(n, p, o), s.sessions[n];
            if Opened(s, n, p, o).None? then Ignores(s, e)
            else if RepeatsGrant(Opened(s, n, p, o).value, t.granted) then
              Reacts(s, e, n, [SendEncrypted(KexReportEcho(t.report.(echo := true)))], Some(AwaitNetworkKeyGet))
            else Reacts(s, e, n, [SendEncrypted(KexFail(0x07))], None)
  {
    var t, inner := s.sessions[n], Opened(s, n, p, o);
    if inner.None? {
      assert Step(s, ApplicationCommand(n, p, o)).sessions == s.sessions;
    } else {
      assert EchoMatches(inner.value, t.sent) <==> RepeatsGrant(inner.value, t.granted);
    }
  }

  // ---- The key exchange --------------------------------------------------------------------------

  predicate IsTransferEnd(inner: seq<Byte>) {
    2 <= |inner| && inner[0] == 0x9F && inner[1] == 0x0C
  }

  predicate IsKeyGet(inner: seq<Byte>) {
    3 <= |inner| && inner[0] == 0x9F && inner[1] == 0x09
  }

  /**
   * In every run, an encapsulation that opens while key requests are due: a final TRANSFER_END completes the
   * session with the highest class granted; a request for a class outside the grant ends it; a request for one
   * granted class is answered with that key, if the store has it; anything else is ignored.
   */
  ghost predicate ExchangeReacts(s: State, e: Event, n: Node, inner: seq<Byte>, keysLoaded: bool)
    requires n in s.sessions
  {
    var g := s.sessions[n].granted;
    if IsTransferEnd(inner) then
      if 3 <= |inner| && inner[2] % 2 == 1 then
        exists scheme ::
          IsHighest(scheme, g) && Reacts(s, e, n, [RecordScheme(scheme), PublishSecurityStatus(scheme)], None)
      else Ignores(s, e)
    else if !IsKeyGet(inner) then Ignores(s, e)
    else
      var bit := inner[2] as KeyMask;
      if g & bit == 0 then Reacts(s, e, n, [SendEncrypted(KexFail(0x08))], None)
      else if bit in {0x01, 0x02, 0x04} && keysLoaded then
        Reacts(s, e, n, [SendEncrypted(NetworkKey(bit))], Some(AwaitClassNonceGet))
      else Ignores(s, e)
  }

  lemma {:induction false} ExchangeIsExact(events: seq<Event>, n: Node, p: seq<Byte>, o: Oracle)
    requires InPhase(Run(events), n, AwaitNetworkKeyGet) && IsEncapsulation(p)
    ensures var s, e := Run(events), ApplicationCommand(n, p, o);
            if Decrypted(p, o).None? then Ignores(s, e)
            else ExchangeReacts(s, e, n, Decrypted(p, o).value, o.keysLoaded)
  {
    var s := Run(events);
    RunKeepsInv(events);
    assert SessionInv(s, n);
    TracedIsGrant(s.log, n, s.sessions[n]);
    ExchangeAt(s, n, p, o);
  }

  /** In every run, a final TRANSFER_END completes the session, with the highest class granted. */
  lemma {:induction false} FinalEndCompletes(events: seq<Event>, n: Node, p: seq<Byte>, o: Oracle)
    returns (scheme: Scheme)
    requires InPhase(Run(events), n, AwaitNetworkKeyGet) && IsEncapsulation(p)
    requires Decrypted(p, o).Some? && IsTransferEnd(Decrypted(p, o).value)
    requires 3 <= |Decrypted(p, o).value| && Decrypted(p, o).value[2] % 2 == 1
    ensures IsHighest(scheme, Run(events).sessions[n].granted)
    ensures Reacts(Run(events), ApplicationCommand(n, p, o), n,
                   [RecordScheme(scheme), PublishSecurityStatus(scheme)], None)
  {
    var s, e := Run(events), ApplicationCommand(n, p, o);
    ExchangeIsExact(events, n, p, o);
    scheme :| IsHighest(scheme, s.sessions[n].granted)
              && Reacts(s, e, n, [RecordScheme(scheme), PublishSecurityStatus(scheme)], None);
  }

  lemma {:induction false} ExchangeAt(s: State, n: Node, p: seq<Byte>, o: Oracle)
    requires InPhase(s, n, AwaitNetworkKeyGet) && IsEncapsulation(p)
    requires PeerOf(s.temp, n).span && IsGrant(s.sessions[n].granted)
    ensures var e := ApplicationCommand(n, p, o);
            if Decrypted(p, o).None? then Ignores(s, e)
            else ExchangeReacts(s, e, n, Decrypted(p, o).value, o.keysLoaded)
  {
    var e, t, inner := ApplicationCommand(n, p, o), s.sessions[n], Decrypted(p, o);
    if inner.None? {
      assert Step(s, e).sessions == s.sessions;
    } else if IsTransferEnd(inner.value) {
      EndAt(s, n, p, o);
    } else {
      RequestAt(s, n, p, o);
    }
  }

  lemma {:induction false} EndAt(s: State, n: Node, p: seq<Byte>, o: Oracle)
    requires InPhase(s, n, AwaitNetworkKeyGet) && IsEncapsulation(p)
    requires PeerOf(s.temp, n).span && IsGrant(s.sessions[n].granted)
    requires Decrypted(p, o).Some? && IsTransferEnd(Decrypted(p, o).value)
    ensures ExchangeReacts(s, ApplicationCommand(n, p, o), n, Decrypted(p, o).value, o.keysLoaded)
  {
    var e, t, inner := ApplicationCommand(n, p, o), s.sessions[n], Decrypted(p, o).value;
    var scheme := SchemeFor(t.granted);
    SchemeIsHighest(t.granted, scheme);
    if IsKeyRequestComplete(inner) {
      assert Reacts(s, e, n, [RecordScheme(scheme), PublishSecurityStatus(scheme)], None);
    } else {
      assert Step(s, e).sessions == s.sessions;
    }
  }

  lemma {:induction false} RequestAt(s: State, n: Node, p: seq<Byte>, o: Oracle)
    requires InPhase(s, n, AwaitNetworkKeyGet) && IsEncapsulation(p)
    requires PeerOf(s.temp, n).span && IsGrant(s.sessions[n].granted)
    requires Decrypted(p, o).Some? && !IsTransferEnd(Decrypted(p, o).value)
    ensures ExchangeReacts(s, ApplicationCommand(n, p, o), n, Decrypted(p, o).value, o.keysLoaded)
  {
    var e, t, inner := ApplicationCommand(n, p, o), s.sessions[n], Decrypted(p, o).value;
    AppliedReacts(s, e, n, KeyExchangeEffect(n, t, s.temp, s.classes, p, o));
    RequestEffectIs(n, t, s.temp, s.classes, p, o);
    if IsKeyGet(inner) {
      OneGrantedClass(t.granted, inner[2] as KeyMask);
    }
  }

  /** A reaction as it shows in the state. */
  lemma {:induction false} AppliedReacts(s: State, e: Event, n: Node, f: Effect)
    requires n in s.sessions && Step(s, e) == Apply(s, e, n, f)
    ensures (f.session.Some? ==> f.session.value.granted == s.sessions[n].granted) ==>
              Reacts(s, e, n, f.actions, if f.session.Some? then Some(f.session.value.phase) else None)
    ensures f.session == Some(s.sessions[n]) && f.actions == [] ==> Ignores(s, e)
  {
    if f.session == Some(s.sessions[n]) {
      assert Step(s, e).sessions == s.sessions;
    }
  }

  /** The reaction to a frame that opens and does not end the exchange, apart from the log. */
  lemma {:induction false} RequestEffectIs(
    n: Node, t: Session, temp: Manager, classes: Manager, p: seq<Byte>, o: Oracle)
    requires PeerOf(temp, n).span && Decrypted(p, o).Some? && !IsTransferEnd(Decrypted(p, o).value)
    ensures var f, inner := KeyExchangeEffect(n, t, temp, classes, p, o), Decrypted(p, o).value;
            if !IsKeyGet(inner) then f.session == Some(t) && f.actions == []
            else
              var bit := inner[2] as KeyMask;
              if t.granted & bit == 0 then f.session == None && f.actions == [SendEncrypted(KexFail(0x08))]
              else if NamesOneClass(bit) && o.keysLoaded then
                && f.session == Some(t.(phase := AwaitClassNonceGet, installing := bit))
                && f.actions == [SendEncrypted(NetworkKey(bit))]
              else f.session == Some(t) && f.actions == []
  {}

  lemma {:induction false} OneGrantedClass(g: KeyMask, bit: KeyMask)
    requires IsGrant(g)
    ensures g & bit != 0 ==> (NamesOneClass(bit) <==> bit in {0x01, 0x02, 0x04})
  {
    assert g & 0x07 & 0x80 == 0;
  }

  /** In every run: the proof of a new key is confirmed if it opens under that key, and ends the session if not. */
  lemma {:induction false} ProofIsExact(events: seq<Event>, n: Node, p: seq<Byte>, o: Oracle)
    requires InPhase(Run(events), n, AwaitKeyVerify) && IsEncapsulation(p)
    ensures var s, e := Run(events), ApplicationCommand(n, p, o);
            if !NonceAvailable(s.classes, n, p) then Ignores(s, e)
            else if Decrypted(p, o).Some? then Reacts(s, e, n, [SendEncrypted(KeyVerified)], Some(AwaitNetworkKeyGet))
            else Reacts(s, e, n, [SendEncrypted(KexFail(0x09))], None)
  {
    RunKeepsInv(events);
    assert SessionInv(Run(events), n);
    ProofAt(Run(events), n, p, o);
  }

  lemma {:induction false} ProofAt(s: State, n: Node, p: seq<Byte>, o: Oracle)
    requires InPhase(s, n, AwaitKeyVerify) && IsEncapsulation(p) && PeerOf(s.temp, n).span
    ensures var e := ApplicationCommand(n, p, o);
            if !NonceAvailable(s.classes, n, p) then Ignores(s, e)
            else if Decrypted(p, o).Some? then Reacts(s, e, n, [SendEncrypted(KeyVerified)], Some(AwaitNetworkKeyGet))
            else Reacts(s, e, n, [SendEncrypted(KexFail(0x09))], None)
  {
    if !NonceAvailable(s.classes, n, p) {
      assert Step(s, ApplicationCommand(n, p, o)).sessions == s.sessions;
    }
  }
}
