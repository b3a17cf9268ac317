/** A node that plays its part completes the Security 2 handshake, whatever else has happened before. */
module S2Completion {
  import opened Bytes
  import opened Sequences
  import opened Kex
  import opened SpanManager
  import opened S2Encapsulation
  import opened S2Bootstrap
  import opened S2Handshake
  import opened S2KeyInstall
  import opened S2Reactions

  // ---- What the node sends -----------------------------------------------------------------------

  /** A KEX_REPORT that asks for something it may have. */
  predicate AsksForKeys(p: seq<Byte>) {
    6 <= |p| && p[0] == 0x9F && p[1] == 0x05 && Grantable(p) != 0
  }

  function Reporting(n: Node, p: seq<Byte>): Event { ApplicationCommand(n, p, WILLING) }

  /** From the inclusion to the agreed temporary keys; the operator is needed for the higher classes. */
  function Introduction(n: Node, p: seq<Byte>, pin: string): seq<Event>
    requires AsksForKeys(p)
  {
    [Included(n)] + [Reporting(n, p)] + [ShowsKey(n)]
    + if Grantable(p) & 0x06 != 0 then [ConfirmDsk(n, pin, WILLING)] else []
  }

  /** The encrypted echo of the grant. */
  function EchoOf(g: KeyMask): seq<Byte> {
    [0x9F, 0x06, 1, 2, 1, g as int]
  }

  function Encapsulated(n: Node, extensions: seq<Byte>, inner: seq<Byte>): Event {
    ApplicationCommand(n, Encapsulation(1, extensions, |inner|), Oracle(true, Some(inner), true))
  }

  function Echoing(n: Node, g: KeyMask): Event { Encapsulated(n, SpanExtension(), EchoOf(g)) }

  function Confirming(n: Node, g: KeyMask): seq<Event> {
    [AsksNonce(n)] + [Echoing(n, g)]
  }

  function Asking(n: Node, bit: KeyMask): Event { Encapsulated(n, [], [0x9F, 0x09, bit as int]) }
  function Proving(n: Node): Event { Encapsulated(n, SpanExtension(), [0x9F, 0x0B]) }

  /** One key: its request, the nonce for its channel, the proof that it is installed. */
  function InstallingOne(n: Node, bit: KeyMask): seq<Event> {
    [Asking(n, bit)] + [AsksNonce(n)] + [Proving(n)]
  }

  function InstallingAll(n: Node, bits: seq<KeyMask>): seq<Event> {
    if bits == [] then [] else InstallingAll(n, bits[..|bits| - 1]) + InstallingOne(n, bits[|bits| - 1])
  }

  function Ending(n: Node): Event { Encapsulated(n, [], [0x9F, 0x0C, 1]) }

  function Handshake(n: Node, p: seq<Byte>, pin: string, bits: seq<KeyMask>): seq<Event>
    requires AsksForKeys(p)
  {
    Introduction(n, p, pin) + Confirming(n, Grantable(p)) + InstallingAll(n, bits) + [Ending(n)]
  }

  // ---- What it gets ------------------------------------------------------------------------------

  function KeyIn(a: Action): seq<KeyMask> {
    if a.SendEncrypted? && a.message.NetworkKey? then [a.message.keyBit] else []
  }

  /** The keys sent to `n`, in order. */
  function KeysTo(log: seq<Entry>, n: Node): seq<KeyMask>
    decreases |log|
  {
    if log == [] then []
    else
      var x := log[|log| - 1];
      KeysTo(log[..|log| - 1], n) + if x.Out? && x.node == n then KeyIn(x.action) else []
  }

  lemma {:induction false} KeysAppend(log: seq<Entry>, x: Entry, n: Node)
    ensures KeysTo(log + [x], n) == KeysTo(log, n) + if x.Out? && x.node == n then KeyIn(x.action) else []
  {
    assert (log + [x])[..|log|] == log;
  }

  /** A reaction of one or two actions, seen by the keys it sends. */
  lemma {:induction false} KeysAfter(log: seq<Entry>, e: Event, n: Node, actions: seq<Action>)
    requires 1 <= |actions| <= 2 && (|actions| == 2 ==> KeyIn(actions[1]) == [])
    ensures KeysTo(log + [In(e)] + Outs(n, actions), n) == KeysTo(log, n) + KeyIn(actions[0])
  {
    var one := log + [In(e)] + [Out(n, actions[0])];
    KeysAppend(log, In(e), n);
    KeysAppend(log + [In(e)], Out(n, actions[0]), n);
    if |actions| == 1 {
      assert Outs(n, actions) == [Out(n, actions[0])];
    } else {
      KeysAppend(one, Out(n, actions[1]), n);
      assert log + [In(e)] + Outs(n, actions) == one + [Out(n, actions[1])];
    }
  }

  lemma {:induction false} RunAppend(events: seq<Event>, e: Event)
    ensures Run(events + [e]) == Step(Run(events), e)
  {
    assert (events + [e])[..|events|] == events;
  }

  /** `n` waits in `phase` with the grant `g`, having been sent `keys`. */
  ghost predicate Stands(events: seq<Event>, n: Node, phase: Phase, g: KeyMask, keys: seq<KeyMask>) {
    var s := Run(events);
    InPhase(s, n, phase) && s.sessions[n].granted == g && KeysTo(s.log, n) == keys
  }

  /** One more input of the script. */
  lemma {:induction false} StandsNext(
    events: seq<Event>, n: Node, phase: Phase, g: KeyMask, keys: seq<KeyMask>, e: Event, actions: seq<Action>,
    next: Phase)
    requires Stands(events, n, phase, g, keys) && phase != AwaitKexReport && !e.NodeIncluded?
    requires Reacts(Run(events), e, n, actions, Some(next)) && 1 <= |actions| <= 2
    requires |actions| == 2 ==> KeyIn(actions[1]) == []
    ensures Stands(events + [e], n, next, g, keys + KeyIn(actions[0]))
  {
    RunAppend(events, e);
    KeysAfter(Run(events).log, e, n, actions);
  }

  // ---- The handshake, part by part ---------------------------------------------------------------

  lemma {:induction false} SessionStarts(events: seq<Event>, n: Node)
    requires Run(events).keysReady
    ensures InPhase(Run(events + [Included(n)]), n, AwaitKexReport)
    ensures KeysTo(Run(events + [Included(n)]).log, n) == KeysTo(Run(events).log, n)
  {
    InclusionStartsIff(Run(events), n, [COMMAND_CLASS]);
    RunAppend(events, Included(n));
    KeysAfter(Run(events).log, Included(n), n, [Send(KexGet)]);
  }

  lemma {:induction false} GrantIsGiven(events: seq<Event>, n: Node, p: seq<Byte>, keys: seq<KeyMask>)
    requires InPhase(Run(events), n, AwaitKexReport) && KeysTo(Run(events).log, n) == keys && AsksForKeys(p)
    ensures Stands(events + [Reporting(n, p)], n, AwaitPublicKey, Grantable(p), keys)
  {
    var e := Reporting(n, p);
    ReportIsAnswered(Run(events), n, p, WILLING);
    RunAppend(events, e);
    KeysAfter(Run(events).log, e, n, [Send(KexSetMessage(KexSet(false, false, 0x02, 0x01, Grantable(p))))]);
  }

  lemma {:induction false} KeysAreAgreed(events: seq<Event>, n: Node, g: KeyMask, pin: string, keys: seq<KeyMask>)
    requires Stands(events, n, AwaitPublicKey, g, keys) && IsPin(pin)
    ensures Stands(events + [ShowsKey(n)] + (if g & 0x06 != 0 then [ConfirmDsk(n, pin, WILLING)] else []),
                   n, AwaitTempChannel, g, keys)
  {
    var e, p := ShowsKey(n), ShowsKey(n).ccData;
    assert |p| == 35;
    PublicKeyIsAnswered(Run(events), n, p, WILLING);
    if g & 0x06 != 0 {
      StandsNext(events, n, AwaitPublicKey, g, keys, e, [Send(OwnPublicKey), PromptDsk], AwaitDsk);
      ConfirmationResumesIff(Run(events + [e]), n, pin, WILLING);
      StandsNext(events + [e], n, AwaitDsk, g, keys, ConfirmDsk(n, pin, WILLING),
                 [ClearDskPrompt, KeyAgreementComplete], AwaitTempChannel);
      assert keys + [] == keys;
    } else {
      StandsNext(events, n, AwaitPublicKey, g, keys, e, [Send(OwnPublicKey), KeyAgreementComplete], AwaitTempChannel);
      assert keys + [] == keys && events + [e] + [] == events + [e];
    }
  }

  lemma {:induction false} NonceForEcho(events: seq<Event>, n: Node, g: KeyMask, keys: seq<KeyMask>)
    requires Stands(events, n, AwaitTempChannel, g, keys)
    ensures Stands(events + [AsksNonce(n)], n, AwaitKexSetEcho, g, keys)
    ensures PeerOf(Run(events + [AsksNonce(n)]).temp, n).ourRei
  {
    NonceIsAnswered(Run(events), n, [0x9F, 0x01, 0], WILLING);
    RunAppend(events, AsksNonce(n));
    StandsNext(events, n, AwaitTempChannel, g, keys, AsksNonce(n), [Send(NonceReport)], AwaitKexSetEcho);
    assert keys + [] == keys;
  }

  lemma {:induction false} EchoIsAccepted(events: seq<Event>, n: Node, g: KeyMask, keys: seq<KeyMask>)
    requires Stands(events, n, AwaitKexSetEcho, g, keys) && PeerOf(Run(events).temp, n).ourRei
    ensures Stands(events + [Echoing(n, g)], n, AwaitNetworkKeyGet, g, keys)
  {
    var e, s := Echoing(n, g), Run(events);
    SpanExtensionIsCarried(1, 6);
    EncapsulationOpens(1, SpanExtension(), EchoOf(g));
    assert Opened(s, n, e.ccData, e.oracle) == Some(EchoOf(g)) && RepeatsGrant(EchoOf(g), g);
    EchoIsCompared(events, n, e.ccData, e.oracle);
    StandsNext(events, n, AwaitKexSetEcho, g, keys, e,
               [SendEncrypted(KexReportEcho(s.sessions[n].report.(echo := true)))], AwaitNetworkKeyGet);
    assert keys + [] == keys;
  }

  lemma {:induction false} GrantIsConfirmed(events: seq<Event>, n: Node, g: KeyMask, keys: seq<KeyMask>)
    requires Stands(events, n, AwaitTempChannel, g, keys)
    ensures Stands(events + Confirming(n, g), n, AwaitNetworkKeyGet, g, keys)
  {
    NonceForEcho(events, n, g, keys);
    EchoIsAccepted(events + [AsksNonce(n)], n, g, keys);
    ConcatAssociative(events, [AsksNonce(n)], [Echoing(n, g)]);
  }

  /** One class of the grant. */
  predicate MayAsk(g: KeyMask, bit: KeyMask) {
    bit in {0x01, 0x02, 0x04} && g & bit != 0
  }

  lemma {:induction false} KeyIsSent(events: seq<Event>, n: Node, g: KeyMask, keys: seq<KeyMask>, bit: KeyMask)
    requires Stands(events, n, AwaitNetworkKeyGet, g, keys) && MayAsk(g, bit)
    ensures Stands(events + [Asking(n, bit)], n, AwaitClassNonceGet, g, keys + [bit])
  {
    var e, inner: seq<Byte> := Asking(n, bit), [0x9F, 0x09, bit as int];
    EncapsulationOpens(1, [], inner);
    ExchangeIsExact(events, n, e.ccData, e.oracle);
    assert IsKeyGet(inner) && inner[2] as KeyMask == bit;
    StandsNext(events, n, AwaitNetworkKeyGet, g, keys, e, [SendEncrypted(NetworkKey(bit))], AwaitClassNonceGet);
  }

  lemma {:induction false} NonceForProof(events: seq<Event>, n: Node, g: KeyMask, keys: seq<KeyMask>)
    requires Stands(events, n, AwaitClassNonceGet, g, keys)
    ensures Stands(events + [AsksNonce(n)], n, AwaitKeyVerify, g, keys)
    ensures PeerOf(Run(events + [AsksNonce(n)]).classes, n).ourRei
  {
    NonceIsAnswered(Run(events), n, [0x9F, 0x01, 0], WILLING);
    RunAppend(events, AsksNonce(n));
    StandsNext(events, n, AwaitClassNonceGet, g, keys, AsksNonce(n), [Send(NonceReport)], AwaitKeyVerify);
    assert keys + [] == keys;
  }

  lemma {:induction false} KeyIsProved(events: seq<Event>, n: Node, g: KeyMask, keys: seq<KeyMask>)
    requires Stands(events, n, AwaitKeyVerify, g, keys) && PeerOf(Run(events).classes, n).ourRei
    ensures Stands(events + [Proving(n)], n, AwaitNetworkKeyGet, g, keys)
  {
    var e := Proving(n);
    SpanExtensionIsCarried(1, 2);
    EncapsulationOpens(1, SpanExtension(), [0x9F, 0x0B]);
    ProofIsExact(events, n, e.ccData, e.oracle);
    StandsNext(events, n, AwaitKeyVerify, g, keys, e, [SendEncrypted(KeyVerified)], AwaitNetworkKeyGet);
    assert keys + [] == keys;
  }

  lemma {:induction false} KeyIsInstalled(events: seq<Event>, n: Node, g: KeyMask, keys: seq<KeyMask>, bit: KeyMask)
    requires Stands(events, n, AwaitNetworkKeyGet, g, keys) && MayAsk(g, bit)
    ensures Stands(events + InstallingOne(n, bit), n, AwaitNetworkKeyGet, g, keys + [bit])
  {
    var a, b, c := [Asking(n, bit)], [AsksNonce(n)], [Proving(n)];
    KeyIsSent(events, n, g, keys, bit);
    NonceForProof(events + a, n, g, keys + [bit]);
    KeyIsProved(events + a + b, n, g, keys + [bit]);
    ConcatAssociative(events, a, b);
    ConcatAssociative(events, a + b, c);
  }

  lemma {:induction false} NoneInstalled(events: seq<Event>, n: Node, keys: seq<KeyMask>)
    ensures events + InstallingAll(n, []) == events && keys + [] == keys
  {}

  lemma {:induction false} LastInstalled(events: seq<Event>, n: Node, keys: seq<KeyMask>, bits: seq<KeyMask>)
    requires bits != []
    ensures var front, bit := bits[..|bits| - 1], bits[|bits| - 1];
            && events + InstallingAll(n, front) + InstallingOne(n, bit) == events + InstallingAll(n, bits)
            && keys + front + [bit] == keys + bits
  {
    var front, bit := bits[..|bits| - 1], bits[|bits| - 1];
    ConcatAssociative(events, InstallingAll(n, front), InstallingOne(n, bit));
    ConcatAssociative(keys, front, [bit]);
    assert front + [bit] == bits;
  }

  lemma {:induction false} KeysAreInstalled(
    events: seq<Event>, n: Node, g: KeyMask, keys: seq<KeyMask>, bits: seq<KeyMask>)
    requires Stands(events, n, AwaitNetworkKeyGet, g, keys)
    requires forall i :: 0 <= i < |bits| ==> MayAsk(g, bits[i])
    ensures Stands(events + InstallingAll(n, bits), n, AwaitNetworkKeyGet, g, keys + bits)
    decreases |bits|
  {
    if bits == [] {
      NoneInstalled(events, n, keys);
    } else {
      var front, bit := bits[..|bits| - 1], bits[|bits| - 1];
      KeysAreInstalled(events, n, g, keys, front);
      KeyIsInstalled(events + InstallingAll(n, front), n, g, keys + front, bit);
      LastInstalled(events, n, keys, bits);
    }
  }

  /** The session of `n` is over, and its last two emissions record and publish `scheme`. */
  ghost predicate Completed(s: State, n: Node, scheme: Scheme) {
    && n !in s.sessions && 2 <= |s.log|
    && s.log[|s.log| - 2..] == [Out(n, RecordScheme(scheme)), Out(n, PublishSecurityStatus(scheme))]
  }

  lemma {:induction false} SessionEnds(events: seq<Event>, n: Node, g: KeyMask, keys: seq<KeyMask>)
    requires Stands(events, n, AwaitNetworkKeyGet, g, keys)
    ensures exists scheme :: IsHighest(scheme, g) && Completed(Run(events + [Ending(n)]), n, scheme)
    ensures KeysTo(Run(events + [Ending(n)]).log, n) == keys
  {
    var e, s := Ending(n), Run(events);
    EncapsulationOpens(1, [], [0x9F, 0x0C, 1]);
    var scheme := FinalEndCompletes(events, n, e.ccData, e.oracle);
    RunAppend(events, e);
    KeysAfter(s.log, e, n, [RecordScheme(scheme), PublishSecurityStatus(scheme)]);
    LastTwo(s.log + [In(e)], n, RecordScheme(scheme), PublishSecurityStatus(scheme));
    assert Completed(Run(events + [e]), n, scheme);
  }

  lemma {:induction false} LastTwo(log: seq<Entry>, n: Node, a: Action, b: Action)
    ensures var all := log + Outs(n, [a, b]); |all| >= 2 && all[|all| - 2..] == [Out(n, a), Out(n, b)]
  {}

  lemma {:induction false} IntroductionSucceeds(events: seq<Event>, n: Node, p: seq<Byte>, pin: string)
    requires Run(events).keysReady && AsksForKeys(p) && IsPin(pin)
    ensures Stands(events + Introduction(n, p, pin), n, AwaitTempChannel, Grantable(p), KeysTo(Run(events).log, n))
  {
    var g, keys := Grantable(p), KeysTo(Run(events).log, n);
    var a, b, c := [Included(n)], [Reporting(n, p)], [ShowsKey(n)];
    var d := if g & 0x06 != 0 then [ConfirmDsk(n, pin, WILLING)] else [];
    SessionStarts(events, n);
    GrantIsGiven(events + a, n, p, keys);
    KeysAreAgreed(events + a + b, n, g, pin, keys);
    ConcatAssociative(events, a, b);
    ConcatAssociative(events, a + b, c);
    ConcatAssociative(events, a + b + c, d);
  }

  /**
   * After any run that loaded the network keys, a node that reports, shows its key, is confirmed where it has to
   * be, echoes its grant and asks for any of its classes in any order is sent exactly those keys and ends with
   * the highest class it was granted.
   */
  lemma {:induction false} WillingNodeCompletes(
    events: seq<Event>, n: Node, p: seq<Byte>, pin: string, bits: seq<KeyMask>)
    requires Run(events).keysReady && AsksForKeys(p) && IsPin(pin)
    requires forall i :: 0 <= i < |bits| ==> MayAsk(Grantable(p), bits[i])
    ensures var after := Run(events + Handshake(n, p, pin, bits));
            && (exists scheme :: IsHighest(scheme, Grantable(p)) && Completed(after, n, scheme))
            && KeysTo(after.log, n) == KeysTo(Run(events).log, n) + bits
  {
    var g, keys := Grantable(p), KeysTo(Run(events).log, n);
    var a, b, c := Introduction(n, p, pin), Confirming(n, g), InstallingAll(n, bits);
    IntroductionSucceeds(events, n, p, pin);
    GrantIsConfirmed(events + a, n, g, keys);
    KeysAreInstalled(events + a + b, n, g, keys, bits);
    SessionEnds(events + a + b + c, n, g, keys + bits);
    ConcatAssociative(events, a, b);
    ConcatAssociative(events, a + b, c);
    ConcatAssociative(events, a + b + c, [Ending(n)]);
  }
}
