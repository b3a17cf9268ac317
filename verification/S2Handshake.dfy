/** What every run of the Security 2 handshake guarantees. */
module S2Handshake {
  import opened Bytes
  import opened Kex
  import opened SpanManager
  import opened S2Bootstrap

  // ---- The order of what precedes a key transfer -------------------------------------------------

  predicate StartsSession(x: Entry, n: Node) {
    x == Out(n, Send(KexGet))
  }

  predicate IsInclusion(x: Entry, n: Node) {
    x.In? && x.event.NodeIncluded? && x.event.node == n && COMMAND_CLASS in x.event.commandClasses
  }

  /** The report a KEX_REPORT carries. */
  function ReportIn(x: Entry): Option<KexReport> {
    if x.In? && x.event.ApplicationCommand? then DecodeReport(x.event.ccData) else None
  }

  /** A KEX_REPORT from `n` for which the grant is `g`, and not empty. */
  predicate IsGrantedReport(x: Entry, n: Node, g: KeyMask) {
    && x.In? && x.event.ApplicationCommand? && x.event.node == n
    && ReportIn(x).Some? && GrantKeys(ReportIn(x).value) == g && g != 0
  }

  predicate IsPublicKey(x: Entry, n: Node) {
    x.In? && x.event.ApplicationCommand? && x.event.node == n && IsPublicKeyReport(x.event.ccData)
  }

  predicate IsConfirmation(x: Entry, n: Node) {
    x.In? && x.event.ConfirmDsk? && x.event.node == n && WellFormedPin(x.event.pin)
  }

  predicate IsNonceGet(x: Entry, n: Node) {
    x.In? && x.event.ApplicationCommand? && x.event.node == n && CommandByte(x.event.ccData) == Some(NONCE_GET)
  }

  /** An encrypted frame from `n` that decrypts. */
  predicate Opens(x: Entry, n: Node) {
    && x.In? && x.event.ApplicationCommand? && x.event.node == n
    && CommandByte(x.event.ccData) == Some(MESSAGE_ENCAPSULATION)
    && Decrypted(x.event.ccData, x.event.oracle).Some?
  }

  function Plain(x: Entry): seq<Byte> {
    if x.In? && x.event.ApplicationCommand? && Decrypted(x.event.ccData, x.event.oracle).Some?
    then Decrypted(x.event.ccData, x.event.oracle).value else []
  }

  /** An encrypted KEX_SET that repeats scheme, curve and grant. */
  predicate IsMatchingEcho(x: Entry, n: Node, g: KeyMask) {
    Opens(x, n) && EchoMatches(Plain(x), SetFor(g))
  }

  /** An encrypted request for the key of one class. */
  predicate IsKeyRequest(x: Entry, n: Node, bit: KeyMask) {
    Opens(x, n) && DecodeKeyGet(Plain(x)) == Some(bit)
  }

  /** The encrypted frame that closes the key exchange. */
  predicate IsFinalEnd(x: Entry, n: Node) {
    Opens(x, n) && IsKeyRequestComplete(Plain(x))
  }

  /** Positions in the log of the milestones of one session. */
  datatype Witness = Witness(start: nat, kex: nat, key: nat, dsk: nat, nonce: nat, echo: nat)

  function Rank(p: Phase): nat {
    match p
    case AwaitKexReport => 0
    case AwaitPublicKey => 1
    case AwaitDsk => 2
    case AwaitTempChannel => 3
    case AwaitKexSetEcho => 4
    case _ => 5
  }

  predicate NeedsDsk(g: KeyMask) {
    Includes(g, DSK_REQUIRED_KEYS)
  }

  /** The input at `i` was answered at once with `a`. */
  predicate Answered(log: seq<Entry>, i: nat, n: Node, a: Action) {
    i + 1 < |log| && log[i + 1] == Out(n, a)
  }

  /**
   * The milestones up to `rank` are in the log, in order, after the last session start of `n`, and each was
   * accepted: the answer that belongs to it stands right behind it.
   */
  ghost predicate Milestones(log: seq<Entry>, n: Node, rank: nat, g: KeyMask, w: Witness) {
    && 0 < w.start < |log| && StartsSession(log[w.start], n) && IsInclusion(log[w.start - 1], n)
    && (forall k :: w.start < k < |log| ==> !StartsSession(log[k], n))
    && (rank >= 1 ==>
          && w.start < w.kex < |log| && IsGrantedReport(log[w.kex], n, g)
          && Answered(log, w.kex, n, Send(KexSetMessage(SetFor(g)))))
    && (rank >= 2 ==>
          w.kex < w.key < |log| && IsPublicKey(log[w.key], n) && Answered(log, w.key, n, Send(OwnPublicKey)))
    && (rank >= 3 ==>
          && w.key <= w.dsk < |log| && Answered(log, w.dsk + 1, n, KeyAgreementComplete)
          && (NeedsDsk(g) ==>
                w.key < w.dsk && IsConfirmation(log[w.dsk], n) && Answered(log, w.dsk, n, ClearDskPrompt)))
    && (rank >= 4 ==>
          w.dsk < w.nonce < |log| && IsNonceGet(log[w.nonce], n) && Answered(log, w.nonce, n, Send(NonceReport)))
    && (rank >= 5 ==>
          && w.nonce < w.echo < |log| && IsMatchingEcho(log[w.echo], n, g)
          && Answered(log, w.echo, n, SendEncrypted(KexReportEcho(ReportIn(log[w.kex]).value.(echo := true)))))
  }

  /** The whole handshake of `n` lies behind, with the grant `g`. */
  ghost predicate HandshakeDone(log: seq<Entry>, n: Node, g: KeyMask) {
    exists w: Witness :: Milestones(log, n, 5, g, w)
  }

  /** An attempt to send a network key. */
  predicate CarriesKey(a: Action) {
    (a.SendEncrypted? || a.DropUnencryptable?) && a.message.NetworkKey?
  }

  predicate IsKeyTransfer(x: Entry) {
    x.Out? && CarriesKey(x.action)
  }

  /** An emission that needs a justification. */
  predicate IsCritical(a: Action) {
    CarriesKey(a) || a.RecordScheme? || a == Send(KexGet)
  }

  /** What the input `x` must be for a session with grant `g` to emit `a`. */
  predicate Warranted(x: Entry, n: Node, g: KeyMask, a: Action) {
    if a.RecordScheme? then IsFinalEnd(x, n) && IsHighest(a.scheme, g)
    else if CarriesKey(a) then
      && IsKeyRequest(x, n, a.message.keyBit)
      && NamesOneClass(a.message.keyBit) && Includes(g, a.message.keyBit)
    else true
  }

  /** The whole handshake with grant `g` lies behind the input `x` that makes the session emit `a`. */
  ghost predicate Earned(before: seq<Entry>, x: Entry, n: Node, g: KeyMask, a: Action) {
    HandshakeDone(before, n, g) && Warranted(x, n, g, a)
  }

  /**
   * What must be true for `a` to go to `n` in answer to `x`: a session starts from an inclusion; a key and a
   * completion need the whole handshake and their request.
   */
  ghost predicate Justified(before: seq<Entry>, x: Entry, n: Node, a: Action) {
    if a == Send(KexGet) then IsInclusion(x, n) else exists g: KeyMask :: Earned(before, x, n, g, a)
  }

  ghost predicate JustifiedAt(log: seq<Entry>, i: nat)
    requires i < |log|
  {
    log[i].Out? && IsCritical(log[i].action) ==>
      0 < i && Justified(log[..i - 1], log[i - 1], log[i].node, log[i].action)
  }

  ghost predicate CriticalJustified(log: seq<Entry>) {
    forall i :: 0 <= i < |log| ==> JustifiedAt(log, i)
  }

  // ---- A monitor over what is emitted for one node ----------------------------------------------

  /**
   * The specification automaton. It reads only what was emitted for one node and moves to Violation when
   * that is out of place: anything outside a session, a second grant, a key while another is unverified,
   * a key outside the grant, a verification without a key, a completion with a key unverified or with a
   * scheme other than the highest granted class, anything after the end of a session.
   */
  datatype Monitor =
    | Idle
    | Negotiating
    | Granted(keys: KeyMask)
    | Installing(keys: KeyMask, bit: KeyMask)
    | Recorded(scheme: Scheme)
    | Violation

  function Observe(m: Monitor, a: Action): Monitor {
    if m.Violation? then Violation
    else if a == Send(KexGet) then Negotiating
    else if m.Idle? then Violation
    else if m.Recorded? then (if a == PublishSecurityStatus(m.scheme) then Idle else Violation)
    else
      match a
      case Send(KexFail(_)) => Idle
      case SendEncrypted(KexFail(_)) => if m.Negotiating? then Violation else Idle
      case Send(KexSetMessage(content)) => if m.Negotiating? then Granted(content.grantedKeys) else Violation
      case Send(OwnPublicKey) => if m.Granted? then m else Violation
      case Send(NonceReport) => if m.Negotiating? then Violation else m
      case PromptDsk => if m.Granted? && NeedsDsk(m.keys) then m else Violation
      case ClearDskPrompt => if m.Granted? && NeedsDsk(m.keys) then m else Violation
      case KeyAgreementComplete => if m.Granted? then m else Violation
      case SendEncrypted(KexReportEcho(_)) => if m.Granted? then m else Violation
      case SendEncrypted(NetworkKey(bit)) =>
        if m.Granted? && Includes(m.keys, bit) then Installing(m.keys, bit) else Violation
      case SendEncrypted(KeyVerified) => if m.Installing? then Granted(m.keys) else Violation
      case RecordScheme(scheme) => if m.Granted? && IsHighest(scheme, m.keys) then Recorded(scheme) else Violation
      case _ => Violation
  }

  function ObserveAll(m: Monitor, actions: seq<Action>): Monitor
    decreases |actions|
  {
    if actions == [] then m else Observe(ObserveAll(m, actions[..|actions| - 1]), actions[|actions| - 1])
  }

  /** The monitor of `n` after a whole log. */
  function Track(log: seq<Entry>, n: Node): Monitor
    decreases |log|
  {
    if log == [] then Idle
    else
      var m, x := Track(log[..|log| - 1], n), log[|log| - 1];
      if x.Out? && x.node == n then Observe(m, x.action) else m
  }

  /** The monitor state a session corresponds to. */
  function MonitorOf(s: Session): Monitor {
    if s.phase.AwaitKexReport? then Negotiating
    else if s.phase.AwaitClassNonceGet? || s.phase.AwaitKeyVerify? then Installing(s.granted, s.installing)
    else Granted(s.granted)
  }

  // ---- The invariant -----------------------------------------------------------------------------

  /** The part of the invariant that concerns a session alone. */
  predicate WellKept(n: Node, t: Session, temp: Manager) {
    && (t.phase != AwaitKexReport ==> t.sent == SetFor(t.granted))
    && (t.phase == AwaitDsk ==> NeedsDsk(t.granted))
    && (Rank(t.phase) == 5 ==> PeerOf(temp, n).span)
  }

  /** The session's past is in the log, and it still holds the report it was granted for. */
  ghost predicate TracedBy(log: seq<Entry>, n: Node, t: Session, w: Witness) {
    && Milestones(log, n, Rank(t.phase), t.granted, w)
    && (Rank(t.phase) >= 1 ==> ReportIn(log[w.kex]) == Some(t.report))
  }

  ghost predicate Traced(log: seq<Entry>, n: Node, t: Session) {
    exists w :: TracedBy(log, n, t, w)
  }

  ghost predicate SessionInv(s: State, n: Node)
    requires n in s.sessions
  {
    WellKept(n, s.sessions[n], s.temp) && Traced(s.log, n, s.sessions[n])
  }

  ghost predicate Inv(s: State) {
    && CriticalJustified(s.log)
    && (forall n :: n in s.sessions ==> SessionInv(s, n))
    && (forall n: Node :: Track(s.log, n) == if n in s.sessions then MonitorOf(s.sessions[n]) else Idle)
  }

  function After(log: seq<Entry>, e: Event, n: Node, actions: seq<Action>): seq<Entry> {
    log + [In(e)] + Outs(n, actions)
  }

  /** What an effect on node `n` must satisfy for the invariant to survive it. */
  ghost predicate Sound(s: State, e: Event, n: Node, f: Effect) {
    && (forall m: Node :: m != n ==> PeerOf(f.temp, m) == PeerOf(s.temp, m))
    && (forall i :: 0 <= i < |f.actions| && IsCritical(f.actions[i]) ==>
          i == 0 && Justified(s.log, In(e), n, f.actions[i]))
    && ObserveAll(Track(s.log, n), f.actions) == (if f.session.Some? then MonitorOf(f.session.value) else Idle)
    && (f.session.Some? ==> SessionInv(Apply(s, e, n, f), n))
  }

  lemma {:induction false} TrackAppend(log: seq<Entry>, x: Entry, n: Node)
    ensures Track(log + [x], n) == if x.Out? && x.node == n then Observe(Track(log, n), x.action) else Track(log, n)
  {
    assert (log + [x])[..|log|] == log;
  }

  lemma {:induction false} AfterAppend(log: seq<Entry>, e: Event, n: Node, actions: seq<Action>)
    requires actions != []
    ensures After(log, e, n, actions)
            == After(log, e, n, actions[..|actions| - 1]) + [Out(n, actions[|actions| - 1])]
  {}

  lemma {:induction false} TrackSame(log: seq<Entry>, e: Event, n: Node, actions: seq<Action>)
    ensures Track(After(log, e, n, actions), n) == ObserveAll(Track(log, n), actions)
    decreases |actions|
  {
    if actions == [] {
      assert After(log, e, n, actions) == log + [In(e)];
      TrackAppend(log, In(e), n);
    } else {
      var front, a := actions[..|actions| - 1], actions[|actions| - 1];
      TrackSame(log, e, n, front);
      AfterAppend(log, e, n, actions);
      TrackAppend(After(log, e, n, front), Out(n, a), n);
    }
  }

  lemma {:induction false} TrackOther(log: seq<Entry>, e: Event, n: Node, actions: seq<Action>, m: Node)
    requires m != n
    ensures Track(After(log, e, n, actions), m) == Track(log, m)
    decreases |actions|
  {
    if actions == [] {
      assert After(log, e, n, actions) == log + [In(e)];
      TrackAppend(log, In(e), m);
    } else {
      var front, a := actions[..|actions| - 1], actions[|actions| - 1];
      TrackOther(log, e, n, front, m);
      AfterAppend(log, e, n, actions);
      TrackAppend(After(log, e, n, front), Out(n, a), m);
    }
  }

  lemma {:induction false} MilestonesKeep(log: seq<Entry>, more: seq<Entry>, n: Node, rank: nat, g: KeyMask, w: Witness)
    requires Milestones(log, n, rank, g, w)
    requires forall x :: x in more ==> !StartsSession(x, n)
    ensures Milestones(log + more, n, rank, g, w)
  {
    forall k | w.start < k < |log + more|
      ensures !StartsSession((log + more)[k], n)
    {
      if k >= |log| {
        assert (log + more)[k] in more;
      }
    }
  }

  lemma {:induction false} CriticalKeep(s: State, e: Event, n: Node, f: Effect)
    requires CriticalJustified(s.log) && Sound(s, e, n, f)
    ensures CriticalJustified(Apply(s, e, n, f).log)
  {
    CriticalExtends(s.log, e, n, f.actions);
    assert Apply(s, e, n, f).log == After(s.log, e, n, f.actions);
  }

  lemma {:induction false} CriticalExtends(log: seq<Entry>, e: Event, n: Node, actions: seq<Action>)
    requires CriticalJustified(log)
    requires forall i :: 0 <= i < |actions| && IsCritical(actions[i]) ==> i == 0 && Justified(log, In(e), n, actions[i])
    ensures CriticalJustified(After(log, e, n, actions))
  {
    var all := After(log, e, n, actions);
    forall i | 0 <= i < |all|
      ensures JustifiedAt(all, i)
    {
      if i < |log| {
        assert JustifiedAt(log, i);
        JustifiedInPrefix(log, [In(e)] + Outs(n, actions), i);
        assert all == log + ([In(e)] + Outs(n, actions));
      } else if i > |log| {
        assert all[i] == Out(n, actions[i - |log| - 1]);
        assert all[..|log|] == log && all[|log|] == In(e);
      }
    }
  }

  lemma {:induction false} JustifiedInPrefix(log: seq<Entry>, more: seq<Entry>, i: nat)
    requires i < |log| && JustifiedAt(log, i)
    ensures JustifiedAt(log + more, i)
  {
    if 0 < i {
      assert (log + more)[..i - 1] == log[..i - 1];
    }
  }

  lemma {:induction false} TracedKeeps(log: seq<Entry>, e: Event, n: Node, actions: seq<Action>, m: Node, t: Session)
    requires Traced(log, m, t) && m != n
    ensures Traced(After(log, e, n, actions), m, t)
  {
    var w :| TracedBy(log, m, t, w);
    var more := [In(e)] + Outs(n, actions);
    assert After(log, e, n, actions) == log + more;
    MilestonesKeep(log, more, m, Rank(t.phase), t.granted, w);
    assert TracedBy(log + more, m, t, w);
  }

  lemma {:induction false} OthersKeep(s: State, e: Event, n: Node, f: Effect, m: Node)
    requires PeerOf(f.temp, m) == PeerOf(s.temp, m) && m != n && m in s.sessions && SessionInv(s, m)
    ensures SessionInv(Apply(s, e, n, f), m)
  {
    TracedKeeps(s.log, e, n, f.actions, m, s.sessions[m]);
    assert Apply(s, e, n, f).log == After(s.log, e, n, f.actions);
    assert Apply(s, e, n, f).sessions[m] == s.sessions[m];
  }

  lemma {:induction false} SoundEffectKeepsInv(s: State, e: Event, n: Node, f: Effect)
    requires Inv(s) && Sound(s, e, n, f)
    ensures Inv(Apply(s, e, n, f))
  {
    var s' := Apply(s, e, n, f);
    CriticalKeep(s, e, n, f);
    forall m | m in s'.sessions
      ensures SessionInv(s', m)
    {
      if m != n {
        OthersKeep(s, e, n, f, m);
      }
    }
    forall m: Node
      ensures Track(s'.log, m) == if m in s'.sessions then MonitorOf(s'.sessions[m]) else Idle
    {
      if m == n {
        TrackSame(s.log, e, n, f.actions);
      } else {
        TrackOther(s.log, e, n, f.actions, m);
      }
    }
  }

  // ---- Every reaction is sound -------------------------------------------------------------------

  lemma {:induction false} ObserveShort(m: Monitor, a: Action, b: Action)
    ensures ObserveAll(m, []) == m
    ensures ObserveAll(m, [a]) == Observe(m, a)
    ensures ObserveAll(m, [a, b]) == Observe(Observe(m, a), b)
  {
    assert [a][..0] == [] && [a, b][..1] == [a];
  }

  /** What the reaction of session `t` of node `n` to the input `x` does, apart from the log. */
  ghost predicate Orderly(x: Entry, n: Node, t: Session, temp: Manager, f: Effect) {
    && (forall m: Node :: m != n ==> PeerOf(f.temp, m) == PeerOf(temp, m))
    && Send(KexGet) !in f.actions
    && (forall i :: 0 <= i < |f.actions| && IsCritical(f.actions[i]) ==>
          i == 0 && Rank(t.phase) == 5 && Warranted(x, n, t.granted, f.actions[i]))
    && ObserveAll(MonitorOf(t), f.actions) == (if f.session.Some? then MonitorOf(f.session.value) else Idle)
    && (f.session.Some? ==> WellKept(n, f.session.value, f.temp))
  }

  /** One emission, or two, read by the monitor of a session. */
  lemma {:induction false} ObserveActions(m: Monitor, actions: seq<Action>)
    ensures actions == [] ==> ObserveAll(m, actions) == m
    ensures |actions| == 1 ==> ObserveAll(m, actions) == Observe(m, actions[0])
    ensures |actions| == 2 ==> ObserveAll(m, actions) == Observe(Observe(m, actions[0]), actions[1])
  {
    if |actions| == 1 {
      assert actions == [actions[0]];
      ObserveShort(m, actions[0], PromptDsk);
    } else if |actions| == 2 {
      assert actions == [actions[0], actions[1]];
      ObserveShort(m, actions[0], actions[1]);
    }
  }

  lemma {:induction false} KexReportIsOrderly(
    x: Entry, n: Node, t: Session, temp: Manager, classes: Manager, ccData: seq<Byte>)
    requires WellKept(n, t, temp) && t.phase == AwaitKexReport
    ensures Orderly(x, n, t, temp, KexReportEffect(t, temp, classes, ccData))
  {
    ObserveActions(MonitorOf(t), KexReportEffect(t, temp, classes, ccData).actions);
  }

  lemma {:induction false} FinishIsOrderly(
    x: Entry, n: Node, t: Session, temp: Manager, classes: Manager, agrees: bool, first: Action)
    requires WellKept(n, t, temp) && MonitorOf(t).Granted? && Observe(MonitorOf(t), first) == MonitorOf(t)
    requires !IsCritical(first)
    ensures Orderly(x, n, t, temp, AgreementEffect(t, temp, classes, agrees, [first]))
  {
    ObserveActions(MonitorOf(t), AgreementEffect(t, temp, classes, agrees, [first]).actions);
  }

  lemma {:induction false} PublicKeyIsOrderly(
    x: Entry, n: Node, t: Session, temp: Manager, classes: Manager, ccData: seq<Byte>, o: Oracle)
    requires WellKept(n, t, temp) && t.phase == AwaitPublicKey
    ensures Orderly(x, n, t, temp, PublicKeyEffect(t, temp, classes, ccData, o))
  {
    FinishIsOrderly(x, n, t, temp, classes, o.agrees, Send(OwnPublicKey));
    ObserveActions(MonitorOf(t), [Send(OwnPublicKey), PromptDsk]);
  }

  lemma {:induction false} EchoIsOrderly(
    x: Entry, n: Node, t: Session, temp: Manager, classes: Manager, frame: seq<Byte>, o: Oracle)
    requires WellKept(n, t, temp) && t.phase == AwaitKexSetEcho
    ensures Orderly(x, n, t, temp, EchoEffect(n, t, temp, classes, frame, o))
  {
    ObserveActions(MonitorOf(t), EchoEffect(n, t, temp, classes, frame, o).actions);
  }

  /** The reaction to a decrypted frame while key requests are open. */
  lemma {:induction false} RequestIsOrderly(x: Entry, n: Node, t: Session, temp: Manager, f: Effect, a: Action)
    requires t.phase == AwaitNetworkKeyGet && WellKept(n, t, temp)
    requires f.actions == [a] && a.SendEncrypted? && (forall m: Node :: m != n ==> PeerOf(f.temp, m) == PeerOf(temp, m))
    requires || (a.message.KexFail? && f.session == None)
             || (a.message.NetworkKey? && Warranted(x, n, t.granted, a) && PeerOf(f.temp, n).span
                 && f.session == Some(t.(phase := AwaitClassNonceGet, installing := a.message.keyBit)))
    ensures Orderly(x, n, t, temp, f)
  {
    ObserveActions(MonitorOf(t), f.actions);
  }

  lemma {:induction false} CompletionIsOrderly(x: Entry, n: Node, t: Session, temp: Manager, f: Effect)
    requires t.phase == AwaitNetworkKeyGet && IsGrant(t.granted) && IsFinalEnd(x, n) && f.session == None
    requires var scheme := SchemeFor(t.granted); f.actions == [RecordScheme(scheme), PublishSecurityStatus(scheme)]
    requires forall m: Node :: m != n ==> PeerOf(f.temp, m) == PeerOf(temp, m)
    ensures Orderly(x, n, t, temp, f)
  {
    SchemeIsHighest(t.granted, SchemeFor(t.granted));
    ObserveActions(MonitorOf(t), f.actions);
  }

  lemma {:induction false} KeyExchangeIsOrderly(
    n: Node, t: Session, temp: Manager, classes: Manager, frame: seq<Byte>, o: Oracle)
    requires WellKept(n, t, temp) && t.phase == AwaitNetworkKeyGet && IsGrant(t.granted)
    requires CommandByte(frame) == Some(MESSAGE_ENCAPSULATION)
    ensures Orderly(In(ApplicationCommand(n, frame, o)), n, t, temp, KeyExchangeEffect(n, t, temp, classes, frame, o))
  {
    var x := In(ApplicationCommand(n, frame, o));
    var f := KeyExchangeEffect(n, t, temp, classes, frame, o);
    if f.actions == [] {
      ObserveActions(MonitorOf(t), f.actions);
    } else if |f.actions| == 2 {
      CompletionIsOrderly(x, n, t, temp, f);
    } else {
      RequestIsOrderly(x, n, t, temp, f, f.actions[0]);
    }
  }

  lemma {:induction false} KeyVerifyIsOrderly(
    x: Entry, n: Node, t: Session, temp: Manager, classes: Manager, frame: seq<Byte>, o: Oracle)
    requires WellKept(n, t, temp) && t.phase == AwaitKeyVerify
    ensures Orderly(x, n, t, temp, KeyVerifyEffect(n, t, temp, classes, frame, o))
  {
    ObserveActions(MonitorOf(t), KeyVerifyEffect(n, t, temp, classes, frame, o).actions);
  }

  lemma {:induction false} QuietIsOrderly(x: Entry, n: Node, t: Session, temp: Manager, classes: Manager)
    requires WellKept(n, t, temp)
    ensures Orderly(x, n, t, temp, Quiet(t, temp, classes))
  {}

  lemma {:induction false} NonceReplyIsOrderly(
    x: Entry, n: Node, t: Session, temp: Manager, classes: Manager, u: Session, temp': Manager)
    requires WellKept(n, t, temp)
    requires || (t.phase == AwaitTempChannel && u == t.(phase := AwaitKexSetEcho)
                 && temp' == RespondToNonceGet(temp, n))
             || (t.phase == AwaitClassNonceGet && u == t.(phase := AwaitKeyVerify) && temp' == temp)
    ensures Orderly(x, n, t, temp, Effect(Some(u), temp', classes, [Send(NonceReport)]))
  {
    ObserveActions(MonitorOf(t), [Send(NonceReport)]);
  }

  lemma {:induction false} CommandIsOrderly(
    n: Node, t: Session, temp: Manager, classes: Manager, ccData: seq<Byte>, o: Oracle)
    requires WellKept(n, t, temp) && (t.phase != AwaitKexReport ==> IsGrant(t.granted))
    ensures Orderly(In(ApplicationCommand(n, ccData, o)), n, t, temp, CommandEffect(n, t, temp, classes, ccData, o))
  {
    var x := In(ApplicationCommand(n, ccData, o));
    QuietIsOrderly(x, n, t, temp, classes);
    match t.phase
    case AwaitKexReport => KexReportIsOrderly(x, n, t, temp, classes, ccData);
    case AwaitPublicKey => PublicKeyIsOrderly(x, n, t, temp, classes, ccData, o);
    case AwaitDsk =>
    case AwaitTempChannel =>
      NonceReplyIsOrderly(x, n, t, temp, classes, t.(phase := AwaitKexSetEcho), RespondToNonceGet(temp, n));
    case AwaitKexSetEcho => EchoIsOrderly(x, n, t, temp, classes, ccData, o);
    case AwaitNetworkKeyGet =>
      if CommandByte(ccData) == Some(MESSAGE_ENCAPSULATION) {
        KeyExchangeIsOrderly(n, t, temp, classes, ccData, o);
      }
    case AwaitClassNonceGet =>
      NonceReplyIsOrderly(x, n, t, temp, RespondToNonceGet(map[], n), t.(phase := AwaitKeyVerify), temp);
    case AwaitKeyVerify => KeyVerifyIsOrderly(x, n, t, temp, classes, ccData, o);
  }

  lemma {:induction false} ConfirmIsOrderly(
    n: Node, t: Session, temp: Manager, classes: Manager, pin: string, o: Oracle)
    requires WellKept(n, t, temp)
    ensures Orderly(In(ConfirmDsk(n, pin, o)), n, t, temp, ConfirmEffect(t, temp, classes, pin, o))
  {
    var x := In(ConfirmDsk(n, pin, o));
    QuietIsOrderly(x, n, t, temp, classes);
    if t.phase == AwaitDsk {
      FinishIsOrderly(x, n, t, temp, classes, o.agrees, ClearDskPrompt);
    }
  }

  /** The milestones of a session survive a reaction, and the input that caused it stands right after. */
  lemma {:induction false} Extended(
    log: seq<Entry>, e: Event, n: Node, actions: seq<Action>, rank: nat, g: KeyMask, w: Witness)
    requires Milestones(log, n, rank, g, w) && Send(KexGet) !in actions
    ensures Milestones(After(log, e, n, actions), n, rank, g, w)
    ensures After(log, e, n, actions)[|log|] == In(e)
  {
    var more := [In(e)] + Outs(n, actions);
    assert After(log, e, n, actions) == log + more;
    forall x | x in more
      ensures !StartsSession(x, n)
    {
      if x.Out? {
        var i :| 0 <= i < |actions| && x == Out(n, actions[i]);
      }
    }
    MilestonesKeep(log, more, n, rank, g, w);
  }

  /** The action at `i` of a reaction. */
  predicate Emits(actions: seq<Action>, i: nat, a: Action) {
    i < |actions| && actions[i] == a
  }

  /** An input that moves a session on is the milestone its new phase stands for, and is answered as such. */
  predicate Advances(x: Entry, n: Node, t: Session, u: Session, actions: seq<Action>) {
    || (Rank(u.phase) == Rank(t.phase) && u.granted == t.granted && u.report == t.report)
    || (t.phase == AwaitKexReport && Rank(u.phase) == 1 && IsGrantedReport(x, n, u.granted)
        && ReportIn(x) == Some(u.report) && Emits(actions, 0, Send(KexSetMessage(SetFor(u.granted)))))
    || (u.granted == t.granted && u.report == t.report && match t.phase
          case AwaitPublicKey =>
            && IsPublicKey(x, n) && Emits(actions, 0, Send(OwnPublicKey))
            && (|| Rank(u.phase) == 2
                || (Rank(u.phase) == 3 && !NeedsDsk(t.granted) && Emits(actions, 1, KeyAgreementComplete)))
          case AwaitDsk =>
            && IsConfirmation(x, n) && Rank(u.phase) == 3
            && Emits(actions, 0, ClearDskPrompt) && Emits(actions, 1, KeyAgreementComplete)
          case AwaitTempChannel => IsNonceGet(x, n) && Rank(u.phase) == 4 && Emits(actions, 0, Send(NonceReport))
          case AwaitKexSetEcho =>
            && IsMatchingEcho(x, n, t.granted) && Rank(u.phase) == 5
            && Emits(actions, 0, SendEncrypted(KexReportEcho(t.report.(echo := true))))
          case _ => false)
  }

  lemma {:induction false} KexReportAdvances(
    n: Node, t: Session, temp: Manager, classes: Manager, ccData: seq<Byte>, o: Oracle)
    requires t.phase == AwaitKexReport
    ensures var f := KexReportEffect(t, temp, classes, ccData);
            f.session.Some? ==> Advances(In(ApplicationCommand(n, ccData, o)), n, t, f.session.value, f.actions)
  {}

  lemma {:induction false} PublicKeyAdvances(
    n: Node, t: Session, temp: Manager, classes: Manager, ccData: seq<Byte>, o: Oracle)
    requires t.phase == AwaitPublicKey
    ensures var f := PublicKeyEffect(t, temp, classes, ccData, o);
            f.session.Some? ==> Advances(In(ApplicationCommand(n, ccData, o)), n, t, f.session.value, f.actions)
  {}

  lemma {:induction false} EchoAdvances(
    n: Node, t: Session, temp: Manager, classes: Manager, frame: seq<Byte>, o: Oracle)
    requires t.phase == AwaitKexSetEcho && t.sent == SetFor(t.granted)
    requires CommandByte(frame) == Some(MESSAGE_ENCAPSULATION)
    ensures var f := EchoEffect(n, t, temp, classes, frame, o);
            f.session.Some? ==> Advances(In(ApplicationCommand(n, frame, o)), n, t, f.session.value, f.actions)
  {}

  lemma {:induction false} InstallingKeepsRank(
    n: Node, t: Session, temp: Manager, classes: Manager, frame: seq<Byte>, o: Oracle)
    ensures var f := KeyExchangeEffect(n, t, temp, classes, frame, o);
            t.phase == AwaitNetworkKeyGet && f.session.Some? ==>
              Rank(f.session.value.phase) == 5 && f.session.value.granted == t.granted
              && f.session.value.report == t.report
    ensures var f := KeyVerifyEffect(n, t, temp, classes, frame, o);
            t.phase == AwaitKeyVerify && f.session.Some? ==>
              Rank(f.session.value.phase) == 5 && f.session.value.granted == t.granted
              && f.session.value.report == t.report
  {}

  lemma {:induction false} CommandAdvances(
    n: Node, t: Session, temp: Manager, classes: Manager, ccData: seq<Byte>, o: Oracle)
    requires WellKept(n, t, temp)
    ensures var f := CommandEffect(n, t, temp, classes, ccData, o);
            f.session.Some? ==> Advances(In(ApplicationCommand(n, ccData, o)), n, t, f.session.value, f.actions)
  {
    match t.phase
    case AwaitKexReport => KexReportAdvances(n, t, temp, classes, ccData, o);
    case AwaitPublicKey => PublicKeyAdvances(n, t, temp, classes, ccData, o);
    case AwaitDsk =>
    case AwaitTempChannel =>
    case AwaitKexSetEcho =>
      if CommandByte(ccData) == Some(MESSAGE_ENCAPSULATION) {
        EchoAdvances(n, t, temp, classes, ccData, o);
      }
    case AwaitNetworkKeyGet => InstallingKeepsRank(n, t, temp, classes, ccData, o);
    case AwaitClassNonceGet =>
    case AwaitKeyVerify => InstallingKeepsRank(n, t, temp, classes, ccData, o);
  }

  lemma {:induction false} ConfirmAdvances(n: Node, t: Session, temp: Manager, classes: Manager, pin: string, o: Oracle)
    requires WellKept(n, t, temp)
    ensures var f := ConfirmEffect(t, temp, classes, pin, o);
            f.session.Some? ==> Advances(In(ConfirmDsk(n, pin, o)), n, t, f.session.value, f.actions)
  {}

  /** Where the milestones of a session are once the input at `k` has moved it on. */
  function Moved(w: Witness, t: Session, u: Session, k: nat): Witness {
    if Rank(u.phase) == Rank(t.phase) then w
    else match t.phase
      case AwaitKexReport => w.(kex := k)
      case AwaitPublicKey => w.(key := k, dsk := k)
      case AwaitDsk => w.(dsk := k)
      case AwaitTempChannel => w.(nonce := k)
      case AwaitKexSetEcho => w.(echo := k)
      case _ => w
  }

  lemma {:induction false} AfterAt(log: seq<Entry>, e: Event, n: Node, actions: seq<Action>)
    ensures var all := After(log, e, n, actions);
            && |all| == |log| + 1 + |actions| && all[|log|] == In(e) && log <= all
            && forall i | 0 <= i < |actions| :: all[|log| + 1 + i] == Out(n, actions[i])
  {}

  lemma {:induction false} AdvanceIsTraced(
    log: seq<Entry>, e: Event, n: Node, actions: seq<Action>, t: Session, u: Session)
    requires Traced(log, n, t) && Send(KexGet) !in actions && Advances(In(e), n, t, u, actions)
    ensures Traced(After(log, e, n, actions), n, u)
  {
    var w :| TracedBy(log, n, t, w);
    var all := After(log, e, n, actions);
    Extended(log, e, n, actions, Rank(t.phase), t.granted, w);
    AfterAt(log, e, n, actions);
    MovedIsTraced(log, all, e, n, actions, t, u, w);
    assert TracedBy(all, n, u, Moved(w, t, u, |log|));
  }

  lemma {:induction false} MovedIsTraced(
      log: seq<Entry>, all: seq<Entry>, e: Event, n: Node, actions: seq<Action>, t: Session, u: Session, w: Witness)
    requires TracedBy(log, n, t, w) && Advances(In(e), n, t, u, actions)
    requires Milestones(all, n, Rank(t.phase), t.granted, w) && log <= all
    requires |all| == |log| + 1 + |actions| && all[|log|] == In(e)
    requires forall i | 0 <= i < |actions| :: all[|log| + 1 + i] == Out(n, actions[i])
    ensures TracedBy(all, n, u, Moved(w, t, u, |log|))
  {
    var k := |log|;
    assert Rank(t.phase) >= 1 ==> all[w.kex] == log[w.kex];
    assert |actions| > 0 ==> all[k + 1] == Out(n, actions[0]);
    assert |actions| > 1 ==> all[k + 2] == Out(n, actions[1]);
  }

  lemma {:induction false} TracedIsGrant(log: seq<Entry>, n: Node, t: Session)
    requires Traced(log, n, t)
    ensures t.phase != AwaitKexReport ==> IsGrant(t.granted)
  {
    var w :| TracedBy(log, n, t, w);
    if t.phase != AwaitKexReport {
      GrantIsGrant(ReportIn(log[w.kex]).value);
    }
  }

  lemma {:induction false} TransferIsJustified(log: seq<Entry>, e: Event, n: Node, t: Session, a: Action)
    requires Traced(log, n, t) && Rank(t.phase) == 5 && a != Send(KexGet) && Warranted(In(e), n, t.granted, a)
    ensures Justified(log, In(e), n, a)
  {
    var w :| TracedBy(log, n, t, w);
    assert Earned(log, In(e), n, t.granted, a);
  }

  lemma {:induction false} ReactionIsSound(s: State, e: Event, n: Node, f: Effect)
    requires n in s.sessions && Traced(s.log, n, s.sessions[n]) && Track(s.log, n) == MonitorOf(s.sessions[n])
    requires Orderly(In(e), n, s.sessions[n], s.temp, f)
    requires f.session.Some? ==> Advances(In(e), n, s.sessions[n], f.session.value, f.actions)
    ensures Sound(s, e, n, f)
  {
    var t := s.sessions[n];
    if f.session.Some? {
      AdvanceIsTraced(s.log, e, n, f.actions, t, f.session.value);
      assert SessionInv(Apply(s, e, n, f), n);
    }
    if f.actions != [] && IsCritical(f.actions[0]) {
      TransferIsJustified(s.log, e, n, t, f.actions[0]);
    }
  }

  lemma {:induction false} InclusionIsSound(s: State, e: Event, n: Node)
    requires !Track(s.log, n).Violation? && IsInclusion(In(e), n)
    ensures Sound(s, e, n, Effect(Some(NEW_SESSION), s.temp, s.classes, [Send(KexGet)]))
  {
    ObserveShort(Track(s.log, n), Send(KexGet), PromptDsk);
    var all := After(s.log, e, n, [Send(KexGet)]);
    assert all[|s.log|] == In(e) && all[|s.log| + 1] == Out(n, Send(KexGet)) && |all| == |s.log| + 2;
    var w := Witness(|s.log| + 1, 0, 0, 0, 0, 0);
    assert TracedBy(all, n, NEW_SESSION, w);
    assert Traced(all, n, NEW_SESSION);
  }

  /** An input that touches no session only lengthens the log. */
  lemma {:induction false} IgnoredKeepsInv(s: State, e: Event, ready: bool)
    requires Inv(s)
    ensures Inv(s.(keysReady := ready, log := s.log + [In(e)]))
  {
    var s' := s.(keysReady := ready, log := s.log + [In(e)]);
    InputIsNotCritical(s.log, e);
    forall n | n in s'.sessions
      ensures SessionInv(s', n)
    {
      assert SessionInv(s, n);
      TracedThroughInput(s.log, e, n, s.sessions[n]);
    }
    forall n: Node
      ensures Track(s'.log, n) == Track(s.log, n)
    {
      TrackAppend(s.log, In(e), n);
    }
  }

  lemma {:induction false} InputIsNotCritical(log: seq<Entry>, e: Event)
    requires CriticalJustified(log)
    ensures CriticalJustified(log + [In(e)])
  {
    forall i | 0 <= i < |log|
      ensures JustifiedAt(log + [In(e)], i)
    {
      assert JustifiedAt(log, i);
      JustifiedInPrefix(log, [In(e)], i);
    }
  }

  lemma {:induction false} TracedThroughInput(log: seq<Entry>, e: Event, n: Node, t: Session)
    requires Traced(log, n, t)
    ensures Traced(log + [In(e)], n, t)
  {
    var w :| TracedBy(log, n, t, w);
    MilestonesKeep(log, [In(e)], n, Rank(t.phase), t.granted, w);
    assert TracedBy(log + [In(e)], n, t, w);
  }

  lemma {:induction false} ReactionKeepsInv(s: State, e: Event, n: Node, f: Effect)
    requires Inv(s) && n in s.sessions && Orderly(In(e), n, s.sessions[n], s.temp, f)
    requires f.session.Some? ==> Advances(In(e), n, s.sessions[n], f.session.value, f.actions)
    ensures Inv(Apply(s, e, n, f))
  {
    assert SessionInv(s, n);
    ReactionIsSound(s, e, n, f);
    SoundEffectKeepsInv(s, e, n, f);
  }

  lemma {:induction false} StepKeepsInv(s: State, e: Event)
    requires Inv(s)
    ensures Inv(Step(s, e))
  {
    match e
    case KeysReady(ready) => IgnoredKeepsInv(s, e, ready);
    case NodeIncluded(n, ccs) =>
      if COMMAND_CLASS !in ccs || !s.keysReady {
        IgnoredKeepsInv(s, e, s.keysReady);
      } else {
        InclusionIsSound(s, e, n);
        SoundEffectKeepsInv(s, e, n, Effect(Some(NEW_SESSION), s.temp, s.classes, [Send(KexGet)]));
      }
    case ApplicationCommand(n, ccData, o) =>
      if n !in s.sessions {
        IgnoredKeepsInv(s, e, s.keysReady);
      } else {
        var t := s.sessions[n];
        assert SessionInv(s, n);
        TracedIsGrant(s.log, n, t);
        CommandIsOrderly(n, t, s.temp, s.classes, ccData, o);
        CommandAdvances(n, t, s.temp, s.classes, ccData, o);
        ReactionKeepsInv(s, e, n, CommandEffect(n, t, s.temp, s.classes, ccData, o));
      }
    case ConfirmDsk(n, pin, o) =>
      if n !in s.sessions {
        IgnoredKeepsInv(s, e, s.keysReady);
      } else {
        var t := s.sessions[n];
        assert SessionInv(s, n);
        ConfirmIsOrderly(n, t, s.temp, s.classes, pin, o);
        ConfirmAdvances(n, t, s.temp, s.classes, pin, o);
        ReactionKeepsInv(s, e, n, ConfirmEffect(t, s.temp, s.classes, pin, o));
      }
  }

  lemma {:induction false} RunKeepsInv(events: seq<Event>)
    ensures Inv(Run(events))
    decreases |events|
  {
    if events != [] {
      RunKeepsInv(events[..|events| - 1]);
      StepKeepsInv(Run(events[..|events| - 1]), events[|events| - 1]);
    }
  }

  // ---- The guarantees ----------------------------------------------------------------------------

  /**
   * In every run, whenever a network key goes to a node, the input it answers is an encrypted request for
   * that very class, and the node's current session has before that seen and answered, in this order: the
   * inclusion that started it, a report whose grant holds the class (answered with that grant), the node's
   * public key (with ours), a well-formed confirmation if the grant calls for one (prompt cleared), key
   * agreement, a nonce request (with a nonce) and an encrypted echo of exactly the grant that was sent
   * (with an encrypted echo of the report).
   */
  lemma {:induction false} KeyTransferIsJustified(events: seq<Event>, i: nat)
    requires i < |Run(events).log| && IsKeyTransfer(Run(events).log[i])
    ensures KeyIsEarned(Run(events).log, i)
  {
    RunKeepsInv(events);
    CriticalAt(Run(events).log, i);
  }

  /** The key at `i` answers its request and has a whole handshake behind it. */
  ghost predicate KeyIsEarned(log: seq<Entry>, i: nat)
    requires i < |log| && IsKeyTransfer(log[i])
  {
    var n, bit := log[i].node, log[i].action.message.keyBit;
    && 0 < i && NamesOneClass(bit) && IsKeyRequest(log[i - 1], n, bit)
    && exists g: KeyMask :: HandshakeDone(log[..i - 1], n, g) && Includes(g, bit)
  }

  /** The completion at `i` answers the end of the exchange and names the highest class of the handshake behind it. */
  ghost predicate CompletionIsEarned(log: seq<Entry>, i: nat)
    requires i < |log| && log[i].Out? && log[i].action.RecordScheme?
  {
    && 0 < i && IsFinalEnd(log[i - 1], log[i].node)
    && exists g: KeyMask :: HandshakeDone(log[..i - 1], log[i].node, g) && IsHighest(log[i].action.scheme, g)
  }

  lemma {:induction false} CriticalAt(log: seq<Entry>, i: nat)
    requires CriticalJustified(log) && i < |log| && log[i].Out?
    ensures IsKeyTransfer(log[i]) ==> KeyIsEarned(log, i)
    ensures log[i].action.RecordScheme? ==> CompletionIsEarned(log, i)
  {
    var n, a := log[i].node, log[i].action;
    assert JustifiedAt(log, i);
    if IsCritical(a) && a != Send(KexGet) {
      var g :| Earned(log[..i - 1], log[i - 1], n, g, a);
      assert HandshakeDone(log[..i - 1], n, g);
    }
  }

  /**
   * In every run, a completion answers a decrypted final TRANSFER_END behind a whole handshake, with its
   * highest class.
   */
  lemma {:induction false} CompletionIsJustified(events: seq<Event>, i: nat)
    requires i < |Run(events).log| && Run(events).log[i].Out? && Run(events).log[i].action.RecordScheme?
    ensures CompletionIsEarned(Run(events).log, i)
  {
    RunKeepsInv(events);
    CriticalAt(Run(events).log, i);
  }

  /** In every run, a session starts only in answer to the inclusion of a Security 2 node. */
  lemma {:induction false} StartIsJustified(events: seq<Event>, i: nat)
    requires i < |Run(events).log| && Run(events).log[i].Out? && Run(events).log[i].action == Send(KexGet)
    ensures 0 < i && IsInclusion(Run(events).log[i - 1], Run(events).log[i].node)
  {
    RunKeepsInv(events);
    assert JustifiedAt(Run(events).log, i);
  }

  /** The monitor has seen nothing out of place for `n`, and is idle exactly while `n` has no session. */
  ghost predicate ObeysMonitor(s: State, n: Node) {
    !Track(s.log, n).Violation? && (Track(s.log, n).Idle? <==> n !in s.sessions)
  }

  lemma {:induction false} InvObeysMonitor(s: State, n: Node)
    requires Inv(s)
    ensures ObeysMonitor(s, n)
  {
    assert Track(s.log, n) == if n in s.sessions then MonitorOf(s.sessions[n]) else Idle;
  }

  /**
   * In every run the emissions for every node obey the monitor: sessions end at most once and are silent
   * afterwards, the grant never changes, no key is sent while another is unverified, and completion comes
   * with every sent key verified and reports the highest granted class.
   */
  lemma {:induction false} EmissionsObeyMonitor(events: seq<Event>, n: Node)
    ensures ObeysMonitor(Run(events), n)
  {
    RunKeepsInv(events);
    InvObeysMonitor(Run(events), n);
  }

  /** In every run no frame of the handshake is ever dropped for want of a SPAN. */
  lemma {:induction false} NothingIsDropped(events: seq<Event>, i: nat)
    requires i < |Run(events).log|
    ensures var x := Run(events).log[i]; x.Out? ==> !x.action.DropUnencryptable?
  {
    var log := Run(events).log;
    if log[i].Out? && log[i].action.DropUnencryptable? {
      EmissionsObeyMonitor(events, log[i].node);
      ViolationPersists(log, i);
    }
  }

  lemma {:induction false} ViolationPersists(log: seq<Entry>, i: nat)
    requires i < |log| && log[i].Out? && log[i].action.DropUnencryptable?
    ensures Track(log, log[i].node).Violation?
    decreases |log|
  {
    if i < |log| - 1 {
      ViolationPersists(log[..|log| - 1], i);
    }
  }
}
