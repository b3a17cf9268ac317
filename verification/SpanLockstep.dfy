/**
 * Two SPAN runtimes facing each other: the daemon's, and one like it at the other end. A SPAN is a
 * deterministic generator seeded by both sides' entropy, so a frame can be decrypted exactly when the receiver
 * draws the same nonce the sender drew.
 */
module SpanLockstep {
  import opened Bytes
  import SpanManager

  type Entropy = seq<Byte>

  /** A generator is known by its seed and how many nonces were drawn from it. */
  datatype Span = Span(senderEi: Entropy, receiverEi: Entropy, drawn: nat)

  /** The `index`-th nonce of a generator. */
  datatype Nonce = Nonce(senderEi: Entropy, receiverEi: Entropy, index: nat)

  datatype Peer = Peer(span: Option<Span>, ourRei: Option<Entropy>, peerRei: Option<Entropy>)

  const NEW_PEER := Peer(None, None, None)

  function NextNonce(s: Span): Nonce {
    Nonce(s.senderEi, s.receiverEi, s.drawn)
  }

  function Drawn(p: Peer): Peer
    requires p.span.Some?
  {
    p.(span := Some(p.span.value.(drawn := p.span.value.drawn + 1)))
  }

  function RespondToNonceGet(p: Peer, rei: Entropy): Peer {
    p.(ourRei := Some(rei))
  }

  function AcceptNonceReport(p: Peer, rei: Entropy): Peer {
    p.(peerRei := Some(rei))
  }

  /** A frame as far as nonces go: the nonce it was encrypted under and the SPAN extension, if any. */
  datatype Frame = Frame(nonce: Nonce, extension: Option<Entropy>)

  datatype Sent = Sent(peer: Peer, frame: Option<Frame>)

  function Encrypt(p: Peer, sei: Entropy): Sent {
    if p.span.Some? then Sent(Drawn(p), Some(Frame(NextNonce(p.span.value), None)))
    else if p.peerRei.None? then Sent(p, None)
    else
      var span := Span(sei, p.peerRei.value, 0);
      Sent(Drawn(Peer(Some(span), p.ourRei, None)), Some(Frame(NextNonce(span), Some(sei))))
  }

  datatype Received = Received(peer: Peer, nonce: Option<Nonce>)

  function ReceiveNonce(p: Peer, extension: Option<Entropy>): Received {
    var q := if extension.Some? && p.ourRei.Some?
             then Peer(Some(Span(extension.value, p.ourRei.value, 0)), None, p.peerRei) else p;
    if q.span.None? then Received(q, None) else Received(Drawn(q), Some(NextNonce(q.span.value)))
  }

  // ---- The presence of the three values is all that other components look at ---------------------

  function Presence(p: Peer): SpanManager.Peer {
    SpanManager.Peer(p.span.Some?, p.ourRei.Some?, p.peerRei.Some?)
  }

  /** The presence runtime is what remains of this one when only presence is kept. */
  lemma {:induction false} PresenceRefines(p: Peer, m: SpanManager.Manager, n: Byte, ei: Entropy, frame: seq<Byte>)
    requires SpanManager.PeerOf(m, n) == Presence(p)
    ensures SpanManager.PeerOf(SpanManager.RespondToNonceGet(m, n), n) == Presence(RespondToNonceGet(p, ei))
    ensures SpanManager.PeerOf(SpanManager.AcceptNonceReport(m, n, true), n) == Presence(AcceptNonceReport(p, ei))
    ensures SpanManager.CanEncrypt(m, n) <==> Encrypt(p, ei).frame.Some?
    ensures SpanManager.PeerOf(SpanManager.Encrypt(m, n), n) == Presence(Encrypt(p, ei).peer)
    ensures var received := ReceiveNonce(p, if SpanManager.CarriesSpanExtension(frame) then Some(ei) else None);
            && SpanManager.PeerOf(SpanManager.ReceiveNonce(m, n, frame), n) == Presence(received.peer)
            && (SpanManager.NonceAvailable(m, n, frame) <==> received.nonce.Some?)
    ensures SpanManager.AcceptNonceReport(m, n, false) == m
    ensures forall k: Byte :: k != n ==>
              && SpanManager.PeerOf(SpanManager.RespondToNonceGet(m, n), k) == SpanManager.PeerOf(m, k)
              && SpanManager.PeerOf(SpanManager.AcceptNonceReport(m, n, true), k) == SpanManager.PeerOf(m, k)
              && SpanManager.PeerOf(SpanManager.Encrypt(m, n), k) == SpanManager.PeerOf(m, k)
              && SpanManager.PeerOf(SpanManager.ReceiveNonce(m, n, frame), k) == SpanManager.PeerOf(m, k)
  {}

  // ---- Two peers ---------------------------------------------------------------------------------

  datatype Side = Controller | Node

  datatype Pair = Pair(controller: Peer, node: Peer)

  function At(pair: Pair, side: Side): Peer {
    if side == Controller then pair.controller else pair.node
  }

  function Other(side: Side): Side {
    if side == Controller then Node else Controller
  }

  function With(pair: Pair, side: Side, p: Peer): Pair {
    if side == Controller then pair.(controller := p) else pair.(node := p)
  }

  /** `GiveEntropy` answers a NONCE_GET or asks for a resynchronisation; either kind of frame may be lost. */
  datatype Event =
    | GiveEntropy(side: Side, rei: Entropy, delivered: bool)
    | Message(side: Side, sei: Entropy, delivered: bool)

  function Step(pair: Pair, e: Event): Pair {
    match e
    case GiveEntropy(side, rei, delivered) =>
      var given := With(pair, side, RespondToNonceGet(At(pair, side), rei));
      if delivered then With(given, Other(side), AcceptNonceReport(At(given, Other(side)), rei)) else given
    case Message(side, sei, delivered) =>
      var sent := Encrypt(At(pair, side), sei);
      var after := With(pair, side, sent.peer);
      if sent.frame.None? || !delivered then after
      else With(after, Other(side), ReceiveNonce(At(after, Other(side)), sent.frame.value.extension).peer)
  }

  function Steps(pair: Pair, events: seq<Event>): Pair {
    if events == [] then pair else Step(Steps(pair, events[..|events| - 1]), events[|events| - 1])
  }

  /** Would a message from `side` be decrypted, if it arrives? */
  predicate Understood(pair: Pair, side: Side, sei: Entropy) {
    var sent := Encrypt(At(pair, side), sei);
    && sent.frame.Some?
    && ReceiveNonce(At(pair, Other(side)), sent.frame.value.extension).nonce == Some(sent.frame.value.nonce)
  }

  /** One delivered answer with entropy is enough: the next message is understood and leaves the two in step. */
  lemma {:induction false} ExchangeEstablishes(pair: Pair, side: Side, rei: Entropy, sei: Entropy)
    requires At(pair, side).span.None?
    ensures var ready := Step(pair, GiveEntropy(Other(side), rei, true));
            var after := Step(ready, Message(side, sei, true));
            && Understood(ready, side, sei)
            && At(after, side).span == At(after, Other(side)).span == Some(Span(sei, rei, 1))
  {}

  // ---- Staying in step ---------------------------------------------------------------------------

  /** Both sides hold generators with the same seed; they may have been drawn from differently often. */
  predicate Paired(pair: Pair) {
    && pair.controller.span.Some? && pair.node.span.Some?
    && pair.controller.span.value.senderEi == pair.node.span.value.senderEi
    && pair.controller.span.value.receiverEi == pair.node.span.value.receiverEi
  }

  function Lead(pair: Pair): int
    requires Paired(pair)
  {
    pair.controller.span.value.drawn - pair.node.span.value.drawn
  }

  /** Messages from the controller that were lost, minus those from the node that were. */
  function Imbalance(events: seq<Event>): int {
    if events == [] then 0
    else
      var e := events[|events| - 1];
      Imbalance(events[..|events| - 1])
      + if !e.Message? || e.delivered then 0 else if e.side == Controller then 1 else -1
  }

  lemma {:induction false} StepKeepsPaired(pair: Pair, e: Event)
    requires Paired(pair)
    ensures Paired(Step(pair, e))
    ensures Lead(Step(pair, e))
            == Lead(pair) + if !e.Message? || e.delivered then 0 else if e.side == Controller then 1 else -1
  {}

  lemma {:induction false} LeadIsImbalance(pair: Pair, events: seq<Event>)
    requires Paired(pair)
    ensures Paired(Steps(pair, events)) && Lead(Steps(pair, events)) == Lead(pair) + Imbalance(events)
    decreases |events|
  {
    if events != [] {
      LeadIsImbalance(pair, events[..|events| - 1]);
      StepKeepsPaired(Steps(pair, events[..|events| - 1]), events[|events| - 1]);
    }
  }

  /**
   * From two peers in step, after any run of messages and resynchronisation requests, in either direction
   * and with any losses, the next message is understood exactly if both directions lost equally many
   * messages.
   */
  lemma {:induction false} UnderstoodIffLossesBalance(pair: Pair, events: seq<Event>, side: Side, sei: Entropy)
    requires Paired(pair) && Lead(pair) == 0
    ensures Understood(Steps(pair, events), side, sei) <==> Imbalance(events) == 0
  {
    LeadIsImbalance(pair, events);
  }

  lemma {:induction false} EntropyAloneIsBalanced(events: seq<Event>)
    requires forall i | 0 <= i < |events| :: events[i].GiveEntropy?
    ensures Imbalance(events) == 0
    decreases |events|
  {
    if events != [] {
      EntropyAloneIsBalanced(events[..|events| - 1]);
    }
  }

  function AcceptAll(p: Peer, reports: seq<Entropy>): Peer {
    if reports == [] then p else AcceptNonceReport(AcceptAll(p, reports[..|reports| - 1]), reports[|reports| - 1])
  }

  /**
   * About the daemon alone, whatever is at the other end: while it holds a SPAN, no number of reports that ask
   * for a resynchronisation changes the nonce its next frame uses or makes it carry a SPAN extension.
   */
  lemma {:induction false} ResyncIsIgnored(p: Peer, reports: seq<Entropy>, sei: Entropy)
    requires p.span.Some?
    ensures AcceptAll(p, reports).span == p.span
    ensures Encrypt(AcceptAll(p, reports), sei).frame == Some(Frame(NextNonce(p.span.value), None))
    decreases |reports|
  {
    if reports != [] {
      ResyncIsIgnored(p, reports[..|reports| - 1], sei);
    }
  }

  /** So against a peer like itself no such request repairs a message the daemon lost. */
  lemma {:induction false} ResyncDoesNotRepair(pair: Pair, sei: Entropy, requests: seq<Event>, next: Entropy)
    requires Paired(pair) && Lead(pair) == 0
    requires forall i | 0 <= i < |requests| :: requests[i].GiveEntropy?
    ensures !Understood(Steps(Step(pair, Message(Controller, sei, false)), requests), Controller, next)
  {
    var lost := Step(pair, Message(Controller, sei, false));
    StepKeepsPaired(pair, Message(Controller, sei, false));
    LeadIsImbalance(lost, requests);
    EntropyAloneIsBalanced(requests);
  }
}
