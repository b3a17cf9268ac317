/**
 * The per-peer nonce synchronisation runtime, reduced to what decides whether a frame can be encrypted
 * or a nonce drawn: is a SPAN established, did we hand out entropy, do we hold the peer's entropy.
 */
module SpanManager {
  import opened Bytes

  datatype Peer = Peer(span: bool, ourRei: bool, peerRei: bool)

  type Manager = map<Byte, Peer>

  const NEW_PEER := Peer(false, false, false)

  function PeerOf(m: Manager, n: Byte): Peer {
    if n in m then m[n] else NEW_PEER
  }

  /** An answered NONCE_GET leaves our entropy outstanding until the peer's extension arrives. */
  function RespondToNonceGet(m: Manager, n: Byte): Manager {
    m[n := PeerOf(m, n).(ourRei := true)]
  }

  /** A NONCE_REPORT brings the peer's entropy exactly when it says the SPAN is out of sync. */
  function AcceptNonceReport(m: Manager, n: Byte, sos: bool): Manager {
    if sos then m[n := PeerOf(m, n).(peerRei := true)] else m
  }

  predicate CanEncrypt(m: Manager, n: Byte) {
    PeerOf(m, n).span || PeerOf(m, n).peerRei
  }

  /** Encrypting without a SPAN consumes the peer's entropy to establish one; without either it fails. */
  function Encrypt(m: Manager, n: Byte): Manager {
    var p := PeerOf(m, n);
    if p.span then m[n := p]
    else if p.peerRei then m[n := p.(span := true, peerRei := false)]
    else m[n := p]
  }

  /** Does a chain of extension objects hold a SPAN extension? A malformed chain holds none. */
  predicate HoldsSpanExtension(ext: seq<Byte>)
    decreases |ext|
  {
    if |ext| < 2 || ext[0] < 2 || |ext| < ext[0] as int then false
    else if ext[1] % 64 == 1 && ext[0] == 18 then true
    else if ext[1] < 128 then false
    else HoldsSpanExtension(ext[ext[0]..])
  }

  /** The search for the sender's entropy, object by object. */
  method FindSpanExtension(ext: seq<Byte>) returns (sei: Option<seq<Byte>>)
    ensures sei.Some? <==> HoldsSpanExtension(ext)
    ensures sei.Some? ==> |sei.value| == 16
  {
    var offset: nat := 0;
    assert ext[0..] == ext;
    while offset + 2 <= |ext|
      invariant offset <= |ext|
      invariant HoldsSpanExtension(ext) <==> HoldsSpanExtension(ext[offset..])
      decreases |ext| - offset
    {
      var length := ext[offset];
      if length < 2 || offset + length > |ext| {
        return None;
      }
      var flags := ext[offset + 1];
      if flags % 64 == 1 && length == 18 {
        return Some(ext[offset + 2..offset + 18]);
      }
      if flags < 128 {
        break;
      }
      assert ext[offset..][length..] == ext[offset + length..];
      offset := offset + length;
    }
    return None;
  }

  predicate CarriesSpanExtension(frame: seq<Byte>) {
    && 4 <= |frame| && frame[0] == 0x9F && frame[1] == 0x03
    && frame[3] % 2 == 1
    && HoldsSpanExtension(frame[4..])
  }

  /** Receiving may establish a SPAN from the frame's extension and the entropy we handed out. */
  function ReceiveNonce(m: Manager, n: Byte, frame: seq<Byte>): Manager {
    var p := PeerOf(m, n);
    m[n := if CarriesSpanExtension(frame) && p.ourRei then p.(span := true, ourRei := false) else p]
  }

  /** Is a nonce available once the frame has been looked at? */
  predicate NonceAvailable(m: Manager, n: Byte, frame: seq<Byte>) {
    PeerOf(ReceiveNonce(m, n, frame), n).span
  }
}
