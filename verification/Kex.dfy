/** The Security 2 frames the inclusion handshake reads, and the controller's grant policy. */
module Kex {
  import opened Bytes
  import Decimal

  const COMMAND_CLASS: Byte := 0x9F
  const NONCE_GET: Byte := 0x01
  const MESSAGE_ENCAPSULATION: Byte := 0x03
  const KEX_REPORT: Byte := 0x05
  const KEX_SET: Byte := 0x06
  const PUBLIC_KEY_REPORT: Byte := 0x08
  const NETWORK_KEY_GET: Byte := 0x09
  const TRANSFER_END: Byte := 0x0C

  const KEX_SCHEME_1: Byte := 0x02
  const ECDH_CURVE25519: Byte := 0x01

  /** A set of key classes, one bit each. */
  type KeyMask = bv8

  const KEY_S2_UNAUTHENTICATED: KeyMask := 0x01
  const KEY_S2_AUTHENTICATED: KeyMask := 0x02
  const KEY_S2_ACCESS_CONTROL: KeyMask := 0x04
  const KEY_S0: KeyMask := 0x80

  const CONTROLLER_SUPPORTED_KEYS: KeyMask := 0x07
  const DSK_REQUIRED_KEYS: KeyMask := 0x06

  const FAIL_KEY: Byte := 0x01
  const FAIL_DECRYPT: Byte := 0x05
  const FAIL_AUTH: Byte := 0x07
  const FAIL_KEY_GET: Byte := 0x08
  const FAIL_KEY_VERIFY: Byte := 0x09

  datatype KexReport = KexReport(echo: bool, requestCsa: bool, schemes: Byte, curves: Byte, requestedKeys: KeyMask)

  datatype KexSet = KexSet(echo: bool, requestCsa: bool, scheme: Byte, curve: Byte, grantedKeys: KeyMask)

  datatype Scheme = S2Unauthenticated | S2Authenticated | S2AccessControl

  function CommandByte(p: seq<Byte>): Option<Byte> {
    if |p| < 2 || p[0] != COMMAND_CLASS then None else Some(p[1])
  }

  function DecodeReport(p: seq<Byte>): Option<KexReport> {
    if |p| < 6 || CommandByte(p) != Some(KEX_REPORT) then None
    else Some(KexReport(p[2] % 2 == 1, p[2] / 2 % 2 == 1, p[3], p[4], p[5] as KeyMask))
  }

  function DecodeSet(p: seq<Byte>): Option<KexSet> {
    if |p| < 6 || CommandByte(p) != Some(KEX_SET) then None
    else Some(KexSet(p[2] % 2 == 1, p[2] / 2 % 2 == 1, p[3], p[4], p[5] as KeyMask))
  }

  /** A public key report is exactly a header and 32 key octets. */
  predicate IsPublicKeyReport(p: seq<Byte>) {
    |p| == 35 && CommandByte(p) == Some(PUBLIC_KEY_REPORT)
  }

  function DecodeKeyGet(p: seq<Byte>): Option<KeyMask> {
    if |p| < 3 || CommandByte(p) != Some(NETWORK_KEY_GET) then None else Some(p[2] as KeyMask)
  }

  /** The final TRANSFER_END, which closes the whole exchange. */
  predicate IsKeyRequestComplete(p: seq<Byte>) {
    3 <= |p| && CommandByte(p) == Some(TRANSFER_END) && p[2] % 2 == 1
  }

  /** A stored class key answers a request for one class bit and for nothing else. */
  predicate NamesOneClass(keyBit: KeyMask) {
    keyBit in {KEY_S2_UNAUTHENTICATED, KEY_S2_AUTHENTICATED, KEY_S2_ACCESS_CONTROL, KEY_S0}
  }

  /** Five decimal digits of at most sixteen bits. */
  predicate WellFormedPin(pin: string) {
    |pin| == 5 && Decimal.AllDigits(pin) && Decimal.Value(pin) <= 0xFFFF
  }

  function GrantKeys(r: KexReport): KeyMask {
    var granted := r.requestedKeys & CONTROLLER_SUPPORTED_KEYS;
    if r.requestCsa then granted & !KEY_S2_ACCESS_CONTROL else granted
  }

  predicate Includes(keys: KeyMask, bit: KeyMask) {
    keys & bit != 0
  }

  /** The highest class in a grant. */
  function SchemeFor(keys: KeyMask): Scheme {
    if Includes(keys, KEY_S2_ACCESS_CONTROL) then S2AccessControl
    else if Includes(keys, KEY_S2_AUTHENTICATED) then S2Authenticated
    else S2Unauthenticated
  }

  /** The bit of the class a scheme names. */
  function BitOf(scheme: Scheme): KeyMask {
    match scheme
    case S2Unauthenticated => 0x01
    case S2Authenticated => 0x02
    case S2AccessControl => 0x04
  }

  /** The scheme names a class of the grant, and no class of the grant has a higher bit. */
  predicate IsHighest(scheme: Scheme, keys: KeyMask) {
    && keys & BitOf(scheme) != 0
    && (keys & 0x01 != 0 ==> 0x01 <= BitOf(scheme))
    && (keys & 0x02 != 0 ==> 0x02 <= BitOf(scheme))
    && (keys & 0x04 != 0 ==> 0x04 <= BitOf(scheme))
  }

  /** Some of the three Security 2 classes and nothing else. */
  predicate IsGrant(keys: KeyMask) {
    keys != 0 && keys & 0x07 == keys
  }

  lemma {:induction false} GrantIsGrant(r: KexReport)
    ensures GrantKeys(r) == r.requestedKeys & (if r.requestCsa then 0x03 else 0x07)
    ensures GrantKeys(r) != 0 ==> IsGrant(GrantKeys(r))
  {
    assert r.requestedKeys & 0x07 & !0x04 == r.requestedKeys & 0x03;
    assert r.requestedKeys & 0x07 & 0x07 == r.requestedKeys & 0x07;
    assert r.requestedKeys & 0x03 & 0x07 == r.requestedKeys & 0x03;
  }

  /** The scheme recorded for a grant is its highest class, and no other scheme is. */
  lemma {:induction false} SchemeIsHighest(keys: KeyMask, scheme: Scheme)
    requires IsGrant(keys)
    ensures IsHighest(scheme, keys) <==> scheme == SchemeFor(keys)
  {
    assert keys & 0x07 == keys && keys & 0x04 == 0 && keys & 0x02 == 0 ==> keys & 0x01 == keys;
  }

  /**
   * A grant holds only classes that were requested and that the controller supports, never the S0 key,
   * and never Access Control for a node that asked for client-side authentication; it holds all the others.
   */
  lemma {:induction false} GrantPolicy(r: KexReport, bit: KeyMask)
    requires NamesOneClass(bit)
    ensures GrantKeys(r) & bit != 0 <==> bit != 0x80 && r.requestedKeys & bit != 0 && !(r.requestCsa && bit == 0x04)
  {
    if bit == KEY_S2_UNAUTHENTICATED {
      assert r.requestedKeys & 0x07 & !0x04 & 0x01 == r.requestedKeys & 0x01;
    } else if bit == KEY_S2_AUTHENTICATED {
      assert r.requestedKeys & 0x07 & !0x04 & 0x02 == r.requestedKeys & 0x02;
    }
  }
}
