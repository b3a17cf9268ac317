/**
 * The layout of a Security 2 message encapsulation: a header, a chain of extension objects in the clear, and
 * a ciphertext with its tag whose plaintext may begin with a second chain. The cipher itself is a parameter.
 */
module S2Encapsulation {
  import opened Bytes
  import opened Sequences
  import opened SpanManager

  const HEADER_SIZE := 4
  const TAG_SIZE := 8

  /** The length of the chain of extension objects at the front, if it is well formed. */
  function ExtensionsLength(data: seq<Byte>): (r: Option<nat>)
    ensures r.Some? ==> 2 <= r.value <= |data|
    decreases |data|
  {
    if |data| < 2 || data[0] < 2 || |data| < data[0] then None
    else if data[1] < 128 then Some(data[0])
    else Shifted(data[0], ExtensionsLength(data[data[0]..]))
  }

  /** Walks the chain object by object, as long as each says that more follow. */
  method MeasureExtensions(data: seq<Byte>) returns (length: Option<nat>)
    ensures length == ExtensionsLength(data)
  {
    var offset: nat := 0;
    assert data[0..] == data;
    while true
      invariant offset <= |data|
      invariant ExtensionsLength(data) == Shifted(offset, ExtensionsLength(data[offset..]))
      decreases |data| - offset
    {
      if offset + 2 > |data| {
        return None;
      }
      var extLen := data[offset];
      if extLen < 2 || offset + extLen > |data| {
        return None;
      }
      var moreToFollow := data[offset + 1] >= 128;
      assert data[offset..][extLen..] == data[offset + extLen..];
      offset := offset + extLen;
      if !moreToFollow {
        return Some(offset);
      }
    }
  }

  function Shifted(offset: nat, length: Option<nat>): Option<nat> {
    match length
    case None => None
    case Some(n) => Some(offset + n)
  }

  predicate HasExtensions(frame: seq<Byte>)
    requires HEADER_SIZE <= |frame|
  {
    frame[3] % 2 == 1
  }

  predicate HasEncryptedExtensions(frame: seq<Byte>)
    requires HEADER_SIZE <= |frame|
  {
    frame[3] / 2 % 2 == 1
  }

  /** Where the ciphertext begins, if the frame is an encapsulation with room for the tag. */
  function CipherStart(frame: seq<Byte>): (r: Option<nat>)
    ensures r.Some? ==> HEADER_SIZE <= r.value <= |frame| - TAG_SIZE
  {
    if |frame| < HEADER_SIZE + TAG_SIZE || frame[0] != 0x9F || frame[1] != 0x03 then None
    else
      var extensions := if HasExtensions(frame) then ExtensionsLength(frame[HEADER_SIZE..]) else Some(0);
      if extensions.None? || |frame| < HEADER_SIZE + extensions.value + TAG_SIZE then None
      else Some(HEADER_SIZE + extensions.value)
  }

  /**
   * The command inside a frame, if the cipher opens it as `plain`. A plaintext has the length of its
   * ciphertext, so any other `plain` counts as a failure to decrypt.
   */
  function Decrypt(frame: seq<Byte>, plain: Option<seq<Byte>>): Option<seq<Byte>> {
    var start := CipherStart(frame);
    if start.None? || plain.None? || |plain.value| != |frame| - start.value - TAG_SIZE then None
    else if !HasEncryptedExtensions(frame) then plain
    else
      match ExtensionsLength(plain.value)
      case None => None
      case Some(n) => Some(plain.value[n..])
  }

  /** The frame that carries a ciphertext with tag; `sealed` are the extensions inside the ciphertext. */
  function Encapsulate(number: Byte, extensions: seq<Byte>, sealed: seq<Byte>, ciphertext: seq<Byte>): seq<Byte> {
    var props := (if extensions == [] then 0 else 1) + (if sealed == [] then 0 else 2);
    [0x9F, 0x03, number, props] + (extensions + ciphertext)
  }

  /** Nothing, or exactly one chain of extension objects. */
  predicate IsChain(s: seq<Byte>) {
    s == [] || ExtensionsLength(s) == Some(|s|)
  }

  lemma {:induction false} ChainInFront(s: seq<Byte>, rest: seq<Byte>)
    requires ExtensionsLength(s).Some?
    ensures ExtensionsLength(s + rest) == ExtensionsLength(s)
    decreases |s|
  {
    if s[1] >= 128 {
      assert (s + rest)[s[0]..] == s[s[0]..] + rest;
      ChainInFront(s[s[0]..], rest);
    }
  }

  /** Whatever was encapsulated is what a frame opens to, behind either, both or none of the chains. */
  lemma {:induction false} DecryptUndoesEncapsulate(
    number: Byte, extensions: seq<Byte>, sealed: seq<Byte>, inner: seq<Byte>, ciphertext: seq<Byte>)
    requires IsChain(extensions) && IsChain(sealed) && |ciphertext| == |sealed| + |inner| + TAG_SIZE
    ensures Decrypt(Encapsulate(number, extensions, sealed, ciphertext), Some(sealed + inner)) == Some(inner)
  {
    var frame := Encapsulate(number, extensions, sealed, ciphertext);
    assert frame[HEADER_SIZE..] == extensions + ciphertext;
    if extensions != [] {
      ChainInFront(extensions, ciphertext);
    }
    if sealed == [] {
      assert sealed + inner == inner;
    } else {
      ChainInFront(sealed, inner);
      assert (sealed + inner)[|sealed|..] == inner;
    }
  }

  /** A frame without room for its tag behind the extensions opens to nothing, whatever the cipher says. */
  lemma {:induction false} NoRoomForTag(
    number: Byte, extensions: seq<Byte>, sealed: seq<Byte>, ciphertext: seq<Byte>, plain: Option<seq<Byte>>)
    requires IsChain(extensions) && |ciphertext| < TAG_SIZE
    ensures Decrypt(Encapsulate(number, extensions, sealed, ciphertext), plain) == None
  {
    var frame := Encapsulate(number, extensions, sealed, ciphertext);
    assert frame[HEADER_SIZE..] == extensions + ciphertext;
    if extensions != [] {
      ChainInFront(extensions, ciphertext);
    }
  }

  // ---- Chains of extension objects ---------------------------------------------------------------

  datatype Extension = Extension(kind: Byte, body: seq<Byte>)

  predicate Printable(x: Extension) {
    x.kind < 128 && |x.body| + 2 < 256
  }

  /** One object: its whole length, its kind with the mark that more follow, its body. */
  function Object(x: Extension, more: bool): seq<Byte>
    requires Printable(x)
  {
    [|x.body| + 2, x.kind + if more then 128 else 0] + x.body
  }

  function Chain(xs: seq<Extension>): seq<Byte>
    requires forall i :: 0 <= i < |xs| ==> Printable(xs[i])
  {
    if xs == [] then [] else Object(xs[0], |xs| > 1) + Chain(xs[1..])
  }

  predicate IsSpanExtension(x: Extension) {
    x.kind % 64 == 1 && |x.body| == 16
  }

  /** One object and what follows it, as both readers of a chain see them. */
  lemma {:induction false} ObjectIsRead(x: Extension, more: bool, rest: seq<Byte>)
    requires Printable(x)
    ensures var data := Object(x, more) + rest;
            && ExtensionsLength(data)
               == (if more then Shifted(|x.body| + 2, ExtensionsLength(rest)) else Some(|x.body| + 2))
            && (HoldsSpanExtension(data) <==> IsSpanExtension(x) || (more && HoldsSpanExtension(rest)))
  {
    var data := Object(x, more) + rest;
    assert data[0] == |x.body| + 2 && data[1] == x.kind + (if more then 128 else 0);
    assert data[data[0]..] == rest;
    assert data[1] % 64 == x.kind % 64;
  }

  lemma {:induction false} ChainIsMeasured(xs: seq<Extension>, rest: seq<Byte>)
    requires xs != [] && forall i :: 0 <= i < |xs| ==> Printable(xs[i])
    ensures ExtensionsLength(Chain(xs) + rest) == Some(|Chain(xs)|)
    decreases |xs|
  {
    var tail := xs[1..];
    if |xs| > 1 {
      ChainIsMeasured(tail, rest);
    }
    FirstIsMeasured(xs[0], |xs| > 1, Chain(tail), rest);
    ChainHead(xs, rest);
  }

  lemma {:induction false} FirstIsMeasured(x: Extension, more: bool, others: seq<Byte>, rest: seq<Byte>)
    requires Printable(x) && (if more then ExtensionsLength(others + rest) == Some(|others|) else others == [])
    ensures ExtensionsLength(Object(x, more) + (others + rest)) == Some(|x.body| + 2 + |others|)
  {
    ObjectIsRead(x, more, others + rest);
  }

  lemma {:induction false} ChainIsSearched(xs: seq<Extension>, rest: seq<Byte>)
    requires xs != [] && forall i :: 0 <= i < |xs| ==> Printable(xs[i])
    ensures HoldsSpanExtension(Chain(xs) + rest) <==> SomeIsSpan(xs)
    decreases |xs|
  {
    var tail := xs[1..];
    ChainHead(xs, rest);
    ObjectIsRead(xs[0], |xs| > 1, Chain(tail) + rest);
    SomeInTail(xs);
    if |xs| > 1 {
      ChainIsSearched(tail, rest);
    }
  }

  /**
   * Any chain of objects, whatever follows it: the walk over it finds its length, and the search for a SPAN
   * extension succeeds exactly if one of the objects is one.
   */
  lemma {:induction false} ChainIsRead(xs: seq<Extension>, rest: seq<Byte>)
    requires xs != [] && forall i :: 0 <= i < |xs| ==> Printable(xs[i])
    ensures ExtensionsLength(Chain(xs) + rest) == Some(|Chain(xs)|)
    ensures HoldsSpanExtension(Chain(xs) + rest) <==> SomeIsSpan(xs)
  {
    ChainIsMeasured(xs, rest);
    ChainIsSearched(xs, rest);
  }

  ghost predicate SomeIsSpan(xs: seq<Extension>) {
    exists i :: 0 <= i < |xs| && IsSpanExtension(xs[i])
  }

  lemma {:induction false} ChainHead(xs: seq<Extension>, rest: seq<Byte>)
    requires xs != [] && forall i :: 0 <= i < |xs| ==> Printable(xs[i])
    ensures Chain(xs) + rest == Object(xs[0], |xs| > 1) + (Chain(xs[1..]) + rest)
    ensures |Chain(xs)| == |xs[0].body| + 2 + |Chain(xs[1..])|
  {
    ConcatAssociative(Object(xs[0], |xs| > 1), Chain(xs[1..]), rest);
  }

  lemma {:induction false} SomeInTail(xs: seq<Extension>)
    requires xs != []
    ensures SomeIsSpan(xs) <==> IsSpanExtension(xs[0]) || SomeIsSpan(xs[1..])
  {
    if i :| 0 < i < |xs| && IsSpanExtension(xs[i]) {
      assert xs[1..][i - 1] == xs[i];
    }
    if i :| 0 <= i < |xs[1..]| && IsSpanExtension(xs[1..][i]) {
      assert xs[i + 1] == xs[1..][i];
    }
  }
}
