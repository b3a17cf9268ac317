/** The Serial API data frame: SOF, length, type, command, payload, checksum. */
module DataFrame {
  import opened Bytes

  const SOF: Byte := 0x01
  const CHECKSUM_SEED: Byte := 0xFF
  const MIN_FRAME_SIZE := 5
  const MAX_PAYLOAD_SIZE := 250
  const MAX_FRAME_SIZE := MAX_PAYLOAD_SIZE + 5

  datatype FrameType = Request | Response

  datatype Frame = Frame(frameType: FrameType, commandId: Byte, payload: seq<Byte>)

  function TypeByte(t: FrameType): Byte {
    if t.Request? then 0 else 1
  }

  /** The length octet counts Type through Checksum, truncated to eight bits. */
  function LengthByte(f: Frame): Byte {
    (|f.payload| + 3) % 256
  }

  /** Folds XOR over a run of octets. */
  function XorAll(seed: Byte, s: seq<Byte>): Byte
    decreases |s|
  {
    if s == [] then seed else Xor(XorAll(seed, s[..|s| - 1]), s[|s| - 1])
  }

  lemma {:induction false} XorAllAppend(seed: Byte, s: seq<Byte>, c: Byte)
    ensures XorAll(seed, s + [c]) == Xor(XorAll(seed, s), c)
  {
    assert (s + [c])[..|s|] == s;
  }

  function Checksum(f: Frame): Byte {
    XorAll(CHECKSUM_SEED, [LengthByte(f), TypeByte(f.frameType), f.commandId] + f.payload)
  }

  function Encode(f: Frame): seq<Byte> {
    [SOF, LengthByte(f), TypeByte(f.frameType), f.commandId] + f.payload + [Checksum(f)]
  }

  /** The length octet as a number. */
  function Length(b: seq<Byte>): (n: nat)
    requires 2 <= |b|
    ensures n < 256
  {
    b[1]
  }

  /** Every check of the parser that precedes the first field it stores. */
  predicate HeaderAccepted(b: seq<Byte>) {
    && MIN_FRAME_SIZE <= |b|
    && b[0] == SOF
    && 3 <= Length(b) <= MAX_PAYLOAD_SIZE + 3
    && Length(b) + 2 <= |b|
    && b[2] <= 1
  }

  /** The fields the parser stores once the header is accepted. */
  function Fields(b: seq<Byte>): (f: Frame)
    requires HeaderAccepted(b)
    ensures |f.payload| == Length(b) - 3
  {
    Frame(if b[2] == 0 then Request else Response, b[3], b[4..1 + Length(b)])
  }

  function Decode(b: seq<Byte>): Option<Frame> {
    if HeaderAccepted(b) && b[1 + Length(b)] == Checksum(Fields(b)) then Some(Fields(b)) else None
  }

  /** Where the parts of a printed frame are. */
  lemma {:induction false} PartsOfEncoded(b: seq<Byte>, f: Frame)
    requires Encode(f) <= b
    ensures var n := |f.payload| + 4;
            && n < |b| && b[0] == SOF && b[1] == LengthByte(f) && b[2] == TypeByte(f.frameType)
            && b[3] == f.commandId && b[4..n] == f.payload && b[n] == Checksum(f)
  {
    var e, n := Encode(f), |f.payload| + 4;
    assert b[..n + 1] == e;
    forall i | 0 <= i <= n
      ensures b[i] == e[i]
    {
      assert b[..n + 1][i] == b[i];
    }
    assert e[4..n] == f.payload;
    assert b[4..n] == b[..n + 1][4..n];
  }

  lemma {:induction false} EncodedPrefixDecodes(b: seq<Byte>, f: Frame)
    requires |f.payload| <= MAX_PAYLOAD_SIZE && Encode(f) <= b
    ensures Decode(b) == Some(f)
  {
    PartsOfEncoded(b, f);
    assert Fields(b) == f;
  }

  lemma {:induction false} DecodedStartsWithEncoding(b: seq<Byte>)
    requires HeaderAccepted(b) && b[1 + Length(b)] == Checksum(Fields(b))
    ensures Encode(Fields(b)) <= b
  {
    var n := Length(b) + 2;
    assert b[..n] == [b[0], b[1], b[2], b[3]] + b[4..n - 1] + [b[n - 1]];
  }

  /**
   * The parser accepts exactly the buffers that start with the printed form of a frame whose
   * payload fits, and it returns that frame. Parsing and printing are inverse on whole frames.
   */
  lemma {:induction false} DecodeIffEncodedPrefix(b: seq<Byte>, f: Frame)
    ensures Decode(b) == Some(f) <==> |f.payload| <= MAX_PAYLOAD_SIZE && Encode(f) <= b
  {
    if |f.payload| <= MAX_PAYLOAD_SIZE && Encode(f) <= b {
      EncodedPrefixDecodes(b, f);
    }
    if Decode(b) == Some(f) {
      DecodedStartsWithEncoding(b);
    }
  }

  /** A buffer that holds one frame and nothing else. */
  predicate IsWhole(b: seq<Byte>) {
    2 <= |b| && |b| == Length(b) + 2
  }

  lemma {:induction false} WholeFramesAreTheImageOfEncode(b: seq<Byte>, f: Frame)
    ensures IsWhole(b) && Decode(b) == Some(f) <==> |f.payload| <= MAX_PAYLOAD_SIZE && b == Encode(f)
  {
    DecodeIffEncodedPrefix(b, f);
  }

  lemma {:induction false} XorAllConcat(seed: Byte, s: seq<Byte>, t: seq<Byte>)
    ensures XorAll(seed, s + t) == XorAll(XorAll(seed, s), t)
    decreases |t|
  {
    if t == [] {
      assert s + t == s;
    } else {
      assert (s + t)[..|s + t| - 1] == s + t[..|t| - 1];
      XorAllConcat(seed, s, t[..|t| - 1]);
    }
  }

  /** The fold is the seed combined with the fold from zero, so seeds can be compared. */
  lemma {:induction false} XorAllSeed(seed: Byte, s: seq<Byte>)
    ensures XorAll(seed, s) == Xor(seed, XorAll(0, s))
    decreases |s|
  {
    if s == [] {
      XorSelf(seed);
    } else {
      XorAllSeed(seed, s[..|s| - 1]);
      XorAssociative(seed, XorAll(0, s[..|s| - 1]), s[|s| - 1]);
    }
  }

  /** Changing one octet always changes the fold. */
  lemma {:induction false} XorAllDetects(seed: Byte, s: seq<Byte>, i: nat, v: Byte)
    requires i < |s| && v != s[i]
    ensures XorAll(seed, s[i := v]) != XorAll(seed, s)
  {
    var pre, post := s[..i], s[i + 1..];
    assert s == pre + [s[i]] + post && s[i := v] == pre + [v] + post;
    forall c: Byte
      ensures XorAll(seed, pre + [c] + post) == Xor(XorAll(0, post), Xor(XorAll(seed, pre), c))
    {
      XorAllConcat(seed, pre + [c], post);
      XorAllAppend(seed, pre, c);
      XorAllSeed(Xor(XorAll(seed, pre), c), post);
      XorCommutative(Xor(XorAll(seed, pre), c), XorAll(0, post));
    }
    if XorAll(seed, s[i := v]) == XorAll(seed, s) {
      XorInjective(XorAll(0, post), Xor(XorAll(seed, pre), s[i]), Xor(XorAll(seed, pre), v));
      XorInjective(XorAll(seed, pre), s[i], v);
      assert false;
    }
  }

  /** Length through Checksum of an accepted whole frame folds to zero. */
  lemma {:induction false} AcceptedFoldsToZero(b: seq<Byte>)
    requires IsWhole(b) && Decode(b).Some?
    ensures XorAll(CHECKSUM_SEED, b[1..]) == 0
  {
    var f := Decode(b).value;
    WholeFramesAreTheImageOfEncode(b, f);
    var body := [LengthByte(f), TypeByte(f.frameType), f.commandId] + f.payload;
    assert b[1..] == body + [Checksum(f)];
    XorAllAppend(CHECKSUM_SEED, body, Checksum(f));
    XorSelf(Checksum(f));
  }

  /** Two different accepted frames of one length differ in at least two octets. */
  lemma {:induction false} AcceptedFramesDifferTwice(b: seq<Byte>, c: seq<Byte>, i: nat)
    requires IsWhole(b) && Decode(b).Some? && IsWhole(c) && Decode(c).Some?
    requires |b| == |c| && b != c
    requires i < |b| && b[i] != c[i]
    ensures exists j :: 0 <= j < |b| && j != i && b[j] != c[j]
  {
    if forall j :: 0 <= j < |b| && j != i ==> b[j] == c[j] {
      assert c == b[i := c[i]] && i != 0;
      assert c[1..] == b[1..][i - 1 := c[i]];
      AcceptedFoldsToZero(b);
      AcceptedFoldsToZero(c);
      XorAllDetects(CHECKSUM_SEED, b[1..], i - 1, c[i]);
      assert false;
    }
  }

  /** Any single corrupted octet other than the Length makes the frame rejected. */
  lemma {:induction false} SingleByteErrorRejected(b: seq<Byte>, i: nat, v: Byte)
    requires IsWhole(b) && Decode(b).Some?
    requires i < |b| && i != 1 && v != b[i]
    ensures Decode(b[i := v]).None?
  {
    if i >= 2 && Decode(b[i := v]).Some? {
      AcceptedFramesDifferTwice(b, b[i := v], i);
    }
  }

  lemma {:induction false} XorZeroIff(a: Byte, b: Byte)
    ensures Xor(a, b) == 0 <==> a == b
  {
    XorSelf(a);
    if Xor(a, b) == 0 {
      XorInjective(a, b, a);
    }
  }

  /** What the checksum covers is the buffer from Length up to the Checksum octet. */
  lemma {:induction false} ChecksumOfFields(b: seq<Byte>)
    requires HeaderAccepted(b)
    ensures Checksum(Fields(b)) == XorAll(CHECKSUM_SEED, b[1..1 + Length(b)])
  {
    var f := Fields(b);
    assert LengthByte(f) == b[1] && TypeByte(f.frameType) == b[2] && f.commandId == b[3];
    assert b[1..1 + Length(b)] == [b[1], b[2], b[3]] + b[4..1 + Length(b)];
  }

  /** Once the header is accepted, a buffer decodes exactly if Length through Checksum fold to zero. */
  lemma {:induction false} DecodesIffFoldsToZero(b: seq<Byte>)
    requires HeaderAccepted(b)
    ensures Decode(b).Some? <==> XorAll(CHECKSUM_SEED, b[1..2 + Length(b)]) == 0
  {
    var body, last := b[1..1 + Length(b)], b[1 + Length(b)];
    ChecksumOfFields(b);
    assert b[1..2 + Length(b)] == body + [last];
    XorAllAppend(CHECKSUM_SEED, body, last);
    XorZeroIff(XorAll(CHECKSUM_SEED, body), last);
  }

  /** The first octet can be taken out of a fold and put back last. */
  lemma {:induction false} XorAllFirst(x: Byte, s: seq<Byte>)
    ensures XorAll(CHECKSUM_SEED, [x] + s) == Xor(XorAll(CHECKSUM_SEED, s), x)
  {
    XorAllConcat(CHECKSUM_SEED, [x], s);
    XorAllAppend(CHECKSUM_SEED, [], x);
    assert [] + [x] == [x];
    XorAllSeed(Xor(CHECKSUM_SEED, x), s);
    XorAllSeed(CHECKSUM_SEED, s);
    var fold := XorAll(0, s);
    XorAssociative(CHECKSUM_SEED, x, fold);
    XorCommutative(x, fold);
    XorAssociative(CHECKSUM_SEED, fold, x);
  }

  /** Two ways to balance a fold: with `x` alone, or with `y` and a tail. */
  lemma {:induction false} ShorterFold(middle: seq<Byte>, tail: seq<Byte>, x: Byte, y: Byte)
    requires XorAll(CHECKSUM_SEED, [y] + middle + tail) == 0
    ensures XorAll(CHECKSUM_SEED, [x] + middle) == 0 <==> XorAll(0, tail) == Xor(x, y)
  {
    var fold, rest := XorAll(CHECKSUM_SEED, middle), XorAll(0, tail);
    XorAllConcat(CHECKSUM_SEED, [y] + middle, tail);
    XorAllSeed(XorAll(CHECKSUM_SEED, [y] + middle), tail);
    XorAllFirst(x, middle);
    XorAllFirst(y, middle);
    XorZeroIff(Xor(fold, y), rest);
    XorZeroIff(fold, x);
    XorCommutative(fold, y);
    XorCommutative(x, y);
    if rest == Xor(x, y) {
      XorInjective(y, fold, x);
    }
  }

  /**
   * A corrupted Length octet passes exactly if it announces a shorter frame and the octets it cuts off
   * fold to the difference of the two lengths.
   */
  lemma {:induction false} LengthByteErrorPassesIff(b: seq<Byte>, v: Byte)
    requires IsWhole(b) && Decode(b).Some? && v != b[1]
    ensures Decode(b[1 := v]).Some? <==> 3 <= v < b[1] && XorAll(0, b[2 + v..]) == Xor(v, b[1])
  {
    var c := b[1 := v];
    if 3 <= v < b[1] {
      AcceptedFoldsToZero(b);
      DecodesIffFoldsToZero(c);
      CutFolds(b, v);
    } else {
      assert !HeaderAccepted(c);
    }
  }

  /** The fold of a frame cut short by another Length octet. */
  lemma {:induction false} CutFolds(b: seq<Byte>, v: Byte)
    requires 3 <= v && 2 + v as int <= |b| && XorAll(CHECKSUM_SEED, b[1..]) == 0
    ensures XorAll(CHECKSUM_SEED, b[1 := v][1..2 + v as int]) == 0 <==> XorAll(0, b[2 + v as int..]) == Xor(v, b[1])
  {
    var k := 2 + v as int;
    var middle, tail := b[2..k], b[k..];
    assert b[1..] == [b[1]] + middle + tail;
    assert b[1 := v][1..k] == [v] + middle;
    ShorterFold(middle, tail, v, b[1]);
  }

  /** A frame that stays acceptable when its Length octet changes: a shorter frame hides inside. */
  lemma {:induction false} LengthByteErrorCanPass()
    ensures var b := [SOF, 4, 0, 0, 0xFC, Checksum(Frame(Request, 0, [0xFC]))];
            IsWhole(b) && Decode(b).Some? && Decode(b[1 := 3]).Some?
  {
    var f := Frame(Request, 0, [0xFC]);
    var g := Frame(Request, 0, []);
    var b := Encode(f);
    assert b == [SOF, 4, 0, 0, 0xFC, Checksum(f)];
    WholeFramesAreTheImageOfEncode(b, f);
    assert Checksum(g) == 0xFC by {
      assert [LengthByte(g), TypeByte(g.frameType), g.commandId] + g.payload == [3, 0, 0];
      assert [3, 0, 0][..2] == [3, 0] && [3, 0][..1] == [3];
      assert XorAll(0xFF, [3]) == Xor(0xFF, 3) == 0xFC;
      XorSelf(0xFC);
    }
    assert Encode(g) == [SOF, 3, 0, 0, 0xFC];
    assert Encode(g) <= b[1 := 3];
    DecodeIffEncodedPrefix(b[1 := 3], g);
  }

  lemma {:induction false} HeadFold(x: Byte, y: Byte, z: Byte)
    ensures XorAll(CHECKSUM_SEED, [x, y, z]) == Xor(Xor(Xor(CHECKSUM_SEED, x), y), z)
  {
    assert [x, y, z] == [x] + [y] + [z] && [] + [x] == [x];
    XorAllAppend(CHECKSUM_SEED, [x] + [y], z);
    XorAllAppend(CHECKSUM_SEED, [x], y);
    XorAllAppend(CHECKSUM_SEED, [], x);
  }

  lemma {:induction false} FoldOne(head: seq<Byte>, payload: seq<Byte>, i: nat)
    requires i < |payload|
    ensures XorAll(CHECKSUM_SEED, head + payload[..i + 1])
            == Xor(XorAll(CHECKSUM_SEED, head + payload[..i]), payload[i])
  {
    assert head + payload[..i + 1] == head + payload[..i] + [payload[i]];
    XorAllAppend(CHECKSUM_SEED, head + payload[..i], payload[i]);
  }

  /** A part of an array is that part of any prefix that holds it. */
  lemma {:induction false} SliceOfPrefix(a: array<Byte>, n: nat, i: nat, j: nat)
    requires i <= j <= n <= a.Length
    ensures a[i..j] == a[..n][i..j]
  {
    forall k | 0 <= k < j - i
      ensures a[i..j][k] == a[..n][i..j][k]
    {}
  }

  /** The frame object: its fields are overwritten by parsing and by the setters. */
  class ZwaveDataFrame {
    var frameType: FrameType
    var commandId: Byte
    var payload: seq<Byte>
    var valid: bool

    ghost predicate Valid()
      reads this
    {
      |payload| <= MAX_PAYLOAD_SIZE
    }

    function Value(): Frame
      reads this
    {
      Frame(frameType, commandId, payload)
    }

    constructor ()
      ensures Valid() && Value() == Frame(Request, 0, []) && !valid
    {
      frameType, commandId, payload, valid := Request, 0, [], false;
    }

    method CalculateChecksum() returns (checksum: Byte)
      ensures checksum == Checksum(Value())
    {
      checksum := CHECKSUM_SEED;
      checksum := Xor(checksum, (2 + |payload| + 1) % 256);
      checksum := Xor(checksum, TypeByte(frameType));
      checksum := Xor(checksum, commandId);
      ghost var head := [LengthByte(Value()), TypeByte(frameType), commandId];
      HeadFold(head[0], head[1], head[2]);
      assert head + payload[..0] == head;
      for i := 0 to |payload|
        invariant checksum == XorAll(CHECKSUM_SEED, head + payload[..i])
      {
        FoldOne(head, payload, i);
        checksum := Xor(checksum, payload[i]);
      }
      assert payload[..|payload|] == payload;
    }

    method ToBuffer() returns (buffer: seq<Byte>)
      ensures buffer == Encode(Value())
    {
      var frameLength := (2 + |payload| + 1) % 256;
      buffer := [SOF];
      buffer := buffer + [frameLength];
      buffer := buffer + [TypeByte(frameType)];
      buffer := buffer + [commandId];
      buffer := buffer + payload;
      var checksum := CalculateChecksum();
      buffer := buffer + [checksum];
    }

    /** A failed checksum leaves the stored fields overwritten; an earlier failure leaves them alone. */
    method ParseFromBuffer(buffer: array?<Byte>, length: nat) returns (ok: bool)
      requires buffer != null ==> length <= buffer.Length
      requires Valid()
      modifies this
      ensures Valid() && valid == ok
      ensures ok == (buffer != null && Decode(buffer[..length]).Some?)
      ensures ok ==> Value() == Decode(buffer[..length]).value
      ensures Value() == if buffer != null && HeaderAccepted(buffer[..length]) then Fields(buffer[..length])
                         else old(Value())
    {
      if buffer == null || length < MIN_FRAME_SIZE {
        valid := false;
        return false;
      }
      ghost var b := buffer[..length];
      assert b[0] == buffer[0] && b[1] == buffer[1] && b[2] == buffer[2] && b[3] == buffer[3];
      if buffer[0] != SOF {
        valid := false;
        return false;
      }
      var frameLength := buffer[1];
      if frameLength < 3 || frameLength > MAX_PAYLOAD_SIZE + 3 {
        valid := false;
        return false;
      }
      if length < frameLength + 2 {
        valid := false;
        return false;
      }
      var typeRaw := buffer[2];
      if typeRaw > 1 {
        valid := false;
        return false;
      }
      frameType := if typeRaw == 0 then Request else Response;
      commandId := buffer[3];
      var payloadSize := frameLength - 3;
      payload := [];
      if payloadSize > 0 {
        payload := payload + buffer[4..4 + payloadSize];
      }
      SliceOfPrefix(buffer, length, 4, 4 + payloadSize);
      assert HeaderAccepted(b) && Value() == Fields(b) && b[1 + frameLength] == buffer[1 + frameLength];
      var receivedChecksum := buffer[1 + frameLength];
      var expected := CalculateChecksum();
      valid := receivedChecksum == expected;
      return valid;
    }

    method SetHeader(t: FrameType, cmd: Byte)
      requires Valid()
      modifies this
      ensures Valid() && valid && Value() == Frame(t, cmd, old(payload))
    {
      frameType, commandId, valid := t, cmd, true;
    }

    /** An oversized payload is refused and changes nothing, so what is printed always parses back. */
    method SetPayload(data: seq<Byte>) returns (ok: bool)
      requires Valid()
      modifies this
      ensures Valid() && ok == (|data| <= MAX_PAYLOAD_SIZE)
      ensures Value() == if ok then old(Value()).(payload := data) else old(Value())
      ensures valid == (ok || old(valid))
      ensures Decode(Encode(Value())) == Some(Value())
    {
      DecodeIffEncodedPrefix(Encode(Value()), Value());
      if |data| > MAX_PAYLOAD_SIZE {
        return false;
      }
      payload := [];
      if |data| > 0 {
        payload := payload + data;
      }
      valid := true;
      DecodeIffEncodedPrefix(Encode(Value()), Value());
      return true;
    }
  }
}
