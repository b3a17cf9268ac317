/** The versioned, length-prefixed binary form in which policies are stored. */
module PolicyCodec {
  import opened Bytes
  import opened Sequences
  import opened Policy

  const POLICY_BLOB_VERSION: Byte := 1
  const KIND_CONFIGURATION: Byte := 1
  const KIND_ASSOCIATION: Byte := 2
  const KIND_WAKEUP: Byte := 3

  /** Member and entry counts are written as one octet and silently truncated to it. */
  function CountByte(n: nat): Byte {
    n % 256
  }

  function EncodeEntry(e: Entry): seq<Byte> {
    match e
    case Configuration(parameter, size, isSigned, value) =>
      [KIND_CONFIGURATION, parameter, size, if isSigned then 1 else 0] + U32ToBytes(ToUnsigned(value))
    case Association(groupId, members) =>
      [KIND_ASSOCIATION, groupId, CountByte(|members|)] + members
    case WakeUp(interval, notify) =>
      [KIND_WAKEUP] + U32ToBytes(interval) + [notify]
  }

  function Encode(p: seq<Entry>): seq<Byte> {
    [POLICY_BLOB_VERSION, CountByte(|p|)] + FlatMap(p, EncodeEntry)
  }

  datatype Parsed = Parsed(entry: Entry, rest: seq<Byte>)

  function DecodeEntry(s: seq<Byte>): (r: Option<Parsed>)
    ensures r.Some? ==> |r.value.rest| < |s|
  {
    if s == [] then None
    else if s[0] == KIND_CONFIGURATION then
      if |s| < 8 then None
      else Some(Parsed(Configuration(s[1], s[2], s[3] != 0, ToSigned(BytesToU32(s[4..8]))), s[8..]))
    else if s[0] == KIND_ASSOCIATION then
      if |s| < 3 || |s| - 3 < s[2] then None
      else Some(Parsed(Association(s[1], s[3..3 + s[2] as int]), s[3 + s[2] as int..]))
    else if s[0] == KIND_WAKEUP then
      if |s| < 6 then None
      else Some(Parsed(WakeUp(BytesToU32(s[1..5]), s[5]), s[6..]))
    else None
  }

  function Prepend(pre: seq<Entry>, p: Option<seq<Entry>>): Option<seq<Entry>> {
    if p.Some? then Some(pre + p.value) else None
  }

  function DecodeEntries(s: seq<Byte>, count: nat): (r: Option<seq<Entry>>)
    ensures r.Some? ==> |r.value| == count
    decreases count
  {
    if count == 0 then Some([])
    else
      match DecodeEntry(s)
      case None => None
      case Some(Parsed(entry, rest)) => Prepend([entry], DecodeEntries(rest, count - 1))
  }

  function Decode(bytes: seq<Byte>): Option<seq<Entry>> {
    if |bytes| < 2 || bytes[0] != POLICY_BLOB_VERSION then None else DecodeEntries(bytes[2..], bytes[1])
  }

  /** Every count fits the octet it is written in. */
  predicate EntryStorable(e: Entry) {
    e.Association? ==> |e.members| <= 255
  }

  predicate Storable(p: seq<Entry>) {
    |p| <= 255 && forall e :: e in p ==> EntryStorable(e)
  }

  lemma {:induction false} DecodeOfEncodedEntry(e: Entry, rest: seq<Byte>)
    requires EntryStorable(e)
    ensures DecodeEntry(EncodeEntry(e) + rest) == Some(Parsed(e, rest))
  {
    var s := EncodeEntry(e) + rest;
    match e
    case Configuration(_, _, _, value) =>
      U32RoundTrip(ToUnsigned(value));
      assert s[4..8] == U32ToBytes(ToUnsigned(value)) && s[8..] == rest;
    case Association(_, members) =>
      assert s[3..3 + |members|] == members && s[3 + |members|..] == rest;
    case WakeUp(interval, _) =>
      U32RoundTrip(interval);
      assert s[1..5] == U32ToBytes(interval) && s[6..] == rest;
  }

  lemma {:induction false} DecodeOfEncodedEntries(p: seq<Entry>, rest: seq<Byte>)
    requires forall e :: e in p ==> EntryStorable(e)
    ensures DecodeEntries(FlatMap(p, EncodeEntry) + rest, |p|) == Some(p)
    decreases |p|
  {
    if p != [] {
      assert p == [p[0]] + p[1..];
      FlatMapConcat([p[0]], p[1..], EncodeEntry);
      FlatMapOne(p[0], EncodeEntry);
      ConcatAssociative(EncodeEntry(p[0]), FlatMap(p[1..], EncodeEntry), rest);
      DecodeOfEncodedEntry(p[0], FlatMap(p[1..], EncodeEntry) + rest);
      DecodeOfEncodedEntries(p[1..], rest);
    }
  }

  lemma {:induction false} DecodeHeader(count: Byte, body: seq<Byte>)
    ensures Decode([POLICY_BLOB_VERSION, count] + body) == DecodeEntries(body, count)
  {
    assert ([POLICY_BLOB_VERSION, count] + body)[2..] == body;
  }

  /** A stored policy is recovered whatever follows it in the buffer. */
  lemma {:induction false} DecodeOfEncode(p: seq<Entry>, rest: seq<Byte>)
    requires Storable(p)
    ensures Decode(Encode(p) + rest) == Some(p)
  {
    var header := [POLICY_BLOB_VERSION, CountByte(|p|)];
    assert CountByte(|p|) == |p|;
    DecodeOfEncodedEntries(p, rest);
    ConcatAssociative(header, FlatMap(p, EncodeEntry), rest);
    DecodeHeader(|p|, FlatMap(p, EncodeEntry) + rest);
  }

  lemma {:induction false} DecodedEntriesStorable(s: seq<Byte>, count: nat)
    ensures DecodeEntries(s, count).Some? ==> forall e :: e in DecodeEntries(s, count).value ==> EntryStorable(e)
    decreases count
  {
    if count > 0 && DecodeEntry(s).Some? {
      DecodedEntriesStorable(DecodeEntry(s).value.rest, count - 1);
    }
  }

  lemma {:induction false} DecodedIsStorable(bytes: seq<Byte>)
    requires Decode(bytes).Some?
    ensures Storable(Decode(bytes).value)
  {
    DecodedEntriesStorable(bytes[2..], bytes[1]);
  }

  /** Storing and loading is the identity on exactly the policies whose counts fit an octet. */
  lemma {:induction false} RoundTripIffStorable(p: seq<Entry>)
    ensures Decode(Encode(p)) == Some(p) <==> Storable(p)
  {
    if Storable(p) {
      DecodeOfEncode(p, []);
      assert Encode(p) + [] == Encode(p);
    } else if Decode(Encode(p)) == Some(p) {
      DecodedIsStorable(Encode(p));
    }
  }

  /** No stored form is the beginning of another, so a stored form can be told where it ends. */
  lemma {:induction false} EncodingsArePrefixFree(p: seq<Entry>, q: seq<Entry>)
    requires Storable(p) && Storable(q)
    ensures Encode(p) <= Encode(q) <==> p == q
  {
    if Encode(p) <= Encode(q) {
      assert Encode(q) == Encode(p) + Encode(q)[|Encode(p)|..];
      DecodeOfEncode(p, Encode(q)[|Encode(p)|..]);
      RoundTripIffStorable(q);
    }
  }

  lemma {:induction false} EncodedEntriesFit(s: seq<Byte>, count: nat)
    requires DecodeEntries(s, count).Some?
    ensures |FlatMap(DecodeEntries(s, count).value, EncodeEntry)| <= |s|
    decreases count
  {
    if count > 0 {
      var Parsed(entry, rest) := DecodeEntry(s).value;
      EncodedEntriesFit(rest, count - 1);
      FlatMapConcat([entry], DecodeEntries(rest, count - 1).value, EncodeEntry);
      FlatMapOne(entry, EncodeEntry);
      assert |EncodeEntry(entry)| + |rest| == |s|;
    }
  }

  /**
   * Writing back whatever was loaded changes no meaning: it loads as the same policy, takes no more
   * room (a sign flag becomes 0 or 1 and trailing octets go), and a second rewrite changes nothing.
   */
  lemma {:induction false} RewritingNormalises(bytes: seq<Byte>)
    requires Decode(bytes).Some?
    ensures var normal := Encode(Decode(bytes).value);
            && Decode(normal) == Decode(bytes)
            && |normal| <= |bytes|
            && Encode(Decode(normal).value) == normal
  {
    DecodedIsStorable(bytes);
    RoundTripIffStorable(Decode(bytes).value);
    EncodedEntriesFit(bytes[2..], bytes[1]);
  }

  method AppendU32Be(out: seq<Byte>, value: U32) returns (r: seq<Byte>)
    ensures r == out + U32ToBytes(value)
  {
    r := out + [value / 0x100_0000];
    r := r + [value / 0x1_0000 % 0x100];
    r := r + [value / 0x100 % 0x100];
    r := r + [value % 0x100];
    U32Shifts(value);
  }

  /** Shifting a word right by whole octets and masking picks out its octets. */
  lemma {:induction false} U32Shifts(v: U32)
    ensures U32ToBytes(v) == [v / 0x100_0000, v / 0x1_0000 % 0x100, v / 0x100 % 0x100, v % 0x100]
  {
    assert v / 0x100 / 0x100 == v / 0x1_0000;
    assert v / 0x1_0000 / 0x100 == v / 0x100_0000;
  }

  /** Writes one entry: its kind and its body. */
  method AppendEntry(before: seq<Byte>, entry: Entry) returns (out: seq<Byte>)
    ensures out == before + EncodeEntry(entry)
  {
    out := before;
    match entry {
      case Configuration(parameter, size, isSigned, value) =>
        out := out + [KIND_CONFIGURATION];
        out := out + [parameter];
        out := out + [size];
        out := out + [if isSigned then 1 else 0];
        out := AppendU32Be(out, ToUnsigned(value));
      case Association(groupId, members) =>
        out := out + [KIND_ASSOCIATION];
        out := out + [groupId];
        out := out + [CountByte(|members|)];
        ghost var prefix := out;
        for m := 0 to |members|
          invariant out == prefix + members[..m]
        {
          out := out + [members[m]];
        }
      case WakeUp(interval, notify) =>
        out := out + [KIND_WAKEUP];
        out := AppendU32Be(out, interval);
        out := out + [notify];
    }
  }

  method Serialize(policy: seq<Entry>) returns (out: seq<Byte>)
    ensures out == Encode(policy)
  {
    out := [];
    out := out + [POLICY_BLOB_VERSION];
    out := out + [CountByte(|policy|)];
    ghost var head := out;
    for k := 0 to |policy|
      invariant out == head + FlatMap(policy[..k], EncodeEntry)
    {
      assert policy[..k + 1] == policy[..k] + [policy[k]];
      FlatMapAppend(policy[..k], policy[k], EncodeEntry);
      ConcatAssociative(head, FlatMap(policy[..k], EncodeEntry), EncodeEntry(policy[k]));
      out := AppendEntry(out, policy[k]);
    }
    assert policy[..|policy|] == policy;
  }

  method ReadU32Be(bytes: seq<Byte>, pos: nat) returns (value: U32)
    requires pos + 4 <= |bytes|
    ensures value == BytesToU32(bytes[pos..pos + 4])
  {
    var b3: int, b2: int, b1: int, b0: int := bytes[pos], bytes[pos + 1], bytes[pos + 2], bytes[pos + 3];
    value := b3 * 0x100_0000 + b2 * 0x1_0000 + b1 * 0x100 + b0;
  }

  /** The decoder of one entry, reading in the middle of a buffer instead of at the front of what is left. */
  function DecodeEntryAt(b: seq<Byte>, start: nat): Option<Parsed>
    requires start <= |b|
  {
    if start == |b| then None
    else if b[start] == KIND_CONFIGURATION then
      if start + 8 > |b| then None
      else
        var value := ToSigned(BytesToU32(b[start + 4..start + 8]));
        Some(Parsed(Configuration(b[start + 1], b[start + 2], b[start + 3] != 0, value), b[start + 8..]))
    else if b[start] == KIND_ASSOCIATION then
      if start + 3 > |b| || start + 3 + b[start + 2] as int > |b| then None
      else
        var end := start + 3 + b[start + 2] as int;
        Some(Parsed(Association(b[start + 1], b[start + 3..end]), b[end..]))
    else if b[start] == KIND_WAKEUP then
      if start + 6 > |b| then None
      else Some(Parsed(WakeUp(BytesToU32(b[start + 1..start + 5]), b[start + 5]), b[start + 6..]))
    else None
  }

  lemma {:induction false} DecodeEntryAtIs(b: seq<Byte>, start: nat)
    requires start <= |b|
    ensures DecodeEntryAt(b, start) == DecodeEntry(b[start..])
  {
    var s := b[start..];
    if start + 8 <= |b| {
      SliceOfTail(b, start, 4, 8);
    }
    if start + 6 <= |b| {
      SliceOfTail(b, start, 1, 5);
      SliceOfTail(b, start, 1, 6);
    }
    if start + 3 <= |b| && start + 3 + b[start + 2] as int <= |b| {
      SliceOfTail(b, start, 3, 3 + b[start + 2] as int);
    }
  }

  /** Copies members one by one. */
  method ReadMembers(bytes: seq<Byte>, start: nat, count: nat) returns (members: seq<Byte>, pos: nat)
    requires start + count <= |bytes|
    ensures pos == start + count && members == bytes[start..pos]
  {
    members, pos := [], start;
    for m := 0 to count
      invariant pos == start + m && members == bytes[start..pos]
    {
      members := members + [bytes[pos]];
      pos := pos + 1;
    }
  }

  /** Reads the entry at `pos` and advances past it; fails when the buffer ends too early. */
  method ReadEntry(bytes: seq<Byte>, start: nat) returns (r: Option<Entry>, pos: nat)
    requires start <= |bytes|
    ensures pos <= |bytes|
    ensures r == match DecodeEntry(bytes[start..]) case None => None case Some(parsed) => Some(parsed.entry)
    ensures r.Some? ==> bytes[pos..] == DecodeEntry(bytes[start..]).value.rest
  {
    DecodeEntryAtIs(bytes, start);
    pos := start;
    if pos >= |bytes| {
      return None, pos;
    }
    var kind := bytes[pos];
    pos := pos + 1;
    if kind == KIND_CONFIGURATION {
      if pos + 7 > |bytes| {
        return None, pos;
      }
      var parameter, size, isSigned := bytes[pos], bytes[pos + 1], bytes[pos + 2] != 0;
      var raw := ReadU32Be(bytes, pos + 3);
      pos := pos + 7;
      return Some(Configuration(parameter, size, isSigned, ToSigned(raw))), pos;
    } else if kind == KIND_ASSOCIATION {
      if pos + 2 > |bytes| {
        return None, pos;
      }
      var groupId, memberCt := bytes[pos], bytes[pos + 1] as int;
      pos := pos + 2;
      if pos + memberCt > |bytes| {
        return None, pos;
      }
      var members;
      members, pos := ReadMembers(bytes, pos, memberCt);
      return Some(Association(groupId, members)), pos;
    } else if kind == KIND_WAKEUP {
      if pos + 5 > |bytes| {
        return None, pos;
      }
      var interval := ReadU32Be(bytes, pos);
      var notify := bytes[pos + 4];
      pos := pos + 5;
      return Some(WakeUp(interval, notify)), pos;
    } else {
      return None, pos;
    }
  }

  /** Reading `left` more entries from `s` behind those already read. */
  function Finish(policy: seq<Entry>, s: seq<Byte>, left: nat): Option<seq<Entry>>
    decreases left
  {
    if left == 0 then Some(policy)
    else
      match DecodeEntry(s)
      case None => None
      case Some(parsed) => Finish(policy + [parsed.entry], parsed.rest, left - 1)
  }

  lemma {:induction false} FinishIs(policy: seq<Entry>, s: seq<Byte>, left: nat)
    ensures Finish(policy, s, left) == Prepend(policy, DecodeEntries(s, left))
    decreases left
  {
    if left == 0 {
      assert policy + [] == policy;
    } else if DecodeEntry(s).Some? {
      var parsed := DecodeEntry(s).value;
      FinishIs(policy + [parsed.entry], parsed.rest, left - 1);
      PrependTwice(policy, parsed.entry, DecodeEntries(parsed.rest, left - 1));
    }
  }

  lemma {:induction false} DecodeFinishes(bytes: seq<Byte>)
    requires 2 <= |bytes| && bytes[0] == POLICY_BLOB_VERSION
    ensures Decode(bytes) == Finish([], bytes[2..], bytes[1])
  {
    FinishIs([], bytes[2..], bytes[1]);
    PrependNothing(DecodeEntries(bytes[2..], bytes[1]));
  }

  method Deserialize(bytes: seq<Byte>) returns (r: Option<seq<Entry>>)
    ensures r == Decode(bytes)
  {
    if |bytes| < 2 || bytes[0] != POLICY_BLOB_VERSION {
      return None;
    }
    DecodeFinishes(bytes);
    r := ReadEntries(bytes, 2, bytes[1]);
  }

  /** The loop of the decoder. */
  method ReadEntries(bytes: seq<Byte>, start: nat, count: nat) returns (r: Option<seq<Entry>>)
    requires start <= |bytes|
    ensures r == Finish([], bytes[start..], count)
  {
    var policy: seq<Entry>, pos: nat := [], start;
    for index := 0 to count
      invariant pos <= |bytes|
      invariant Finish([], bytes[start..], count) == Finish(policy, bytes[pos..], count - index)
    {
      var entry, next := ReadEntry(bytes, pos);
      if entry.None? {
        return None;
      }
      policy, pos := policy + [entry.value], next;
    }
    return Some(policy);
  }

  lemma {:induction false} PrependNothing(r: Option<seq<Entry>>)
    ensures Prepend([], r) == r
  {
    if r.Some? {
      assert [] + r.value == r.value;
    }
  }

  lemma {:induction false} PrependTwice(p: seq<Entry>, e: Entry, r: Option<seq<Entry>>)
    ensures Prepend(p, Prepend([e], r)) == Prepend(p + [e], r)
  {
    if r.Some? {
      ConcatAssociative(p, [e], r.value);
    }
  }

  lemma {:induction false} WordExamples()
    ensures U32ToBytes(ToUnsigned(-2)) == [0xFF, 0xFF, 0xFF, 0xFE] && U32ToBytes(300) == [0, 0, 0x01, 0x2C]
  {}

  lemma {:induction false} EntryExamples()
    ensures EncodeEntry(Configuration(3, 4, true, -2)) == [1, 3, 4, 1, 0xFF, 0xFF, 0xFF, 0xFE]
    ensures EncodeEntry(Association(1, [5, 6])) == [2, 1, 2, 5, 6]
    ensures EncodeEntry(WakeUp(300, 7)) == [3, 0, 0, 0x01, 0x2C, 7]
  {
    WordExamples();
  }

  /** One policy with an entry of each kind, octet by octet. */
  lemma {:induction false} BlobExample()
    ensures Encode([Configuration(3, 4, true, -2), Association(1, [5, 6]), WakeUp(300, 7)])
            == [1, 3] + [1, 3, 4, 1, 0xFF, 0xFF, 0xFF, 0xFE] + [2, 1, 2, 5, 6] + [3, 0, 0, 0x01, 0x2C, 7]
  {
    var a, b, c := Configuration(3, 4, true, -2), Association(1, [5, 6]), WakeUp(300, 7);
    var head: seq<Byte> := [1, 3];
    EntryExamples();
    assert [a, b, c] == [a] + [b] + [c];
    FlatMapAppend([a] + [b], c, EncodeEntry);
    FlatMapAppend([a], b, EncodeEntry);
    FlatMapOne(a, EncodeEntry);
    ConcatAssociative(head, EncodeEntry(a), EncodeEntry(b));
    ConcatAssociative(head, EncodeEntry(a) + EncodeEntry(b), EncodeEntry(c));
  }
}
