/**
 * The byte-fed receive parser, and the whole-stream scanner it refines. The parser sees one octet at
 * a time and keeps a partial frame; the scanner looks at the complete stream and cuts frames out of it.
 */
module FrameParser {
  import opened Bytes
  import opened DataFrame
  import opened Sequences

  const ACK: Byte := 0x06
  const NAK: Byte := 0x15
  const CAN: Byte := 0x18

  datatype Event = Ack | Nak | Can | DataFrame(frame: Frame)

  datatype Parser =
    | WaitFrameStart
    | WaitLength
    | WaitPayload(expected: nat, bytes: seq<Byte>)
  {
    /** What holds in every state the parser can reach. */
    predicate Valid() {
      WaitPayload? ==>
        && MIN_FRAME_SIZE <= expected <= MAX_FRAME_SIZE
        && 2 <= |bytes| < expected
        && bytes[0] == SOF && bytes[1] == expected - 2
    }
  }

  datatype Fed = Fed(parser: Parser, events: seq<Event>)

  /** The events raised by a buffer holding one complete candidate frame. */
  function FrameEvents(b: seq<Byte>): seq<Event> {
    match Decode(b)
    case Some(f) => [DataFrame(f)]
    case None => []
  }

  function Feed(p: Parser, byte: Byte): (r: Fed)
    ensures |r.events| <= 1
  {
    match p
    case WaitFrameStart =>
      if byte == ACK then Fed(WaitFrameStart, [Ack])
      else if byte == NAK then Fed(WaitFrameStart, [Nak])
      else if byte == CAN then Fed(WaitFrameStart, [Can])
      else if byte == SOF then Fed(WaitLength, [])
      else Fed(WaitFrameStart, [])
    case WaitLength =>
      if byte < 3 || 2 + byte as int > MAX_FRAME_SIZE then Fed(WaitFrameStart, [])
      else Fed(WaitPayload(2 + byte, [SOF, byte]), [])
    case WaitPayload(expected, bytes) =>
      var all := bytes + [byte];
      if |all| < expected then Fed(WaitPayload(expected, all), [])
      else Fed(WaitFrameStart, FrameEvents(all))
  }

  function FeedAll(p: Parser, s: seq<Byte>): Fed
    decreases |s|
  {
    if s == [] then Fed(p, [])
    else
      var first := Feed(p, s[0]);
      var rest := FeedAll(first.parser, s[1..]);
      Fed(rest.parser, first.events + rest.events)
  }

  /** The reference: cut the stream into control octets, candidate frames and junk. */
  function Scan(s: seq<Byte>): seq<Event>
    decreases |s|
  {
    if s == [] then []
    else if s[0] == 0x06 then [Ack] + Scan(s[1..])
    else if s[0] == 0x15 then [Nak] + Scan(s[1..])
    else if s[0] == 0x18 then [Can] + Scan(s[1..])
    else if s[0] != 0x01 then Scan(s[1..])
    else if |s| == 1 then []
    else if !(3 <= s[1] <= 253) then Scan(s[2..])
    else if |s| - 2 < s[1] then []
    else FrameEvents(s[..s[1] + 2]) + Scan(s[s[1] + 2..])
  }

  lemma {:induction false} FeedAllConcat(p: Parser, s: seq<Byte>, t: seq<Byte>)
    ensures FeedAll(p, s + t).parser == FeedAll(FeedAll(p, s).parser, t).parser
    ensures FeedAll(p, s + t).events == FeedAll(p, s).events + FeedAll(FeedAll(p, s).parser, t).events
    decreases |s|
  {
    if s == [] {
      assert s + t == t;
    } else {
      var r := Feed(p, s[0]);
      assert (s + t)[0] == s[0] && (s + t)[1..] == s[1..] + t;
      FeedAllConcat(r.parser, s[1..], t);
      ConcatAssociative(r.events, FeedAll(r.parser, s[1..]).events, FeedAll(FeedAll(p, s).parser, t).events);
    }
  }

  /** Inside a frame nothing is reported until the announced length is reached. */
  lemma {:induction false} PayloadAccumulates(n: nat, pre: seq<Byte>, s: seq<Byte>)
    requires |pre| + |s| <= n && |pre| < n
    ensures FeedAll(WaitPayload(n, pre), s) ==
            if |pre| + |s| < n then Fed(WaitPayload(n, pre + s), []) else Fed(WaitFrameStart, FrameEvents(pre + s))
    decreases |s|
  {
    if s == [] {
      assert pre + s == pre;
    } else if |s| == 1 {
      assert s == [s[0]] && s[1..] == [];
    } else {
      assert pre + s == pre + [s[0]] + s[1..];
      PayloadAccumulates(n, pre + [s[0]], s[1..]);
    }
  }

  /** A frame start that is long enough is fed as one candidate, and the rest from the next boundary on. */
  lemma {:induction false} CandidateIsFed(s: seq<Byte>)
    requires 2 <= |s| && s[0] == SOF && 3 <= s[1] <= MAX_PAYLOAD_SIZE + 3
    ensures var n := s[1] + 2;
            FeedAll(WaitFrameStart, s).events
            == if |s| < n then [] else FrameEvents(s[..n]) + FeedAll(WaitFrameStart, s[n..]).events
  {
    var n, rest := s[1] + 2, s[2..];
    var inside := WaitPayload(n, [SOF, s[1]]);
    LengthIsFed(s);
    assert [SOF, s[1]] + rest == s;
    if |s| < n {
      PayloadAccumulates(n, [SOF, s[1]], rest);
    } else {
      assert rest == s[2..n] + s[n..];
      assert [SOF, s[1]] + s[2..n] == s[..n];
      PayloadAccumulates(n, [SOF, s[1]], s[2..n]);
      FeedAllConcat(inside, s[2..n], s[n..]);
    }
  }

  lemma {:induction false} LengthIsFed(s: seq<Byte>)
    requires 2 <= |s| && s[0] == SOF
    ensures FeedAll(WaitFrameStart, s).events
            == FeedAll(if 3 <= s[1] <= MAX_PAYLOAD_SIZE + 3 then WaitPayload(s[1] + 2, [SOF, s[1]]) else WaitFrameStart,
                       s[2..]).events
  {
    assert s[1..][1..] == s[2..];
    assert FeedAll(WaitFrameStart, s).events == FeedAll(WaitLength, s[1..]).events;
  }

  /** The byte-fed parser reports exactly what the whole-stream scanner finds. */
  lemma {:induction false} ParserRefinesScanner(s: seq<Byte>)
    ensures FeedAll(WaitFrameStart, s).events == Scan(s)
    decreases |s|
  {
    if s == [] {
    } else if s[0] != SOF {
      ParserRefinesScanner(s[1..]);
    } else if |s| == 1 {
      assert s[1..] == [];
    } else if !(3 <= s[1] <= MAX_PAYLOAD_SIZE + 3) {
      LengthIsFed(s);
      ParserRefinesScanner(s[2..]);
    } else {
      CandidateIsFed(s);
      if |s| >= s[1] + 2 {
        ParserRefinesScanner(s[s[1] + 2..]);
      }
    }
  }

  function Flatten<T>(chunks: seq<seq<T>>): seq<T> {
    if chunks == [] then [] else chunks[0] + Flatten(chunks[1..])
  }

  function FeedChunks(p: Parser, chunks: seq<seq<Byte>>): Fed
    decreases |chunks|
  {
    if chunks == [] then Fed(p, [])
    else
      var first := FeedAll(p, chunks[0]);
      var rest := FeedChunks(first.parser, chunks[1..]);
      Fed(rest.parser, first.events + rest.events)
  }

  /** How the stream was split into reads makes no difference. */
  lemma {:induction false} ChunkingIsIrrelevant(p: Parser, chunks: seq<seq<Byte>>)
    ensures FeedChunks(p, chunks) == FeedAll(p, Flatten(chunks))
    decreases |chunks|
  {
    if chunks != [] {
      ChunkingIsIrrelevant(FeedAll(p, chunks[0]).parser, chunks[1..]);
      FeedAllConcat(p, chunks[0], Flatten(chunks[1..]));
    }
  }

  /** A stretch of noise followed by one printed frame. */
  datatype Segment = Segment(noise: seq<Byte>, frame: Frame)

  function Transmit(segments: seq<Segment>): seq<Byte> {
    if segments == [] then []
    else segments[0].noise + Encode(segments[0].frame) + Transmit(segments[1..])
  }

  function FrameIn(e: Event): seq<Frame> {
    if e.DataFrame? then [e.frame] else []
  }

  function FramesOf(events: seq<Event>): seq<Frame> {
    FlatMap(events, FrameIn)
  }

  function SentFrames(segments: seq<Segment>): seq<Frame> {
    if segments == [] then [] else [segments[0].frame] + SentFrames(segments[1..])
  }

  lemma {:induction false} NoiseRaisesNoFrame(noise: seq<Byte>, rest: seq<Byte>)
    requires SOF !in noise
    ensures FramesOf(Scan(noise + rest)) == FramesOf(Scan(rest))
    decreases |noise|
  {
    if noise == [] {
      assert noise + rest == rest;
    } else {
      var s := noise + rest;
      assert s[0] == noise[0] && s[1..] == noise[1..] + rest;
      NoiseRaisesNoFrame(noise[1..], rest);
      forall e: Event | !e.DataFrame?
        ensures FramesOf([e] + Scan(s[1..])) == FramesOf(Scan(s[1..]))
      {
        FlatMapConcat([e], Scan(s[1..]), FrameIn);
        FlatMapOne(e, FrameIn);
      }
    }
  }

  lemma {:induction false} FrameIsCutOut(f: Frame, rest: seq<Byte>)
    requires |f.payload| <= MAX_PAYLOAD_SIZE
    ensures Scan(Encode(f) + rest) == [DataFrame(f)] + Scan(rest)
  {
    var s := Encode(f) + rest;
    var n := |Encode(f)|;
    assert s[0] == SOF && s[1] == |f.payload| + 3 && n == s[1] + 2;
    assert s[..n] == Encode(f) && s[n..] == rest;
    EncodedPrefixDecodes(Encode(f), f);
  }

  /** Frames whose payload fits are delivered exactly, in order, through SOF-free noise and any chunking. */
  lemma {:induction false} DeliveryIsExact(segments: seq<Segment>, tail: seq<Byte>, chunks: seq<seq<Byte>>)
    requires forall g :: g in segments ==> SOF !in g.noise && |g.frame.payload| <= MAX_PAYLOAD_SIZE
    requires SOF !in tail
    requires Flatten(chunks) == Transmit(segments) + tail
    ensures FramesOf(FeedChunks(WaitFrameStart, chunks).events) == SentFrames(segments)
  {
    ChunkingIsIrrelevant(WaitFrameStart, chunks);
    ParserRefinesScanner(Flatten(chunks));
    ScanDelivers(segments, tail);
  }

  lemma {:induction false} ScanDelivers(segments: seq<Segment>, tail: seq<Byte>)
    requires forall g :: g in segments ==> SOF !in g.noise && |g.frame.payload| <= MAX_PAYLOAD_SIZE
    requires SOF !in tail
    ensures FramesOf(Scan(Transmit(segments) + tail)) == SentFrames(segments)
    decreases |segments|
  {
    if segments == [] {
      assert Transmit(segments) + tail == tail + [];
      NoiseRaisesNoFrame(tail, []);
    } else {
      var g, rest := segments[0], Transmit(segments[1..]) + tail;
      ConcatAssociative(g.noise + Encode(g.frame), Transmit(segments[1..]), tail);
      ConcatAssociative(g.noise, Encode(g.frame), rest);
      NoiseRaisesNoFrame(g.noise, Encode(g.frame) + rest);
      FrameIsCutOut(g.frame, rest);
      FlatMapConcat([DataFrame(g.frame)], Scan(rest), FrameIn);
      FlatMapOne(DataFrame(g.frame), FrameIn);
      ScanDelivers(segments[1..], tail);
    }
  }

  /** Every reachable parser state is valid, so the frame buffer never exceeds the largest frame. */
  lemma {:induction false} ReachableStatesAreValid(p: Parser, s: seq<Byte>)
    requires p.Valid()
    ensures FeedAll(p, s).parser.Valid()
    decreases |s|
  {
    if s != [] {
      ReachableStatesAreValid(Feed(p, s[0]).parser, s[1..]);
    }
  }

  /** How many further octets can keep the parser away from a frame boundary. */
  function Distance(p: Parser): nat
    requires p.Valid()
  {
    match p
    case WaitFrameStart => 0
    case WaitLength => MAX_FRAME_SIZE - 1
    case WaitPayload(expected, bytes) => expected - |bytes|
  }

  /** From any reachable state the parser is back at a frame boundary within 254 octets. */
  lemma {:induction false} Resynchronises(p: Parser, s: seq<Byte>) returns (k: nat)
    requires p.Valid()
    requires Distance(p) <= |s|
    ensures k <= Distance(p) <= MAX_FRAME_SIZE - 1
    ensures FeedAll(p, s[..k]).parser == WaitFrameStart
    decreases Distance(p)
  {
    if p.WaitFrameStart? {
      k := 0;
    } else {
      var rest := Resynchronises(Feed(p, s[0]).parser, s[1..]);
      k := rest + 1;
      assert s[..k][1..] == s[1..][..rest];
    }
  }

  /** The bound is tight: 253 octets need not be enough. */
  lemma {:induction false} ResyncBoundIsTight(payload: seq<Byte>, k: nat)
    requires |payload| == 252 && k <= 253
    ensures FeedAll(WaitLength, ([253] + payload)[..k]).parser != WaitFrameStart
  {
    var s: seq<Byte> := [253] + payload;
    if k > 0 {
      assert s[..k][1..] == payload[..k - 1];
      PayloadAccumulates(255, [SOF, 253], payload[..k - 1]);
    }
  }
}
