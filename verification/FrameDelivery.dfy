/** What the serial line delivers: in reception between sends, and while a send waits for its answer. */
module FrameDelivery {
  import opened Bytes
  import opened DataFrame
  import opened FrameParser
  import opened FrameTransport
  import opened Sequences

  // ---- Reception ---------------------------------------------------------------------------------

  function AckOrDelivery(o: Op): seq<Op> {
    if o.AckWritten? || o.Dispatched? then [o] else []
  }

  function AckThenDispatch(f: Frame): seq<Op> {
    [AckWritten, Dispatched(f)]
  }

  lemma {:induction false} OctetHandles(p: Parser, byte: Byte)
    ensures FlatMap(OctetOps(p, byte), AckOrDelivery) == FlatMap(FramesOf(Feed(p, byte).events), AckThenDispatch)
  {
    var events := Feed(p, byte).events;
    OctetOpsShape(p, byte);
    if events != [] {
      assert events == [events[0]];
      FlatMapOne(events[0], FrameIn);
    }
    var f := if events != [] && events[0].DataFrame? then events[0].frame else Frame(Request, 0, []);
    FlatMapTriple(Took(byte), AckWritten, Dispatched(f), AckOrDelivery);
    FlatMapOne(f, AckThenDispatch);
  }

  /** Acknowledgements and deliveries are those of the completed frames: one ACK, then that frame, in turn. */
  lemma {:induction false} PumpHandles(p: Parser, s: seq<Byte>)
    ensures FlatMap(PumpOps(p, s), AckOrDelivery) == FlatMap(FramesOf(FeedAll(p, s).events), AckThenDispatch)
    decreases |s|
  {
    if s != [] {
      var r := Feed(p, s[0]);
      PumpHandles(r.parser, s[1..]);
      OctetHandles(p, s[0]);
      FlatMapConcat(OctetOps(p, s[0]), PumpOps(r.parser, s[1..]), AckOrDelivery);
      FlatMapConcat(r.events, FeedAll(r.parser, s[1..]).events, FrameIn);
      FlatMapConcat(FramesOf(r.events), FramesOf(FeedAll(r.parser, s[1..]).events), AckThenDispatch);
    }
  }

  /**
   * Any frames whose payload fits, with SOF-free noise between and behind them and cut into any reads: the
   * transport writes one ACK for each and hands it on directly behind that, in order, and does nothing else.
   */
  lemma {:induction false} ReceptionIsExact(segments: seq<Segment>, tail: seq<Byte>, chunks: seq<seq<Byte>>)
    requires forall g :: g in segments ==> SOF !in g.noise && |g.frame.payload| <= MAX_PAYLOAD_SIZE
    requires SOF !in tail
    requires Flatten(chunks) == Transmit(segments) + tail
    ensures FlatMap(PumpOps(WaitFrameStart, Flatten(chunks)), AckOrDelivery)
            == FlatMap(SentFrames(segments), AckThenDispatch)
  {
    PumpHandles(WaitFrameStart, Flatten(chunks));
    ParserRefinesScanner(Flatten(chunks));
    ScanDelivers(segments, tail);
  }

  // ---- The answer to a send ----------------------------------------------------------------------

  /** The first event that is not a data frame. */
  function FirstControl(events: seq<Event>): Option<Event> {
    if events == [] then None else if !events[0].DataFrame? then Some(events[0]) else FirstControl(events[1..])
  }

  lemma {:induction false} FirstControlBehindFrames(frames: seq<Event>, rest: seq<Event>)
    requires OnlyFrames(frames)
    ensures FirstControl(frames + rest) == FirstControl(rest)
    decreases |frames|
  {
    if frames == [] {
      assert frames + rest == rest;
    } else {
      assert (frames + rest)[0] == frames[0] && (frames + rest)[1..] == frames[1..] + rest;
      FirstControlBehindFrames(frames[1..], rest);
    }
  }

  /** The answer a line gives: its first control octet, or none before the deadline. */
  function Answer(p: Parser, line: seq<Byte>): Verdict {
    match FirstControl(FeedAll(p, line).events)
    case None => TimedOut
    case Some(e) => if e.DataFrame? then TimedOut else ControlVerdict(e)
  }

  lemma {:induction false} SettledFirst(events: seq<Event>, rest: seq<Event>, v: Verdict)
    requires SettledBy(events, Announcement(Some(v)))
    ensures Announcement(Some(v)) != [] ==> FirstControl(events + rest) == Some(Announcement(Some(v))[0])
    ensures Announcement(Some(v)) == [] ==> FirstControl(events) == None
  {
    var announced := Announcement(Some(v));
    var frames :| OnlyFrames(frames) && events == frames + announced;
    ConcatAssociative(frames, announced, rest);
    FirstControlBehindFrames(frames, announced + rest);
    FirstControlBehindFrames(frames, announced);
  }

  /** The nested loops of a wait find the first control octet of everything the polls bring in. */
  lemma {:induction false} WaitFindsAnswer(p: Parser, polls: seq<Poll>)
    ensures AwaitRun(p, polls).verdict == Some(Answer(p, Polled(polls)))
  {
    var w, line := AwaitRun(p, polls), Polled(polls);
    WaitIsFaithful(p, polls);
    var rest := line[|w.taken|..];
    assert line == w.taken + rest;
    FeedAllConcat(p, w.taken, rest);
    SettledFirst(FeedAll(p, w.taken).events, FeedAll(w.parser, rest).events, w.verdict.value);
  }

  /** The write succeeds and the line answers with an ACK first. */
  predicate Acknowledged(p: Parser, a: Attempt) {
    a.writeOk && Answer(p, Polled(a.polls)) == Acked
  }

  /** A send succeeds exactly if one of its attempts is written and answered with an ACK first. */
  lemma {:induction false} SendSucceedsIff(p: Parser, script: seq<Attempt>)
    ensures Succeeded(SendRun(p, script)) <==> exists i :: 0 <= i < |script| && Acknowledged(NextStart(p, i), script[i])
    decreases |script|
  {
    if script != [] {
      WaitFindsAnswer(p, script[0].polls);
      var rest := script[1..];
      SendSucceedsIff(WaitFrameStart, rest);
      if Acknowledged(p, script[0]) {
        assert Acknowledged(NextStart(p, 0), script[0]);
      } else {
        assert Succeeded(SendRun(p, script)) <==> Succeeded(SendRun(WaitFrameStart, rest));
        forall i | 0 <= i < |rest|
          ensures NextStart(WaitFrameStart, i) == NextStart(p, i + 1) && rest[i] == script[i + 1]
        {}
        if j :| 0 <= j < |script| && Acknowledged(NextStart(p, j), script[j]) {
          assert Acknowledged(NextStart(WaitFrameStart, j - 1), rest[j - 1]);
        }
        if j :| 0 <= j < |rest| && Acknowledged(NextStart(WaitFrameStart, j), rest[j]) {
          assert Acknowledged(NextStart(p, j + 1), script[j + 1]);
        }
      }
    }
  }

  // ---- What a settled wait loses -----------------------------------------------------------------

  lemma {:induction false} ChunkSettlesAtBoundary(p: Parser, s: seq<Byte>)
    ensures ChunkRun(p, s).verdict.Some? ==> ChunkRun(p, s).parser == WaitFrameStart
    decreases |s|
  {
    if s != [] && !IsControl(Feed(p, s[0]).events) {
      ChunkSettlesAtBoundary(Feed(p, s[0]).parser, s[1..]);
    }
  }

  lemma {:induction false} FramesOfConcat(a: seq<Event>, b: seq<Event>)
    ensures FramesOf(a + b) == FramesOf(a) + FramesOf(b)
  {
    FlatMapConcat(a, b, FrameIn);
  }

  lemma {:induction false} SamePrefixIff<T>(a: seq<T>, b: seq<T>)
    ensures a == a + b <==> b == []
  {
    assert b == [] ==> a + b == a;
    assert a == a + b ==> |b| == 0;
  }

  /** One read taken during a send delivers what reception would exactly if nothing complete is left in it. */
  lemma {:induction false} ChunkDeliversAllIff(p: Parser, s: seq<Byte>)
    ensures var w := ChunkRun(p, s);
            && w.taken <= s
            && (FramesOf(FeedAll(p, w.taken).events) == FramesOf(FeedAll(p, s).events)
                <==> w.verdict.None? || FramesOf(Scan(s[|w.taken|..])) == [])
  {
    var w := ChunkRun(p, s);
    ChunkIsFaithful(p, s);
    ChunkSettlesAtBoundary(p, s);
    var rest := s[|w.taken|..];
    assert s == w.taken + rest;
    FeedAllConcat(p, w.taken, rest);
    FramesOfConcat(FeedAll(p, w.taken).events, FeedAll(w.parser, rest).events);
    if w.verdict.Some? {
      ParserRefinesScanner(rest);
      SamePrefixIff(FramesOf(FeedAll(p, w.taken).events), FramesOf(Scan(rest)));
    }
  }

  /** What is left of the read that settled a wait: the source never looks at it. */
  function LeftBehind(p: Parser, polls: seq<Poll>): seq<Byte>
    decreases |polls|
  {
    if polls == [] then []
    else if polls[0].NoData? then LeftBehind(p, polls[1..])
    else
      var w := ChunkRun(p, polls[0].bytes);
      if w.verdict.None? then LeftBehind(w.parser, polls[1..])
      else if |w.taken| <= |polls[0].bytes| then polls[0].bytes[|w.taken|..]
      else []
  }

  lemma {:induction false} PrefixBehind<T>(a: seq<T>, b: seq<T>, c: seq<T>)
    requires b <= c
    ensures a + b <= a + c
  {
    assert c == b + c[|b|..];
    ConcatAssociative(a, b, c[|b|..]);
  }

  /** What is taken and what is left behind are the beginning of what the polls bring in. */
  lemma {:induction false} TakenAndLeftAreRead(p: Parser, polls: seq<Poll>)
    ensures AwaitRun(p, polls).taken + LeftBehind(p, polls) <= Polled(polls)
    decreases |polls|
  {
    if polls == [] {
    } else if polls[0].NoData? {
      TakenAndLeftAreRead(p, polls[1..]);
      assert [] + Polled(polls[1..]) == Polled(polls[1..]);
    } else {
      var bytes := polls[0].bytes;
      var w := ChunkRun(p, bytes);
      ChunkIsFaithful(p, bytes);
      if w.verdict.None? {
        var rest, left := AwaitRun(w.parser, polls[1..]).taken, LeftBehind(w.parser, polls[1..]);
        TakenAndLeftAreRead(w.parser, polls[1..]);
        ConcatAssociative(bytes, rest, left);
        PrefixBehind(bytes, rest + left, Polled(polls[1..]));
      } else {
        assert w.taken + bytes[|w.taken|..] == bytes;
      }
    }
  }

  /** A timeout leaves nothing behind; any other end is at a frame boundary. */
  lemma {:induction false} OnlySettledWaitsLeaveBytes(p: Parser, polls: seq<Poll>)
    ensures if AwaitRun(p, polls).verdict == Some(TimedOut) then LeftBehind(p, polls) == []
            else AwaitRun(p, polls).parser == WaitFrameStart
    decreases |polls|
  {
    if polls != [] {
      if polls[0].NoData? {
        OnlySettledWaitsLeaveBytes(p, polls[1..]);
      } else {
        ChunkSettlesAtBoundary(p, polls[0].bytes);
        OnlySettledWaitsLeaveBytes(ChunkRun(p, polls[0].bytes).parser, polls[1..]);
      }
    }
  }

  /**
   * Where reception goes on after a wait. A further attempt of the send flushes the port, discarding
   * `retry.value`, and resets the parser; otherwise the parser goes on as the wait left it.
   */
  function ResumedAt(p: Parser, polls: seq<Poll>, retry: Option<seq<Byte>>): Parser {
    if retry.Some? then WaitFrameStart else AwaitRun(p, polls).parser
  }

  /** The octets between those the wait took and those read afterwards. */
  function Skipped(p: Parser, polls: seq<Poll>, retry: Option<seq<Byte>>): seq<Byte> {
    LeftBehind(p, polls) + if retry.Some? then retry.value else []
  }

  /** The frames delivered when a wait takes its octets and everything read afterwards is received in full. */
  function DeliveredAround(p: Parser, polls: seq<Poll>, retry: Option<seq<Byte>>, later: seq<Byte>): seq<Frame> {
    FramesOf(FeedAll(p, AwaitRun(p, polls).taken).events)
    + FramesOf(FeedAll(ResumedAt(p, polls, retry), later).events)
  }

  /** The frames reception alone would deliver of the same line. */
  function DeliveredInFull(p: Parser, polls: seq<Poll>, retry: Option<seq<Byte>>, later: seq<Byte>): seq<Frame> {
    FramesOf(FeedAll(p, AwaitRun(p, polls).taken + (Skipped(p, polls, retry) + later)).events)
  }

  lemma {:induction false} SameTailIff<T>(a: seq<T>, b: seq<T>, c: seq<T>)
    ensures a + b == a + c <==> b == c
  {
    assert (a + b)[|a|..] == b && (a + c)[|a|..] == c;
  }

  /**
   * For one continuation: nothing is lost exactly if it completes, from where reception resumes, the frames
   * that it and the skipped octets in front of it complete from where the wait ended.
   */
  lemma {:induction false} WaitLosesNothingOnIff(
    p: Parser, polls: seq<Poll>, retry: Option<seq<Byte>>, later: seq<Byte>)
    ensures DeliveredAround(p, polls, retry, later) == DeliveredInFull(p, polls, retry, later)
            <==> FramesOf(FeedAll(ResumedAt(p, polls, retry), later).events)
                 == FramesOf(FeedAll(AwaitRun(p, polls).parser, Skipped(p, polls, retry) + later).events)
  {
    var w, rest := AwaitRun(p, polls), Skipped(p, polls, retry) + later;
    WaitIsFaithful(p, polls);
    FeedAllConcat(p, w.taken, rest);
    FramesOfConcat(FeedAll(p, w.taken).events, FeedAll(w.parser, rest).events);
    SameTailIff(FramesOf(FeedAll(p, w.taken).events), FramesOf(FeedAll(ResumedAt(p, polls, retry), later).events),
                FramesOf(FeedAll(w.parser, rest).events));
  }

  /** Bytes that hold no complete frame and begin none. */
  predicate Harmless(s: seq<Byte>) {
    FramesOf(Scan(s)) == [] && FeedAll(WaitFrameStart, s).parser == WaitFrameStart
  }

  const PROBE := Frame(Request, 0, [])

  lemma {:induction false} ProbeBytes()
    ensures Encode(PROBE) == [SOF, 3, 0, 0, 0xFC]
  {
    assert [LengthByte(PROBE), TypeByte(PROBE.frameType), PROBE.commandId] + PROBE.payload == [3, 0, 0];
    HeadFold(3, 0, 0);
    XorSelf(0xFC);
    assert Xor(0xFF, 3) == 0xFC;
  }

  /** Noise raises no frame from a frame boundary. */
  lemma {:induction false} NoiseIsHarmless(noise: seq<Byte>)
    requires SOF !in noise
    ensures FramesOf(FeedAll(WaitFrameStart, noise).events) == []
  {
    ParserRefinesScanner(noise);
    NoiseRaisesNoFrame(noise, []);
    assert noise + [] == noise;
  }

  /** A parser inside a frame swallows the beginning of the next one. */
  lemma {:induction false} InsideSwallowsProbe(p: Parser)
    requires p.Valid() && p != WaitFrameStart
    ensures FramesOf(FeedAll(p, Encode(PROBE)).events) != [PROBE]
  {
    ProbeBytes();
    var b := Encode(PROBE);
    if p == WaitLength {
      assert b[1..] == [3, 0, 0, 0xFC];
      assert FeedAll(p, b).events == FeedAll(WaitFrameStart, b[1..]).events;
      NoiseIsHarmless(b[1..]);
    } else {
      PayloadSwallowsProbe(p.expected, p.bytes);
    }
  }

  lemma {:induction false} PayloadSwallowsProbe(n: nat, bytes: seq<Byte>)
    requires WaitPayload(n, bytes).Valid()
    ensures FramesOf(FeedAll(WaitPayload(n, bytes), Encode(PROBE)).events) != [PROBE]
  {
    ProbeBytes();
    var b, need := Encode(PROBE), n - |bytes|;
    if need > 5 {
      PayloadAccumulates(n, bytes, b);
    } else {
      var head, tail := b[..need], b[need..];
      assert b == head + tail;
      PayloadAccumulates(n, bytes, head);
      FeedAllConcat(WaitPayload(n, bytes), head, tail);
      NoiseIsHarmless(tail);
      FramesOfConcat(FrameEvents(bytes + head), FeedAll(WaitFrameStart, tail).events);
      CandidateIsNotProbe(bytes, head);
    }
  }

  /** A candidate whose last octets are the beginning of the probe is not the probe itself. */
  lemma {:induction false} CandidateIsNotProbe(bytes: seq<Byte>, head: seq<Byte>)
    requires 2 <= |bytes| && 1 <= |head| <= 5 && head <= [SOF, 3, 0, 0, 0xFC]
    requires bytes[1] == |bytes| + |head| - 2
    ensures FramesOf(FrameEvents(bytes + head)) != [PROBE]
  {
    var all := bytes + head;
    if Decode(all).Some? {
      FlatMapOne(DataFrame(Decode(all).value), FrameIn);
      if Decode(all) == Some(PROBE) {
        DecodeIffEncodedPrefix(all, PROBE);
        ProbeBytes();
      }
    }
  }

  lemma {:induction false} ProbeIsReceived()
    ensures FramesOf(FeedAll(WaitFrameStart, Encode(PROBE)).events) == [PROBE]
  {
    FrameIsCutOut(PROBE, []);
    assert Encode(PROBE) + [] == Encode(PROBE);
    FlatMapOne(DataFrame(PROBE), FrameIn);
    ParserRefinesScanner(Encode(PROBE));
  }

  /** The octets in `skipped` complete no frame from `end`, and leave the parser in `resumed`. */
  predicate LeadsTo(end: Parser, skipped: seq<Byte>, resumed: Parser) {
    FramesOf(FeedAll(end, skipped).events) == [] && FeedAll(end, skipped).parser == resumed
  }

  lemma {:induction false} GoingOn(end: Parser, skipped: seq<Byte>, later: seq<Byte>)
    ensures FramesOf(FeedAll(end, skipped + later).events)
            == FramesOf(FeedAll(end, skipped).events) + FramesOf(FeedAll(FeedAll(end, skipped).parser, later).events)
  {
    FeedAllConcat(end, skipped, later);
    FramesOfConcat(FeedAll(end, skipped).events, FeedAll(FeedAll(end, skipped).parser, later).events);
  }

  /** Skipping octets and resuming elsewhere goes unnoticed by every continuation exactly if they lead there. */
  lemma {:induction false} SkippingIsUnnoticedIff(end: Parser, skipped: seq<Byte>, resumed: Parser)
    requires end.Valid() && (resumed == WaitFrameStart || (resumed == end && skipped == []))
    ensures (forall later :: FramesOf(FeedAll(resumed, later).events) == FramesOf(FeedAll(end, skipped + later).events))
            <==> LeadsTo(end, skipped, resumed)
  {
    var there := FeedAll(end, skipped).parser;
    if LeadsTo(end, skipped, resumed) {
      forall later
        ensures FramesOf(FeedAll(resumed, later).events) == FramesOf(FeedAll(end, skipped + later).events)
      {
        GoingOn(end, skipped, later);
      }
    } else if FramesOf(FeedAll(end, skipped).events) != [] {
      assert FramesOf(FeedAll(resumed, []).events) != FramesOf(FeedAll(end, skipped + []).events) by {
        assert skipped + [] == skipped;
      }
    } else {
      ReachableStatesAreValid(end, skipped);
      InsideSwallowsProbe(there);
      ProbeIsReceived();
      GoingOn(end, skipped, Encode(PROBE));
      assert FramesOf(FeedAll(resumed, Encode(PROBE)).events)
          != FramesOf(FeedAll(end, skipped + Encode(PROBE)).events);
    }
  }

  /** What a wait skips completes no frame and leaves the parser where reception resumes. */
  predicate SkipsNothing(p: Parser, polls: seq<Poll>, retry: Option<seq<Byte>>) {
    LeadsTo(AwaitRun(p, polls).parser, Skipped(p, polls, retry), ResumedAt(p, polls, retry))
  }

  /** A wait loses nothing, whatever is read afterwards, exactly if it skips nothing. */
  lemma {:induction false} WaitLosesNothingIff(p: Parser, polls: seq<Poll>, retry: Option<seq<Byte>>)
    requires p.Valid()
    ensures (forall later :: DeliveredAround(p, polls, retry, later) == DeliveredInFull(p, polls, retry, later))
            <==> SkipsNothing(p, polls, retry)
  {
    var w, skipped, resumed := AwaitRun(p, polls), Skipped(p, polls, retry), ResumedAt(p, polls, retry);
    WaitIsFaithful(p, polls);
    ReachableStatesAreValid(p, w.taken);
    OnlySettledWaitsLeaveBytes(p, polls);
    SkippingIsUnnoticedIff(w.parser, skipped, resumed);
    forall later
      ensures DeliveredAround(p, polls, retry, later) == DeliveredInFull(p, polls, retry, later)
              <==> FramesOf(FeedAll(resumed, later).events) == FramesOf(FeedAll(w.parser, skipped + later).events)
    {
      WaitLosesNothingOnIff(p, polls, retry, later);
    }
  }

  /**
   * So the last wait of a send loses nothing exactly if what is left behind its settling octet holds no
   * complete frame and begins none. A wait that is retried with nothing to flush must in addition have ended
   * at a frame boundary, and there a flush must discard no frame and no beginning of one.
   */
  lemma {:induction false} SkipsNothingIff(p: Parser, polls: seq<Poll>, flushed: seq<Byte>)
    ensures SkipsNothing(p, polls, None) <==> Harmless(LeftBehind(p, polls))
    ensures SkipsNothing(p, polls, Some([]))
            <==> Harmless(LeftBehind(p, polls)) && AwaitRun(p, polls).parser == WaitFrameStart
    ensures AwaitRun(p, polls).parser == WaitFrameStart ==>
              (SkipsNothing(p, polls, Some(flushed)) <==> Harmless(LeftBehind(p, polls) + flushed))
  {
    var left := LeftBehind(p, polls);
    OnlySettledWaitsLeaveBytes(p, polls);
    assert left + [] == left;
    ParserRefinesScanner(left);
    ParserRefinesScanner(left + flushed);
  }

  lemma {:induction false} HalfFrameWaits()
    ensures ChunkRun(WaitFrameStart, [SOF, 3]) == Waited(WaitPayload(5, [SOF, 3]), None, [SOF, 3])
  {
    var half: seq<Byte> := [SOF, 3];
    assert half[1..] == [3] && half[1..][1..] == [];
    assert ChunkRun(WaitLength, half[1..]) == Waited(WaitPayload(5, half), None, [3] + []);
    assert [SOF] + ([3] + []) == half;
  }

  lemma {:induction false} HalfFrameTimesOut()
    ensures var polls := [Chunk([SOF, 3])];
            && AwaitRun(WaitFrameStart, polls) == Waited(WaitPayload(5, [SOF, 3]), Some(TimedOut), [SOF, 3])
            && LeftBehind(WaitFrameStart, polls) == []
  {
    var half: seq<Byte> := [SOF, 3];
    HalfFrameWaits();
    assert [Chunk(half)][1..] == [] && half + [] == half;
  }

  lemma {:induction false} HalfFrameIsSilent()
    ensures FramesOf(FeedAll(WaitFrameStart, [SOF, 3]).events) == []
  {
    var half: seq<Byte> := [SOF, 3];
    assert half[1..] == [3] && half[1..][1..] == [];
    assert FeedAll(WaitLength, half[1..]).events == [] + [];
  }

  /** It happens: a frame whose first half arrives before the timeout and whose rest in the retry is lost. */
  lemma {:induction false} HalfFrameIsLostInRetry()
    ensures var polls, later := [Chunk([SOF, 3])], [0, 0, 0xFC];
            && AwaitRun(WaitFrameStart, polls).verdict == Some(TimedOut) && LeftBehind(WaitFrameStart, polls) == []
            && DeliveredAround(WaitFrameStart, polls, Some([]), later) == []
            && DeliveredInFull(WaitFrameStart, polls, Some([]), later) == [PROBE]
  {
    var half, later: seq<Byte> := [SOF, 3], [0, 0, 0xFC];
    HalfFrameTimesOut();
    HalfFrameIsSilent();
    NoiseIsHarmless(later);
    assert half + (([] + []) + later) == Encode(PROBE) by {
      ProbeBytes();
    }
    ProbeIsReceived();
  }

  // ---- A whole send ------------------------------------------------------------------------------

  /** What an attempt polls: nothing if its write fails. */
  function PollsOf(a: Attempt): seq<Poll> {
    if a.writeOk then a.polls else []
  }

  function RoundFrames(round: Round): seq<Frame> {
    FramesOf(FeedAll(round.start, round.taken).events)
  }

  /** In a whole send, what is acknowledged and handed on are the frames completed by its attempts, in turn. */
  lemma {:induction false} SendHandles(buffer: seq<Byte>, rounds: seq<Round>)
    ensures FlatMap(SendOps(buffer, rounds), AckOrDelivery) == FlatMap(FlatMap(rounds, RoundFrames), AckThenDispatch)
    decreases |rounds|
  {
    if rounds != [] {
      var round, rest := rounds[0], rounds[1..];
      SendHandles(buffer, rest);
      RoundHandles(buffer, round);
      FlatMapConcat(RoundOps(buffer, round), SendOps(buffer, rest), AckOrDelivery);
      assert rounds == [round] + rest;
      FramesSplit(round, rest);
      FlatMapConcat(RoundFrames(round), FlatMap(rest, RoundFrames), AckThenDispatch);
    }
  }

  lemma {:induction false} RoundHandles(buffer: seq<Byte>, round: Round)
    ensures FlatMap(RoundOps(buffer, round), AckOrDelivery) == FlatMap(RoundFrames(round), AckThenDispatch)
  {
    var write := Wrote(buffer, round.writeOk);
    PumpHandles(round.start, round.taken);
    FlatMapOne(write, AckOrDelivery);
    FlatMapConcat([write], PumpOps(round.start, round.taken), AckOrDelivery);
  }

  /** What the flush in front of the attempt behind `i` discards, if there is one. */
  function RetryAfter(p: Parser, script: seq<Attempt>, i: nat): Option<seq<Byte>> {
    if i + 1 < |SendRun(p, script)| then Some(script[i + 1].flushed) else None
  }

  predicate KeepsAll(p: Parser, script: seq<Attempt>, i: nat)
    requires i < |script|
  {
    SkipsNothing(NextStart(p, i), PollsOf(script[i]), RetryAfter(p, script, i))
  }

  /** Each attempt of a send loses nothing, whatever follows, exactly if it skips nothing. */
  lemma {:induction false} AttemptLosesNothingIff(p: Parser, script: seq<Attempt>, i: nat)
    requires p.Valid() && i < |SendRun(p, script)|
    ensures var start, polls, retry := NextStart(p, i), PollsOf(script[i]), RetryAfter(p, script, i);
            && SendRun(p, script)[i].taken == AwaitRun(start, polls).taken
            && SendRun(p, script)[i].end == AwaitRun(start, polls).parser
            && ((forall later ::
                   DeliveredAround(start, polls, retry, later) == DeliveredInFull(start, polls, retry, later))
                <==> KeepsAll(p, script, i))
  {
    RoundAt(p, script, i);
    WaitLosesNothingIff(NextStart(p, i), PollsOf(script[i]), RetryAfter(p, script, i));
  }

  /** Everything the line brings during a send, whether it reaches the parser or not. */
  function LineOf(p: Parser, script: seq<Attempt>): seq<Byte>
    decreases |script|
  {
    if script == [] then []
    else
      var round := RoundRun(p, script[0]);
      round.taken + (Skipped(p, PollsOf(script[0]), RetryAfter(p, script, 0))
                     + if round.verdict == Acked then [] else LineOf(WaitFrameStart, script[1..]))
  }

  function EndOf(p: Parser, rounds: seq<Round>): Parser {
    if rounds == [] then p else rounds[|rounds| - 1].end
  }

  lemma {:induction false} FirstAttemptKeepsAll(p: Parser, script: seq<Attempt>, later: seq<Byte>)
    requires p.Valid() && script != [] && KeepsAll(p, script, 0)
    ensures var round := RoundRun(p, script[0]);
            RoundFrames(round)
            + FramesOf(FeedAll(if |SendRun(p, script)| > 1 then WaitFrameStart else round.end, later).events)
            == FramesOf(FeedAll(p, round.taken
                                   + (Skipped(p, PollsOf(script[0]), RetryAfter(p, script, 0)) + later)).events)
  {
    var polls, retry := PollsOf(script[0]), RetryAfter(p, script, 0);
    AttemptLosesNothingIff(p, script, 0);
    assert DeliveredAround(p, polls, retry, later) == DeliveredInFull(p, polls, retry, later);
  }

  lemma {:induction false} TailKeepsAll(p: Parser, script: seq<Attempt>)
    requires script != [] && RoundRun(p, script[0]).verdict != Acked
    requires forall i :: 0 <= i < |SendRun(p, script)| ==> KeepsAll(p, script, i)
    ensures forall i :: 0 <= i < |SendRun(WaitFrameStart, script[1..])| ==> KeepsAll(WaitFrameStart, script[1..], i)
  {
    forall i | 0 <= i < |SendRun(WaitFrameStart, script[1..])|
      ensures KeepsAll(WaitFrameStart, script[1..], i)
    {
      assert KeepsAll(p, script, i + 1);
    }
  }

  lemma {:induction false} LineSplits(p: Parser, script: seq<Attempt>, later: seq<Byte>)
    requires script != []
    ensures var round := RoundRun(p, script[0]);
            var more := if round.verdict == Acked then [] else LineOf(WaitFrameStart, script[1..]);
            LineOf(p, script) + later
            == round.taken + (Skipped(p, PollsOf(script[0]), RetryAfter(p, script, 0)) + (more + later))
  {
    var round, skipped := RoundRun(p, script[0]), Skipped(p, PollsOf(script[0]), RetryAfter(p, script, 0));
    var more := if round.verdict == Acked then [] else LineOf(WaitFrameStart, script[1..]);
    ConcatAssociative(round.taken, skipped + more, later);
    ConcatAssociative(skipped, more, later);
  }

  lemma {:induction false} FramesSplit(round: Round, rest: seq<Round>)
    ensures FlatMap([round] + rest, RoundFrames) == RoundFrames(round) + FlatMap(rest, RoundFrames)
  {
    FlatMapConcat([round], rest, RoundFrames);
    FlatMapOne(round, RoundFrames);
  }

  /** What a send and everything read afterwards deliver. */
  function DeliveredBySend(p: Parser, script: seq<Attempt>, later: seq<Byte>): seq<Frame> {
    FlatMap(SendRun(p, script), RoundFrames) + FramesOf(FeedAll(EndOf(p, SendRun(p, script)), later).events)
  }

  lemma {:induction false} DeliveryOfLast(p: Parser, script: seq<Attempt>, later: seq<Byte>)
    requires script != [] && |SendRun(p, script)| == 1
    ensures var round := RoundRun(p, script[0]);
            DeliveredBySend(p, script, later) == RoundFrames(round) + FramesOf(FeedAll(round.end, later).events)
  {
    var round := RoundRun(p, script[0]);
    assert SendRun(p, script) == [round];
    FlatMapOne(round, RoundFrames);
  }

  lemma {:induction false} DeliveryOfRetried(p: Parser, script: seq<Attempt>, later: seq<Byte>)
    requires script != [] && |SendRun(p, script)| > 1
    ensures DeliveredBySend(p, script, later)
            == RoundFrames(RoundRun(p, script[0])) + DeliveredBySend(WaitFrameStart, script[1..], later)
  {
    var round, rest := RoundRun(p, script[0]), SendRun(WaitFrameStart, script[1..]);
    var end := EndOf(p, SendRun(p, script));
    assert SendRun(p, script) == [round] + rest && EndOf(WaitFrameStart, rest) == end;
    FramesSplit(round, rest);
    ConcatAssociative(RoundFrames(round), FlatMap(rest, RoundFrames), FramesOf(FeedAll(end, later).events));
  }

  /** If so for each attempt, the send and what follows deliver what reception would of the whole line. */
  lemma {:induction false} SendLosesNothing(p: Parser, script: seq<Attempt>, later: seq<Byte>)
    requires p.Valid()
    requires forall i :: 0 <= i < |SendRun(p, script)| ==> KeepsAll(p, script, i)
    ensures DeliveredBySend(p, script, later) == FramesOf(FeedAll(p, LineOf(p, script) + later).events)
    decreases |script|
  {
    if script == [] {
      assert LineOf(p, script) + later == later;
    } else {
      var round, tail := RoundRun(p, script[0]), script[1..];
      var more := if round.verdict == Acked then [] else LineOf(WaitFrameStart, tail);
      LineSplits(p, script, later);
      FirstAttemptKeepsAll(p, script, more + later);
      if |SendRun(p, script)| == 1 {
        assert more == [] && more + later == later;
        DeliveryOfLast(p, script, later);
      } else {
        TailKeepsAll(p, script);
        SendLosesNothing(WaitFrameStart, tail, later);
        DeliveryOfRetried(p, script, later);
      }
    }
  }
}
