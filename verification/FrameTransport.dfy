/**
 * The serial transport: every received data frame is acknowledged and handed on, and a request is
 * written up to three times until the dongle acknowledges it. Polls, write results and the passing of
 * the deadline come from a script, so every statement below is about all behaviours of the line.
 */
module FrameTransport {
  import opened Bytes
  import opened DataFrame
  import opened FrameParser
  import opened Sequences

  const MAX_SEND_RETRIES := 3

  datatype ParseState = AtFrameStart | AtLength | AtPayload

  /** What the transport does, in order. */
  datatype Op =
    | Wrote(buffer: seq<Byte>, ok: bool)
    | Took(byte: Byte)
    | AckWritten
    | Dispatched(frame: Frame)

  /** One poll of the port while waiting for an acknowledgement; the script ending is the deadline. */
  datatype Poll = NoData | Chunk(bytes: seq<Byte>)

  /** What the line does in one attempt; `flushed` is what the flush in front of a retry discards unread. */
  datatype Attempt = Attempt(writeOk: bool, polls: seq<Poll>, flushed: seq<Byte>)

  datatype Verdict = Acked | WriteFailed | GotNak | GotCan | TimedOut

  /** The acknowledgement and the delivery that a completed data frame causes. */
  function Handling(e: Event): seq<Op> {
    if e.DataFrame? then [AckWritten, Dispatched(e.frame)] else []
  }

  /** What taking one octet does: the frame it completes, if any, is acknowledged and delivered at once. */
  function OctetOps(p: Parser, byte: Byte): seq<Op> {
    [Took(byte)] + FlatMap(Feed(p, byte).events, Handling)
  }

  /** What taking a run of octets does. */
  function PumpOps(p: Parser, s: seq<Byte>): seq<Op>
    decreases |s|
  {
    if s == [] then [] else OctetOps(p, s[0]) + PumpOps(Feed(p, s[0]).parser, s[1..])
  }

  predicate IsControl(events: seq<Event>) {
    events != [] && !events[0].DataFrame?
  }

  function ControlVerdict(e: Event): Verdict
    requires !e.DataFrame?
  {
    match e
    case Ack => Acked
    case Nak => GotNak
    case Can => GotCan
  }

  /** Where a wait left off: which octets it took from the line, and how it ended, if it did. */
  datatype Waited = Waited(parser: Parser, verdict: Option<Verdict>, taken: seq<Byte>)

  /** One chunk while waiting: the first control octet ends it, and later octets are never looked at. */
  function ChunkRun(p: Parser, s: seq<Byte>): (w: Waited)
    ensures w.verdict.Some? ==> w.verdict.value in {Acked, GotNak, GotCan}
    decreases |s|
  {
    if s == [] then Waited(p, None, [])
    else
      var r := Feed(p, s[0]);
      if IsControl(r.events) then Waited(r.parser, Some(ControlVerdict(r.events[0])), [s[0]])
      else
        var rest := ChunkRun(r.parser, s[1..]);
        Waited(rest.parser, rest.verdict, [s[0]] + rest.taken)
  }

  function AwaitRun(p: Parser, polls: seq<Poll>): (w: Waited)
    ensures w.verdict.Some? && w.verdict.value in {Acked, GotNak, GotCan, TimedOut}
    decreases |polls|
  {
    if polls == [] then Waited(p, Some(TimedOut), [])
    else
      match polls[0]
      case NoData => AwaitRun(p, polls[1..])
      case Chunk(bytes) =>
        var w := ChunkRun(p, bytes);
        if w.verdict.Some? then w
        else
          var rest := AwaitRun(w.parser, polls[1..]);
          Waited(rest.parser, rest.verdict, w.taken + rest.taken)
  }

  /** One attempt of a send: the parser state it started in, its write, the octets it took, its end. */
  datatype Round = Round(start: Parser, writeOk: bool, taken: seq<Byte>, verdict: Verdict, end: Parser)

  function RoundRun(p: Parser, a: Attempt): Round {
    if !a.writeOk then Round(p, false, [], WriteFailed, p)
    else
      var w := AwaitRun(p, a.polls);
      Round(p, true, w.taken, w.verdict.value, w.parser)
  }

  /** Attempts until one is acknowledged; every attempt after the first starts from a reset parser. */
  function SendRun(p: Parser, script: seq<Attempt>): (rounds: seq<Round>)
    ensures |rounds| <= |script|
    decreases |script|
  {
    if script == [] then []
    else
      var round := RoundRun(p, script[0]);
      if round.verdict == Acked then [round] else [round] + SendRun(WaitFrameStart, script[1..])
  }

  predicate Succeeded(rounds: seq<Round>) {
    rounds != [] && rounds[|rounds| - 1].verdict == Acked
  }

  function RoundOps(buffer: seq<Byte>, round: Round): seq<Op> {
    [Wrote(buffer, round.writeOk)] + PumpOps(round.start, round.taken)
  }

  function SendOps(buffer: seq<Byte>, rounds: seq<Round>): seq<Op> {
    if rounds == [] then []
    else RoundOps(buffer, rounds[0]) + SendOps(buffer, rounds[1..])
  }

  // ---- What a whole send does -------------------------------------------------------------------

  function WriteIn(o: Op): seq<Op> {
    if o.Wrote? then [o] else []
  }

  function DeliveryIn(o: Op): seq<Frame> {
    if o.Dispatched? then [o.frame] else []
  }

  function OctetIn(o: Op): seq<Byte> {
    if o.Took? then [o.byte] else []
  }

  /** Seen through any projection, the events of one octet contribute at most one frame's handling. */
  lemma {:induction false} OctetOpsShape(p: Parser, byte: Byte)
    ensures var events := Feed(p, byte).events;
            OctetOps(p, byte) ==
            if events != [] && events[0].DataFrame? then [Took(byte), AckWritten, Dispatched(events[0].frame)]
            else [Took(byte)]
  {
    var events := Feed(p, byte).events;
    if events != [] {
      assert events == [events[0]];
      FlatMapOne(events[0], Handling);
    }
  }

  lemma {:induction false} FlatMapTriple<B>(a: Op, b: Op, c: Op, f: Op -> seq<B>)
    ensures FlatMap([a], f) == f(a)
    ensures FlatMap([a, b, c], f) == f(a) + f(b) + f(c)
  {
    FlatMapOne(a, f);
    FlatMapAppend([a], b, f);
    FlatMapAppend([a] + [b], c, f);
    assert [a] + [b] + [c] == [a, b, c];
  }

  /** Reception writes no request, takes exactly the octets it is given, and delivers exactly the frames they hold. */
  lemma {:induction false} PumpProjections(p: Parser, s: seq<Byte>)
    ensures FlatMap(PumpOps(p, s), WriteIn) == []
    ensures FlatMap(PumpOps(p, s), OctetIn) == s
    ensures FlatMap(PumpOps(p, s), DeliveryIn) == FramesOf(FeedAll(p, s).events)
    decreases |s|
  {
    if s != [] {
      var r := Feed(p, s[0]);
      var ops, rest := OctetOps(p, s[0]), PumpOps(r.parser, s[1..]);
      PumpProjections(r.parser, s[1..]);
      FlatMapConcat(ops, rest, WriteIn);
      FlatMapConcat(ops, rest, OctetIn);
      FlatMapConcat(ops, rest, DeliveryIn);
      FlatMapConcat(r.events, FeedAll(r.parser, s[1..]).events, FrameIn);
      OctetProjections(p, s[0]);
    }
  }

  lemma {:induction false} OctetProjections(p: Parser, byte: Byte)
    ensures FlatMap(OctetOps(p, byte), WriteIn) == []
    ensures FlatMap(OctetOps(p, byte), OctetIn) == [byte]
    ensures FlatMap(OctetOps(p, byte), DeliveryIn) == FramesOf(Feed(p, byte).events)
  {
    var events := Feed(p, byte).events;
    OctetOpsShape(p, byte);
    if events != [] {
      assert events == [events[0]];
      FlatMapOne(events[0], FrameIn);
    }
    var f := if events != [] && events[0].DataFrame? then events[0].frame else Frame(Request, 0, []);
    FlatMapTriple(Took(byte), AckWritten, Dispatched(f), WriteIn);
    FlatMapTriple(Took(byte), AckWritten, Dispatched(f), OctetIn);
    FlatMapTriple(Took(byte), AckWritten, Dispatched(f), DeliveryIn);
  }

  lemma {:induction false} RoundWritesOnce(buffer: seq<Byte>, round: Round)
    ensures FlatMap(RoundOps(buffer, round), WriteIn) == [Wrote(buffer, round.writeOk)]
  {
    PumpProjections(round.start, round.taken);
    FlatMapOne(Wrote(buffer, round.writeOk), WriteIn);
    FlatMapConcat([Wrote(buffer, round.writeOk)], PumpOps(round.start, round.taken), WriteIn);
  }

  /**
   * A send writes the identical buffer once per attempt and nothing else, at most as often as the
   * script allows, and the writes succeed as the line says.
   */
  lemma {:induction false} SendWritesIdenticalBuffer(p: Parser, buffer: seq<Byte>, script: seq<Attempt>)
    ensures var rounds := SendRun(p, script);
            && |rounds| <= |script|
            && |FlatMap(SendOps(buffer, rounds), WriteIn)| == |rounds|
            && forall i :: 0 <= i < |rounds| ==>
                 FlatMap(SendOps(buffer, rounds), WriteIn)[i] == Wrote(buffer, script[i].writeOk)
    decreases |script|
  {
    if script != [] {
      var round := RoundRun(p, script[0]);
      var rest := SendRun(p, script)[1..];
      RoundWritesOnce(buffer, round);
      FlatMapConcat(RoundOps(buffer, round), SendOps(buffer, rest), WriteIn);
      if round.verdict == Acked {
        assert rest == [];
      } else {
        SendWritesIdenticalBuffer(WaitFrameStart, buffer, script[1..]);
        assert rest == SendRun(WaitFrameStart, script[1..]);
      }
    }
  }

  /** All octets the polls of an attempt bring in. */
  function Polled(polls: seq<Poll>): seq<Byte>
    decreases |polls|
  {
    if polls == [] then [] else (if polls[0].Chunk? then polls[0].bytes else []) + Polled(polls[1..])
  }

  /** The event a verdict stands for; a failed write and a timeout stand for none. */
  function Announcement(v: Option<Verdict>): seq<Event> {
    match v
    case Some(Acked) => [Ack]
    case Some(GotNak) => [Nak]
    case Some(GotCan) => [Can]
    case _ => []
  }

  ghost predicate OnlyFrames(events: seq<Event>) {
    forall i | 0 <= i < |events| :: events[i].DataFrame?
  }

  /** The announced event comes last, and everything before it is a data frame. */
  ghost predicate SettledBy(events: seq<Event>, announced: seq<Event>) {
    exists frames :: OnlyFrames(frames) && events == frames + announced
  }

  /** The parser runs over exactly the octets taken, and their events are what the verdict says. */
  ghost predicate Faithful(p: Parser, w: Waited) {
    && w.parser == FeedAll(p, w.taken).parser
    && SettledBy(FeedAll(p, w.taken).events, Announcement(w.verdict))
  }

  lemma {:induction false} SettledLater(events: seq<Event>, more: seq<Event>, announced: seq<Event>)
    requires SettledBy(events, []) && SettledBy(more, announced)
    ensures SettledBy(events + more, announced)
  {
    var a :| OnlyFrames(a) && events == a + [];
    var b :| OnlyFrames(b) && more == b + announced;
    assert a + [] == a;
    ConcatAssociative(a, b, announced);
    assert OnlyFrames(a + b);
  }

  lemma {:induction false} SettledNow(e: Event)
    ensures SettledBy([], []) && SettledBy([e], [e])
    ensures e.DataFrame? ==> SettledBy([e], [])
  {
    var none: seq<Event> := [];
    assert OnlyFrames(none) && none + [e] == [e] && none == none + none;
    assert e.DataFrame? ==> OnlyFrames([e]) && [e] == [e] + [];
  }

  /** One octet of a chunk, seen as the beginning of the wait. */
  lemma {:induction false} OctetSettles(p: Parser, byte: Byte)
    ensures var events := Feed(p, byte).events;
            if IsControl(events) then SettledBy(events, Announcement(Some(ControlVerdict(events[0]))))
            else SettledBy(events, [])
  {
    var events := Feed(p, byte).events;
    SettledNow(if events == [] then Ack else events[0]);
    assert events == [] || events == [events[0]];
  }

  lemma {:induction false} ChunkIsFaithful(p: Parser, s: seq<Byte>)
    ensures Faithful(p, ChunkRun(p, s))
    ensures ChunkRun(p, s).taken <= s
    ensures ChunkRun(p, s).verdict.None? ==> ChunkRun(p, s).taken == s
    decreases |s|
  {
    if s == [] {
      SettledNow(Ack);
    } else {
      var r := Feed(p, s[0]);
      OctetSettles(p, s[0]);
      if IsControl(r.events) {
        assert FeedAll(r.parser, [s[0]][1..]) == Fed(r.parser, []);
        assert r.events + [] == r.events;
      } else {
        var rest := ChunkRun(r.parser, s[1..]);
        ChunkIsFaithful(r.parser, s[1..]);
        assert ([s[0]] + rest.taken)[1..] == rest.taken;
        SettledLater(r.events, FeedAll(r.parser, rest.taken).events, Announcement(rest.verdict));
      }
    }
  }

  /**
   * Whatever the polls bring, the verdict is what the octets taken say: after nothing but data frames, an
   * ACK, a NAK or a CAN came last; or nothing else came at all, and then every polled octet was taken.
   */
  lemma {:induction false} WaitIsFaithful(p: Parser, polls: seq<Poll>)
    ensures Faithful(p, AwaitRun(p, polls))
    ensures AwaitRun(p, polls).taken <= Polled(polls)
    ensures AwaitRun(p, polls).verdict == Some(TimedOut) ==> AwaitRun(p, polls).taken == Polled(polls)
    decreases |polls|
  {
    if polls == [] {
      SettledNow(Ack);
    } else if polls[0].NoData? {
      WaitIsFaithful(p, polls[1..]);
      assert [] + Polled(polls[1..]) == Polled(polls[1..]);
    } else {
      var w := ChunkRun(p, polls[0].bytes);
      ChunkIsFaithful(p, polls[0].bytes);
      if w.verdict.None? {
        var rest := AwaitRun(w.parser, polls[1..]);
        WaitIsFaithful(w.parser, polls[1..]);
        FeedAllConcat(p, w.taken, rest.taken);
        SettledLater(FeedAll(p, w.taken).events, FeedAll(w.parser, rest.taken).events, Announcement(rest.verdict));
      }
    }
  }

  /** How one attempt ended, in terms of its write and of the octets it took. */
  ghost predicate Explained(round: Round, a: Attempt) {
    if round.verdict == WriteFailed then !a.writeOk && round.taken == []
    else
      && a.writeOk
      && Faithful(round.start, Waited(round.end, Some(round.verdict), round.taken))
      && round.taken <= Polled(a.polls)
      && (round.verdict == TimedOut ==> round.taken == Polled(a.polls))
  }

  lemma {:induction false} RoundIsExplained(p: Parser, a: Attempt)
    ensures Explained(RoundRun(p, a), a)
  {
    WaitIsFaithful(p, a.polls);
  }

  /** The rounds are the attempts in turn, and none follows an acknowledged one. */
  lemma {:induction false} RoundAt(p: Parser, script: seq<Attempt>, i: nat)
    requires i < |SendRun(p, script)|
    ensures |SendRun(p, script)| <= |script|
    ensures SendRun(p, script)[i] == RoundRun(NextStart(p, i), script[i])
    ensures SendRun(p, script)[i].verdict == Acked ==> i == |SendRun(p, script)| - 1
    decreases |script|
  {
    if RoundRun(p, script[0]).verdict != Acked {
      if |SendRun(WaitFrameStart, script[1..])| > 0 {
        RoundAt(WaitFrameStart, script[1..], if i > 0 then i - 1 else 0);
      }
    }
  }

  /** Attempts run out only if none was acknowledged. */
  lemma {:induction false} AllTried(p: Parser, script: seq<Attempt>)
    ensures |SendRun(p, script)| <= |script|
    ensures !Succeeded(SendRun(p, script)) ==> |SendRun(p, script)| == |script|
    decreases |script|
  {
    if script != [] && RoundRun(p, script[0]).verdict != Acked {
      AllTried(WaitFrameStart, script[1..]);
    }
  }

  /**
   * Every attempt ended as its write and its octets say, each but the first started from a frame boundary,
   * and only the last can have been acknowledged. So a send fails only after every attempt of the script
   * ended in a failed write, in a NAK or CAN behind nothing but data frames, or in a timeout with nothing
   * but data frames on the line.
   */
  lemma {:induction false} SendVerdicts(p: Parser, script: seq<Attempt>)
    ensures var rounds := SendRun(p, script);
            && |rounds| <= |script|
            && (forall i :: 0 <= i < |rounds| ==>
                  && rounds[i].start == NextStart(p, i)
                  && Explained(rounds[i], script[i])
                  && (rounds[i].verdict == Acked ==> i == |rounds| - 1))
            && (!Succeeded(rounds) ==>
                  |rounds| == |script| && forall i :: 0 <= i < |rounds| ==> rounds[i].verdict != Acked)
  {
    var rounds := SendRun(p, script);
    AllTried(p, script);
    forall i | 0 <= i < |rounds|
      ensures rounds[i].start == NextStart(p, i) && Explained(rounds[i], script[i])
      ensures rounds[i].verdict == Acked ==> i == |rounds| - 1
    {
      RoundAt(p, script, i);
      RoundIsExplained(NextStart(p, i), script[i]);
    }
  }

  ghost predicate EndsWith(events: seq<Event>, e: Event) {
    events != [] && events[|events| - 1] == e
  }

  /**
   * A send that succeeds ended in an attempt whose write succeeded, and the octets taken after that
   * write make the whole-stream scanner report an ACK as the last event. `history` is what the parser
   * had been given before the send: an ACK octet inside a data frame is not an event and never counts.
   */
  lemma {:induction false} SuccessMeansBoundaryAck(history: seq<Byte>, script: seq<Attempt>)
    requires Succeeded(SendRun(FeedAll(WaitFrameStart, history).parser, script))
    ensures var rounds := SendRun(FeedAll(WaitFrameStart, history).parser, script);
            var last := rounds[|rounds| - 1];
            last.writeOk && EndsWith(Scan((if |rounds| == 1 then history else []) + last.taken), Ack)
  {
    var p := FeedAll(WaitFrameStart, history).parser;
    var k := |SendRun(p, script)| - 1;
    RoundAt(p, script, k);
    AckedRound(if k == 0 then history else [], script[k]);
  }

  lemma {:induction false} AckedRound(context: seq<Byte>, a: Attempt)
    requires RoundRun(FeedAll(WaitFrameStart, context).parser, a).verdict == Acked
    ensures a.writeOk
    ensures EndsWith(Scan(context + RoundRun(FeedAll(WaitFrameStart, context).parser, a).taken), Ack)
  {
    var p := FeedAll(WaitFrameStart, context).parser;
    var taken := RoundRun(p, a).taken;
    WaitIsFaithful(p, a.polls);
    var frames :| FeedAll(p, taken).events == frames + [Ack];
    FeedAllConcat(WaitFrameStart, context, taken);
    ParserRefinesScanner(context + taken);
  }

  /**
   * As written, an acknowledgement that arrives in one chunk with a data frame behind it costs that
   * frame: the send succeeds without taking it, although idle reception would deliver it.
   */
  lemma {:induction false} FrameBehindAckIsLost(f: Frame)
    requires |f.payload| <= MAX_PAYLOAD_SIZE
    ensures var line := [ACK] + Encode(f);
            && SendRun(WaitFrameStart, [Attempt(true, [Chunk(line)], [])]) ==
                 [Round(WaitFrameStart, true, [ACK], Acked, WaitFrameStart)]
            && FlatMap(PumpOps(WaitFrameStart, line), DeliveryIn) == [f]
  {
    AckEndsChunk(Encode(f));
    var line := [ACK] + Encode(f);
    assert line[0] == ACK && line[1..] == Encode(f) + [];
    FrameIsCutOut(f, []);
    ScanFramesAfterAck(line, f);
  }

  lemma {:induction false} AckEndsChunk(rest: seq<Byte>)
    ensures SendRun(WaitFrameStart, [Attempt(true, [Chunk([ACK] + rest)], [])]) ==
            [Round(WaitFrameStart, true, [ACK], Acked, WaitFrameStart)]
  {
    assert ChunkRun(WaitFrameStart, [ACK] + rest) == Waited(WaitFrameStart, Some(Acked), [ACK]);
  }

  lemma {:induction false} ScanFramesAfterAck(line: seq<Byte>, f: Frame)
    requires line != [] && line[0] == ACK && Scan(line[1..]) == [DataFrame(f)]
    ensures FlatMap(PumpOps(WaitFrameStart, line), DeliveryIn) == [f]
  {
    ParserRefinesScanner(line);
    PumpProjections(WaitFrameStart, line);
    FlatMapAppend([Ack], DataFrame(f), FrameIn);
    FlatMapOne(Ack, FrameIn);
  }

  // ---- The transport object ---------------------------------------------------------------------

  class Transport {
    var parseState: ParseState
    var expectedLength: nat
    var frameBytes: seq<Byte>
    var lastParsedFrame: Frame
    var lastParsedValid: bool
    var log: seq<Op>

    ghost predicate Valid()
      reads this
    {
      && (parseState == AtFrameStart ==> frameBytes == [])
      && (parseState == AtLength ==> frameBytes == [SOF])
      && (parseState == AtPayload ==> WaitPayload(expectedLength, frameBytes).Valid())
    }

    ghost function State(): (p: Parser)
      requires Valid()
      reads this
      ensures p.Valid()
    {
      match parseState
      case AtFrameStart => WaitFrameStart
      case AtLength => WaitLength
      case AtPayload => WaitPayload(expectedLength, frameBytes)
    }

    constructor ()
      ensures Valid() && State() == WaitFrameStart && log == []
    {
      parseState, expectedLength, frameBytes := AtFrameStart, 0, [];
      lastParsedFrame, lastParsedValid, log := Frame(Request, 0, []), false, [];
    }

    method ResetParser()
      modifies this`parseState, this`expectedLength, this`frameBytes, this`lastParsedValid
      ensures Valid() && State() == WaitFrameStart && !lastParsedValid
    {
      parseState := AtFrameStart;
      expectedLength := 0;
      frameBytes := [];
      lastParsedValid := false;
    }

    method FeedByte(byte: Byte) returns (event: Option<Event>)
      requires Valid()
      modifies this`parseState, this`expectedLength, this`frameBytes, this`lastParsedFrame, this`lastParsedValid
      ensures Valid() && State() == Feed(old(State()), byte).parser
      ensures Feed(old(State()), byte).events == match event case Some(e) => [e] case None => []
      ensures event.Some? && event.value.DataFrame? ==> lastParsedValid && lastParsedFrame == event.value.frame
    {
      match parseState {
        case AtFrameStart =>
          if byte == ACK { return Some(Ack); }
          if byte == NAK { return Some(Nak); }
          if byte == CAN { return Some(Can); }
          if byte == SOF {
            frameBytes := [];
            frameBytes := frameBytes + [byte];
            parseState := AtLength;
          }
          return None;
        case AtLength =>
          frameBytes := frameBytes + [byte];
          expectedLength := 2 + byte as int;
          if byte < 3 || expectedLength > MAX_FRAME_SIZE {
            ResetParser();
            return None;
          }
          parseState := AtPayload;
          return None;
        case AtPayload =>
          frameBytes := frameBytes + [byte];
          if |frameBytes| < expectedLength {
            return None;
          }
          var parsed, parseOk := ParseWhole(frameBytes);
          ResetParser();
          if !parseOk {
            return None;
          }
          lastParsedFrame := parsed;
          lastParsedValid := true;
          return Some(Event.DataFrame(parsed));
      }
    }

    method HandleParsedDataFrame()
      modifies this`log, this`lastParsedValid
      ensures !lastParsedValid
      ensures log == old(log) + if old(lastParsedValid) then [AckWritten, Dispatched(lastParsedFrame)] else []
    {
      if !lastParsedValid {
        return;
      }
      log := log + [AckWritten];
      log := log + [Dispatched(lastParsedFrame)];
      lastParsedValid := false;
    }

    /** Takes one octet and, if it completed a frame, handles the frame. */
    method TakeByte(byte: Byte) returns (event: Option<Event>)
      requires Valid()
      modifies this
      ensures Valid() && State() == Feed(old(State()), byte).parser
      ensures Feed(old(State()), byte).events == match event case Some(e) => [e] case None => []
      ensures log == old(log) + OctetOps(old(State()), byte)
    {
      OctetOpsShape(State(), byte);
      log := log + [Took(byte)];
      event := FeedByte(byte);
      if event.Some? && event.value.DataFrame? {
        HandleParsedDataFrame();
      }
    }

    /** One poll; an empty or failed read processes nothing. */
    method PumpOnce(chunk: seq<Byte>) returns (progress: bool)
      requires Valid()
      modifies this
      ensures Valid() && progress == (chunk != [])
      ensures State() == FeedAll(old(State()), chunk).parser
      ensures log == old(log) + PumpOps(old(State()), chunk)
    {
      if |chunk| <= 0 {
        return false;
      }
      assert chunk[0..] == chunk;
      for i := 0 to |chunk|
        invariant Valid()
        invariant FeedAll(old(State()), chunk).parser == FeedAll(State(), chunk[i..]).parser
        invariant old(log) + PumpOps(old(State()), chunk) == log + PumpOps(State(), chunk[i..])
      {
        ghost var before, logged := State(), log;
        assert chunk[i..][0] == chunk[i] && chunk[i..][1..] == chunk[i + 1..];
        var event := TakeByte(chunk[i]);
        ConcatAssociative(logged, OctetOps(before, chunk[i]), PumpOps(State(), chunk[i + 1..]));
      }
      return true;
    }

    /** Reception between sends: the owner polls again and again. */
    method PumpAll(chunks: seq<seq<Byte>>)
      requires Valid()
      modifies this
      ensures Valid() && State() == FeedAll(old(State()), Flatten(chunks)).parser
      ensures log == old(log) + PumpOps(old(State()), Flatten(chunks))
    {
      ghost var start, stream: seq<Byte> := State(), [];
      assert chunks[0..] == chunks;
      for i := 0 to |chunks|
        invariant Valid() && stream + Flatten(chunks[i..]) == Flatten(chunks)
        invariant State() == FeedAll(start, stream).parser && log == old(log) + PumpOps(start, stream)
      {
        assert chunks[i..][0] == chunks[i] && chunks[i..][1..] == chunks[i + 1..];
        ConcatAssociative(stream, chunks[i], Flatten(chunks[i + 1..]));
        PumpOpsConcat(start, stream, chunks[i]);
        ConcatAssociative(old(log), PumpOps(start, stream), PumpOps(State(), chunks[i]));
        var progress := PumpOnce(chunks[i]);
        stream := stream + chunks[i];
      }
      assert stream + [] == stream;
    }

    /** The inner loop of a send: one chunk, left at the first control octet. */
    method WaitOnChunk(chunk: seq<Byte>) returns (verdict: Option<Verdict>)
      requires Valid()
      modifies this
      ensures Valid()
      ensures var w := ChunkRun(old(State()), chunk);
              verdict == w.verdict && State() == w.parser && log == old(log) + PumpOps(old(State()), w.taken)
    {
      ghost var start := State();
      ghost var taken: seq<Byte> := [];
      verdict := None;
      var i := 0;
      assert chunk[0..] == chunk;
      while i < |chunk| && verdict.None?
        invariant 0 <= i <= |chunk| && Valid()
        invariant log == old(log) + PumpOps(start, taken) && State() == FeedAll(start, taken).parser
        invariant verdict.None? ==> ChunkRun(start, chunk) == Prefixed(taken, ChunkRun(State(), chunk[i..]))
        invariant verdict.Some? ==> ChunkRun(start, chunk) == Waited(State(), verdict, taken)
      {
        assert chunk[i..][0] == chunk[i] && chunk[i..][1..] == chunk[i + 1..];
        PumpOpsExtend(start, taken, chunk[i]);
        ConcatAssociative(old(log), PumpOps(start, taken), OctetOps(State(), chunk[i]));
        ConcatAssociative(taken, [chunk[i]], ChunkRun(Feed(State(), chunk[i]).parser, chunk[i + 1..]).taken);
        var event := TakeByte(chunk[i]);
        taken := taken + [chunk[i]];
        if event.Some? && !event.value.DataFrame? {
          verdict := Some(ControlVerdict(event.value));
        }
        i := i + 1;
      }
      assert ChunkRun(start, chunk).taken == taken;
    }

    /** The middle loop of a send: poll until a control octet arrives or the deadline passes. */
    method WaitForAck(polls: seq<Poll>) returns (verdict: Verdict)
      requires Valid()
      modifies this
      ensures Valid()
      ensures var w := AwaitRun(old(State()), polls);
              w.verdict == Some(verdict) && State() == w.parser && log == old(log) + PumpOps(old(State()), w.taken)
    {
      ghost var start := State();
      ghost var taken: seq<Byte> := [];
      var i := 0;
      AwaitStarts(start, polls);
      while i < |polls|
        invariant 0 <= i <= |polls| && Valid()
        invariant log == old(log) + PumpOps(start, taken)
        invariant StillWaiting(start, polls, i, taken, State())
      {
        AwaitStep(start, polls, i, taken, State());
        if polls[i].Chunk? {
          ghost var more := ChunkRun(State(), polls[i].bytes).taken;
          ConcatAssociative(old(log), PumpOps(start, taken), PumpOps(State(), more));
          var seen := WaitOnChunk(polls[i].bytes);
          taken := taken + more;
          if seen.Some? {
            return seen.value;
          }
        }
        i := i + 1;
      }
      AwaitEnds(start, polls, taken, State());
      return TimedOut;
    }

    /** One attempt: write the buffer, and unless that failed wait for the line's answer. */
    method TryOnce(buffer: seq<Byte>, attempt: Attempt) returns (verdict: Verdict)
      requires Valid()
      modifies this
      ensures Valid()
      ensures var round := RoundRun(old(State()), attempt);
              && verdict == round.verdict && State() == round.end
              && log == old(log) + RoundOps(buffer, round)
    {
      ghost var round := RoundRun(State(), attempt);
      ConcatAssociative(log, [Wrote(buffer, round.writeOk)], PumpOps(round.start, round.taken));
      log := log + [Wrote(buffer, attempt.writeOk)];
      if !attempt.writeOk {
        return WriteFailed;
      }
      verdict := WaitForAck(attempt.polls);
    }

    /** Sends a request frame; the script holds what the line does in each of the three attempts. */
    method SendRequest(frame: ZwaveDataFrame, script: seq<Attempt>) returns (ok: bool)
      requires Valid() && |script| == MAX_SEND_RETRIES
      modifies this
      ensures Valid()
      ensures var rounds := SendRun(old(State()), script);
              && ok == Succeeded(rounds)
              && State() == rounds[|rounds| - 1].end
              && log == old(log) + SendOps(Encode(old(frame.Value())), rounds)
    {
      var buffer := frame.ToBuffer();
      ok := SendBuffer(buffer, script);
    }

    /** Where a send stands: rounds `done`, none acknowledged, on top of the log it started with. */
    ghost predicate Sending(buffer: seq<Byte>, script: seq<Attempt>, start: Parser, before: seq<Op>, done: seq<Round>)
      requires Valid()
      reads this
    {
      && StillSending(start, script, done)
      && State() == (if done == [] then start else done[|done| - 1].end)
      && log == before + SendOps(buffer, done)
    }

    /** How a send ended. */
    ghost predicate Sent(buffer: seq<Byte>, script: seq<Attempt>, start: Parser, before: seq<Op>, ok: bool)
      requires Valid()
      reads this
    {
      var rounds := SendRun(start, script);
      && rounds != [] && ok == Succeeded(rounds)
      && State() == rounds[|rounds| - 1].end
      && log == before + SendOps(buffer, rounds)
    }

    /** One turn of the retry loop: every attempt after the first starts from a reset parser. */
    method NextTry(
      buffer: seq<Byte>, script: seq<Attempt>, attempt: nat, ghost start: Parser, ghost before: seq<Op>,
      ghost done: seq<Round>)
      returns (acked: bool)
      requires Valid() && |done| == attempt < |script| && Sending(buffer, script, start, before, done)
      modifies this
      ensures Valid()
      ensures acked ==> Sent(buffer, script, start, before, true)
      ensures !acked ==>
                Sending(buffer, script, start, before, done + [RoundRun(NextStart(start, attempt), script[attempt])])
    {
      if attempt > 0 {
        ResetParser();
      }
      ghost var round := RoundRun(NextStart(start, attempt), script[attempt]);
      SendStep(start, script, done);
      SendOpsExtend(buffer, done, round);
      ConcatAssociative(before, SendOps(buffer, done), RoundOps(buffer, round));
      var verdict := TryOnce(buffer, script[attempt]);
      acked := verdict == Acked;
    }

    /** The retry loop of a send. */
    method SendBuffer(buffer: seq<Byte>, script: seq<Attempt>) returns (ok: bool)
      requires Valid() && 0 < |script|
      modifies this
      ensures Valid() && Sent(buffer, script, old(State()), old(log), ok)
    {
      ghost var start := State();
      ghost var done: seq<Round> := [];
      SendStarts(start, script);
      assert log + SendOps(buffer, []) == log;
      for attempt := 0 to |script|
        invariant Valid() && |done| == attempt && Sending(buffer, script, start, old(log), done)
      {
        var acked := NextTry(buffer, script, attempt, start, old(log), done);
        if acked {
          return true;
        }
        done := done + [RoundRun(NextStart(start, attempt), script[attempt])];
      }
      SendEnds(start, script, done);
      return false;
    }
  }

  /** After `i` polls without a verdict: what was taken so far, and what remains to be done. */
  ghost predicate StillWaiting(start: Parser, polls: seq<Poll>, i: nat, taken: seq<Byte>, p: Parser)
    requires i <= |polls|
  {
    p == FeedAll(start, taken).parser && AwaitRun(start, polls) == Prefixed(taken, AwaitRun(p, polls[i..]))
  }

  lemma {:induction false} AwaitStarts(start: Parser, polls: seq<Poll>)
    ensures StillWaiting(start, polls, 0, [], start)
  {
    assert polls[0..] == polls;
  }

  lemma {:induction false} AwaitEnds(start: Parser, polls: seq<Poll>, taken: seq<Byte>, p: Parser)
    requires StillWaiting(start, polls, |polls|, taken, p)
    ensures AwaitRun(start, polls) == Waited(p, Some(TimedOut), taken)
  {
    assert polls[|polls|..] == [] && taken + [] == taken;
  }

  lemma {:induction false} AwaitStep(start: Parser, polls: seq<Poll>, i: nat, taken: seq<Byte>, p: Parser)
    requires i < |polls| && StillWaiting(start, polls, i, taken, p)
    ensures polls[i].NoData? ==> StillWaiting(start, polls, i + 1, taken, p)
    ensures polls[i].Chunk? ==>
              var w := ChunkRun(p, polls[i].bytes);
              && PumpOps(start, taken + w.taken) == PumpOps(start, taken) + PumpOps(p, w.taken)
              && (w.verdict.None? ==> StillWaiting(start, polls, i + 1, taken + w.taken, w.parser))
              && (w.verdict.Some? ==> AwaitRun(start, polls) == Waited(w.parser, w.verdict, taken + w.taken))
  {
    assert polls[i..][0] == polls[i] && polls[i..][1..] == polls[i + 1..];
    if polls[i].Chunk? {
      var w := ChunkRun(p, polls[i].bytes);
      ChunkIsFaithful(p, polls[i].bytes);
      PumpOpsConcat(start, taken, w.taken);
      ConcatAssociative(taken, w.taken, AwaitRun(w.parser, polls[i + 1..]).taken);
    }
  }

  /** Every attempt but the first starts from a reset parser. */
  function NextStart(start: Parser, attempt: nat): Parser {
    if attempt == 0 then start else WaitFrameStart
  }

  /** None of the rounds so far was acknowledged, and they are the beginning of the whole run. */
  ghost predicate StillSending(start: Parser, script: seq<Attempt>, done: seq<Round>) {
    && |done| <= |script|
    && (forall i | 0 <= i < |done| :: done[i].verdict != Acked)
    && SendRun(start, script) == done + SendRun(NextStart(start, |done|), script[|done|..])
  }

  lemma {:induction false} SendStarts(start: Parser, script: seq<Attempt>)
    ensures StillSending(start, script, [])
  {
    assert script[0..] == script && [] + SendRun(start, script) == SendRun(start, script);
  }

  lemma {:induction false} SendStep(start: Parser, script: seq<Attempt>, done: seq<Round>)
    requires |done| < |script| && StillSending(start, script, done)
    ensures var round := RoundRun(NextStart(start, |done|), script[|done|]);
            if round.verdict == Acked then SendRun(start, script) == done + [round]
            else StillSending(start, script, done + [round])
  {
    var rest := script[|done|..];
    assert rest[0] == script[|done|] && rest[1..] == script[|done| + 1..];
    ConcatAssociative(done, [RoundRun(NextStart(start, |done|), rest[0])], SendRun(WaitFrameStart, rest[1..]));
  }

  lemma {:induction false} SendEnds(start: Parser, script: seq<Attempt>, done: seq<Round>)
    requires |done| == |script| && StillSending(start, script, done)
    ensures SendRun(start, script) == done
  {
    assert script[|done|..] == [] && done + [] == done;
  }

  function Prefixed(taken: seq<Byte>, w: Waited): Waited {
    w.(taken := taken + w.taken)
  }

  lemma {:induction false} PumpOpsConcat(p: Parser, s: seq<Byte>, t: seq<Byte>)
    ensures PumpOps(p, s + t) == PumpOps(p, s) + PumpOps(FeedAll(p, s).parser, t)
    ensures FeedAll(p, s + t).parser == FeedAll(FeedAll(p, s).parser, t).parser
    decreases |s|
  {
    if s == [] {
      assert s + t == t;
    } else {
      var q := Feed(p, s[0]).parser;
      assert (s + t)[0] == s[0] && (s + t)[1..] == s[1..] + t;
      PumpOpsConcat(q, s[1..], t);
      ConcatAssociative(OctetOps(p, s[0]), PumpOps(q, s[1..]), PumpOps(FeedAll(p, s).parser, t));
    }
  }

  lemma {:induction false} PumpOpsExtend(p: Parser, s: seq<Byte>, byte: Byte)
    ensures PumpOps(p, s + [byte]) == PumpOps(p, s) + OctetOps(FeedAll(p, s).parser, byte)
    ensures FeedAll(p, s + [byte]).parser == Feed(FeedAll(p, s).parser, byte).parser
  {
    PumpOpsConcat(p, s, [byte]);
    var q := FeedAll(p, s).parser;
    assert PumpOps(Feed(q, byte).parser, [byte][1..]) == [];
    assert FeedAll(Feed(q, byte).parser, [byte][1..]).parser == Feed(q, byte).parser;
  }

  lemma {:induction false} SendOpsExtend(buffer: seq<Byte>, rounds: seq<Round>, round: Round)
    ensures SendOps(buffer, rounds + [round]) ==
            SendOps(buffer, rounds) + RoundOps(buffer, round)
    decreases |rounds|
  {
    if rounds == [] {
      assert SendOps(buffer, [round][1..]) == [];
    } else {
      assert (rounds + [round])[0] == rounds[0] && (rounds + [round])[1..] == rounds[1..] + [round];
      SendOpsExtend(buffer, rounds[1..], round);
      ConcatAssociative(RoundOps(buffer, rounds[0]), SendOps(buffer, rounds[1..]), RoundOps(buffer, round));
    }
  }

  /** Parses one complete candidate frame through a frame object. */
  method ParseWhole(bytes: seq<Byte>) returns (frame: Frame, ok: bool)
    ensures ok == Decode(bytes).Some?
    ensures ok ==> frame == Decode(bytes).value
  {
    var buffer := new Byte[|bytes|](i requires 0 <= i < |bytes| => bytes[i]);
    assert buffer[..buffer.Length] == bytes;
    var parsed := new ZwaveDataFrame();
    ok := parsed.ParseFromBuffer(buffer, buffer.Length);
    frame := parsed.Value();
  }
}
