/** Captured standard streams: the bytes of a pipe, read in chunks, become log lines. */
module Capture {
  import opened Sequences

  /** One more character: a newline opens a new piece, anything else goes to the last one. */
  function Extended(pieces: seq<string>, c: char): (more: seq<string>)
    requires pieces != []
    ensures more != []
  {
    if c == '\n' then pieces + [[]] else pieces[..|pieces| - 1] + [pieces[|pieces| - 1] + [c]]
  }

  /** The pieces of a text between newlines; there is always at least one. */
  function Split(s: string): (pieces: seq<string>)
    ensures pieces != []
  {
    if s == [] then [[]]
    else Extended(Split(s[..|s| - 1]), s[|s| - 1])
  }

  function Join(pieces: seq<string>): string
    requires pieces != []
  {
    if |pieces| == 1 then pieces[0] else Join(pieces[..|pieces| - 1]) + "\n" + pieces[|pieces| - 1]
  }

  predicate OneLine(s: string) {
    '\n' !in s
  }

  function NonEmpty(pieces: seq<string>): seq<string> {
    if pieces == [] then []
    else NonEmpty(pieces[..|pieces| - 1]) + if pieces[|pieces| - 1] != [] then [pieces[|pieces| - 1]] else []
  }

  lemma {:induction false} JoinExtended(pieces: seq<string>, c: char)
    requires pieces != []
    ensures Join(Extended(pieces, c)) == Join(pieces) + [c]
  {
    if c == '\n' {
      assert (pieces + [[]])[..|pieces|] == pieces;
      assert Join(pieces) + "\n" + [] == Join(pieces) + [c];
    } else {
      var init, last := pieces[..|pieces| - 1], pieces[|pieces| - 1];
      assert (init + [last + [c]])[..|init|] == init;
      if init != [] {
        ConcatAssociative(Join(init) + "\n", last, [c]);
      }
    }
  }

  ghost predicate AllOneLine(pieces: seq<string>) {
    forall i | 0 <= i < |pieces| :: OneLine(pieces[i])
  }

  /** Splitting is undone by joining, and no piece holds a newline. */
  lemma {:induction false} JoinUndoesSplit(s: string)
    ensures Join(Split(s)) == s && AllOneLine(Split(s))
    decreases |s|
  {
    if s != [] {
      JoinUndoesSplit(s[..|s| - 1]);
      JoinExtended(Split(s[..|s| - 1]), s[|s| - 1]);
      assert s[..|s| - 1] + [s[|s| - 1]] == s;
    }
  }

  /** The pieces with text added to the last one. */
  function Lengthened(pieces: seq<string>, b: string): (more: seq<string>)
    requires pieces != []
    ensures more != []
  {
    pieces[..|pieces| - 1] + [pieces[|pieces| - 1] + b]
  }

  lemma {:induction false} LengthenedOnce(pieces: seq<string>, b: string, c: char)
    requires pieces != [] && c != '\n'
    ensures Extended(Lengthened(pieces, b), c) == Lengthened(pieces, b + [c])
  {
    var init, last := pieces[..|pieces| - 1], pieces[|pieces| - 1];
    assert (init + [last + b])[..|init|] == init;
    ConcatAssociative(last, b, [c]);
  }

  lemma {:induction false} LengthenedByNothing(pieces: seq<string>)
    requires pieces != []
    ensures Lengthened(pieces, []) == pieces
  {
    var init, last := pieces[..|pieces| - 1], pieces[|pieces| - 1];
    assert last + [] == last && init + [last] == pieces;
  }

  lemma {:induction false} SplitSnoc(s: string, c: char)
    ensures Split(s + [c]) == Extended(Split(s), c)
  {
    assert (s + [c])[..|s|] == s;
  }

  lemma {:induction false} SplitConcat(a: string, b: string)
    requires OneLine(b)
    ensures Split(a + b) == Lengthened(Split(a), b)
    decreases |b|
  {
    if b == [] {
      assert a + b == a;
      LengthenedByNothing(Split(a));
    } else {
      var front, c := b[..|b| - 1], b[|b| - 1];
      SplitConcat(a, front);
      assert front + [c] == b;
      ConcatAssociative(a, front, [c]);
      SplitSnoc(a + front, c);
      LengthenedOnce(Split(a), front, c);
    }
  }

  lemma {:induction false} SplitLine(line: string)
    requires OneLine(line)
    ensures Split(line) == [line] && Split(line + "\n") == [line] + [[]]
  {
    SplitConcat([], line);
    assert [] + line == line && Split([]) == [[]];
    SplitNewline(line);
  }

  lemma {:induction false} SplitNewline(s: string)
    ensures Split(s + "\n") == Split(s) + [[]]
  {
    assert (s + "\n")[..|s|] == s;
  }

  /** The pieces are the only way to write a text as lines. */
  lemma {:induction false} SplitUndoesJoin(pieces: seq<string>)
    requires pieces != [] && AllOneLine(pieces)
    ensures Split(Join(pieces)) == pieces
    decreases |pieces|
  {
    if |pieces| == 1 {
      SplitLine(pieces[0]);
    } else {
      SplitUndoesJoin(pieces[..|pieces| - 1]);
      SplitLastLine(pieces[..|pieces| - 1], pieces[|pieces| - 1]);
    }
  }

  lemma {:induction false} SplitLastLine(front: seq<string>, last: string)
    requires front != [] && Split(Join(front)) == front && OneLine(last)
    ensures Split(Join(front) + "\n" + last) == front + [last]
  {
    SplitNewline(Join(front));
    SplitConcat(Join(front) + "\n", last);
    assert (front + [[]])[..|front|] == front && [] + last == last;
  }

  lemma {:induction false} ExtendedBehind(line: string, pieces: seq<string>, c: char)
    requires pieces != []
    ensures Extended([line] + pieces, c) == [line] + Extended(pieces, c)
  {
    assert ([line] + pieces)[..|pieces|] == [line] + pieces[..|pieces| - 1];
    ConcatAssociative([line], pieces[..|pieces| - 1], [pieces[|pieces| - 1] + [c]]);
    ConcatAssociative([line], pieces, [[]]);
  }

  /** A line already taken off the front is the first piece of the whole. */
  lemma {:induction false} SplitAfterLine(line: string, rest: string)
    requires OneLine(line)
    ensures Split(line + "\n" + rest) == [line] + Split(rest)
    decreases |rest|
  {
    var head := line + "\n";
    if rest == [] {
      SplitLine(line);
      assert head + rest == head;
    } else {
      var front, c := rest[..|rest| - 1], rest[|rest| - 1];
      SplitAfterLine(line, front);
      ConcatAssociative(head, front, [c]);
      assert front + [c] == rest;
      SplitSnoc(head + front, c);
      SplitSnoc(front, c);
      ExtendedBehind(line, Split(front), c);
    }
  }

  /** What one `read` gives: bytes (none at end of file), an interruption, or a failure. */
  datatype ReadResult = Data(bytes: string) | Interrupted | Failed

  /** The bytes read until end of file, a failure or the last result. */
  function Input(results: seq<ReadResult>): string {
    if results == [] then []
    else match results[0]
      case Data(bytes) => if bytes == [] then [] else bytes + Input(results[1..])
      case Interrupted => Input(results[1..])
      case Failed => []
  }

  /** A result after which nothing more is read. */
  predicate Ends(r: ReadResult) {
    r.Failed? || r == Data([])
  }

  function BytesIn(r: ReadResult): string {
    if r.Data? then r.bytes else []
  }

  /** The input is everything read before the end, interruptions passed over; nothing behind the end counts. */
  lemma {:induction false} InputIsRead(before: seq<ReadResult>, after: seq<ReadResult>)
    requires forall i | 0 <= i < |before| :: !Ends(before[i])
    requires after == [] || Ends(after[0])
    ensures Input(before + after) == FlatMap(before, BytesIn)
    decreases |before|
  {
    if before == [] {
      assert before + after == after;
    } else {
      var rest := before[1..];
      InputIsRead(rest, after);
      assert (before + after)[0] == before[0] && (before + after)[1..] == rest + after;
      assert before == [before[0]] + rest;
      FlatMapConcat([before[0]], rest, BytesIn);
      FlatMapOne(before[0], BytesIn);
    }
  }

  /** Only empty pieces are left out, and the others stay in order. */
  lemma {:induction false} NonEmptyKeeps(pieces: seq<string>, x: string)
    ensures multiset(NonEmpty(pieces))[x] == if x == [] then 0 else multiset(pieces)[x]
    decreases |pieces|
  {
    if pieces != [] {
      NonEmptyKeeps(pieces[..|pieces| - 1], x);
      assert pieces == pieces[..|pieces| - 1] + [pieces[|pieces| - 1]];
    }
  }

  /** Terminated lines put back together. */
  function Glue(done: seq<string>): string {
    if done == [] then [] else done[0] + "\n" + Glue(done[1..])
  }

  lemma {:induction false} SplitGlue(done: seq<string>, rest: string)
    requires AllOneLine(done)
    ensures Split(Glue(done) + rest) == done + Split(rest)
    decreases |done|
  {
    if done == [] {
      assert Glue(done) + rest == rest;
    } else {
      SplitGlue(done[1..], rest);
      ConcatAssociative(done[0] + "\n", Glue(done[1..]), rest);
      SplitAfterLine(done[0], Glue(done[1..]) + rest);
      assert [done[0]] + done[1..] == done;
      ConcatAssociative([done[0]], done[1..], Split(rest));
    }
  }

  lemma {:induction false} GlueAppend(done: seq<string>, line: string, rest: string)
    ensures Glue(done + [line]) + rest == Glue(done) + (line + "\n" + rest)
    decreases |done|
  {
    if done == [] {
      assert done + [line] == [line] && [line][1..] == [];
    } else {
      GlueAppend(done[1..], line, rest);
      assert (done + [line])[1..] == done[1..] + [line];
      var head := done[0] + "\n";
      ConcatAssociative(head, Glue(done[1..] + [line]), rest);
      ConcatAssociative(head, Glue(done[1..]), line + "\n" + rest);
    }
  }

  lemma {:induction false} NonEmptyAppend(done: seq<string>, line: string)
    ensures NonEmpty(done + [line]) == NonEmpty(done) + if line != [] then [line] else []
  {
    assert (done + [line])[..|done|] == done;
  }

  /** Takes every complete line off the buffer. */
  method ExtractLines(buffer: string, lines: seq<string>, ghost done: seq<string>)
    returns (rest: string, more: seq<string>, ghost all: seq<string>)
    requires lines == NonEmpty(done) && AllOneLine(done)
    ensures OneLine(rest) && more == NonEmpty(all) && AllOneLine(all)
    ensures Glue(all) + rest == Glue(done) + buffer
  {
    rest, more, all := buffer, lines, done;
    var pos := IndexOf(rest, '\n');
    while pos < |rest|
      invariant pos == IndexOf(rest, '\n')
      invariant more == NonEmpty(all) && AllOneLine(all)
      invariant Glue(all) + rest == Glue(done) + buffer
      decreases |rest|
    {
      var line := rest[..pos];
      assert rest == line + "\n" + rest[pos + 1..];
      GlueAppend(all, line, rest[pos + 1..]);
      NonEmptyAppend(all, line);
      all := all + [line];
      rest := rest[pos + 1..];
      if line != [] {
        more := more + [line];
      }
      pos := IndexOf(rest, '\n');
    }
    assert rest[..pos] == rest;
  }

  /** The lines logged are the non-empty pieces of the whole input, however it arrived. */
  method CaptureReaderLoop(results: seq<ReadResult>) returns (lines: seq<string>)
    ensures lines == NonEmpty(Split(Input(results)))
  {
    lines := [];
    var buffer: string := [];
    ghost var done: seq<string> := [];
    var i := 0;
    assert results[0..] == results;
    while i < |results|
      invariant 0 <= i <= |results|
      invariant OneLine(buffer) && lines == NonEmpty(done) && AllOneLine(done)
      invariant Input(results) == Glue(done) + buffer + Input(results[i..])
    {
      var got := results[i];
      assert results[i..][0] == got && results[i..][1..] == results[i + 1..];
      if got.Failed? || got == Data([]) {
        break;
      }
      if got.Data? {
        ConcatAssociative(Glue(done) + buffer, got.bytes, Input(results[i + 1..]));
        ConcatAssociative(Glue(done), buffer, got.bytes);
        buffer, lines, done := ExtractLines(buffer + got.bytes, lines, done);
      }
      i := i + 1;
    }
    assert Input(results) == Glue(done) + buffer;
    SplitGlue(done, buffer);
    SplitUndoesJoin([buffer]);
    NonEmptyAppend(done, buffer);
    if buffer != [] {
      lines := lines + [buffer];
    }
  }
}
