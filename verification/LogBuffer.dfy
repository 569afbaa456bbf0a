/** The run host's log buffer: a stream arrives in arbitrary chunks and is cut into lines; the
    buffer keeps the newest lines under ids that never repeat. */
module LogBuffer {

  const MAX_LOG_LINES: nat := 5000

  // ---- Splitting a whole text --------------------------------------------------------

  /** Index of the first newline, or the length when there is none. */
  function Newline(s: string): (i: nat)
    ensures i <= |s|
    ensures i < |s| ==> s[i] == '\n'
    ensures forall j :: 0 <= j < i ==> s[j] != '\n'
  {
    if s == "" then 0 else if s[0] == '\n' then 0 else 1 + Newline(s[1..])
  }

  function StripCr(line: string): string {
    if line != "" && line[|line| - 1] == '\r' then line[..|line| - 1] else line
  }

  /** Pieces between newlines; always at least one. */
  function Split(s: string): seq<string>
    decreases |s|
  {
    var i := Newline(s);
    if i == |s| then [s] else [s[..i]] + Split(s[i + 1..])
  }

  function StripAll(lines: seq<string>): seq<string> {
    if lines == [] then [] else [StripCr(lines[0])] + StripAll(lines[1..])
  }

  /** The one-shot split: a final newline ends the last line, it does not start another. */
  function SplitLines(text: string): seq<string> {
    if text == "" then []
    else if text[|text| - 1] == '\n' then StripAll(Split(text[..|text| - 1]))
    else StripAll(Split(text))
  }

  // ---- Splitting a stream ------------------------------------------------------------

  /** The lines a buffer already completes, and what is left after them. */
  function Complete(buffer: string): seq<string>
    decreases |buffer|
  {
    var i := Newline(buffer);
    if i == |buffer| then [] else [StripCr(buffer[..i])] + Complete(buffer[i + 1..])
  }

  function Rest(buffer: string): string
    decreases |buffer|
  {
    var i := Newline(buffer);
    if i == |buffer| then buffer else Rest(buffer[i + 1..])
  }

  /** What the end of the stream still pushes. */
  function Flush(buffer: string): seq<string> {
    if buffer == "" then [] else [StripCr(buffer)]
  }

  function Join(chunks: seq<string>): string {
    if chunks == [] then "" else chunks[0] + Join(chunks[1..])
  }

  /** Everything pushed for a stream that arrives as these chunks, then ends. */
  function Streamed(buffer: string, chunks: seq<string>): seq<string>
    decreases |chunks|
  {
    if chunks == [] then Flush(buffer)
    else Complete(buffer + chunks[0]) + Streamed(Rest(buffer + chunks[0]), chunks[1..])
  }

  lemma NewlineUnique(s: string, i: nat)
    requires i < |s| && s[i] == '\n' && forall j :: 0 <= j < i ==> s[j] != '\n'
    ensures Newline(s) == i
  {
  }

  lemma NewlineIn(a: string, b: string)
    ensures Newline(a) < |a| ==> Newline(a + b) == Newline(a)
  {
    if Newline(a) < |a| {
      NewlineUnique(a + b, Newline(a));
    }
  }

  lemma Assoc<T>(a: seq<T>, b: seq<T>, c: seq<T>)
    ensures (a + b) + c == a + (b + c)
  {
  }

  lemma FirstLine(s: string, i: nat)
    requires Newline(s) == i < |s|
    ensures Complete(s) == [StripCr(s[..i])] + Complete(s[i + 1..])
    ensures Rest(s) == Rest(s[i + 1..])
  {
  }

  lemma FirstOfBoth(a: string, b: string, i: nat)
    requires i == Newline(a) && i < |a|
    ensures Complete(a + b) == [StripCr(a[..i])] + Complete(a[i + 1..] + b)
    ensures Rest(a + b) == Rest(a[i + 1..] + b)
  {
    NewlineIn(a, b);
    FirstLine(a + b, i);
    assert (a + b)[..i] == a[..i] && (a + b)[i + 1..] == a[i + 1..] + b;
  }

  /** Cutting a text anywhere and carrying the partial line over loses nothing. */
  lemma {:induction false} CutAnywhere(a: string, b: string)
    ensures Complete(a + b) == Complete(a) + Complete(Rest(a) + b)
    ensures Rest(a + b) == Rest(Rest(a) + b)
    decreases |a|
  {
    var i := Newline(a);
    if i < |a| {
      var tail := a[i + 1..];
      CutAnywhere(tail, b);
      FirstLine(a, i);
      FirstOfBoth(a, b, i);
      Assoc([StripCr(a[..i])], Complete(tail), Complete(Rest(tail) + b));
    }
  }

  lemma {:induction false} StreamedIsWhole(buffer: string, chunks: seq<string>)
    requires Rest(buffer) == buffer && Complete(buffer) == []
    ensures Streamed(buffer, chunks) == Complete(buffer + Join(chunks)) + Flush(Rest(buffer + Join(chunks)))
    decreases |chunks|
  {
    if chunks == [] {
      assert buffer + "" == buffer;
    } else {
      var now, later := buffer + chunks[0], Join(chunks[1..]);
      RestIsPartial(now);
      StreamedIsWhole(Rest(now), chunks[1..]);
      CutAnywhere(now, later);
      Assoc(buffer, chunks[0], later);
      Assoc(Complete(now), Complete(Rest(now) + later), Flush(Rest(Rest(now) + later)));
    }
  }

  lemma {:induction false} RestIsPartial(buffer: string)
    ensures Rest(Rest(buffer)) == Rest(buffer) && Complete(Rest(buffer)) == []
    decreases |buffer|
  {
    var i := Newline(buffer);
    if i < |buffer| {
      FirstLine(buffer, i);
      RestIsPartial(buffer[i + 1..]);
    } else {
      assert Rest(buffer) == buffer;
    }
  }

  /** Without a final newline the pieces are the complete lines and the partial one. */
  lemma {:induction false} SplitIsCompleteAndRest(s: string)
    ensures StripAll(Split(s)) == Complete(s) + [StripCr(Rest(s))]
    decreases |s|
  {
    var i := Newline(s);
    if i < |s| {
      SplitIsCompleteAndRest(s[i + 1..]);
    }
  }

  /** A final newline completes the last piece. */
  lemma {:induction false} SplitBeforeNewline(s: string)
    ensures StripAll(Split(s)) == Complete(s + "\n") && Rest(s + "\n") == ""
    decreases |s|
  {
    SplitIsCompleteAndRest(s);
    CutAnywhere(s, "\n");
    RestIsPartial(s);
    var r := Rest(s);
    PartialHasNoNewline(r);
    NewlineUnique(r + "\n", |r|);
    assert (r + "\n")[..|r|] == r && (r + "\n")[|r| + 1..] == "";
  }

  lemma PartialHasNoNewline(r: string)
    requires Complete(r) == []
    ensures forall j :: 0 <= j < |r| ==> r[j] != '\n'
  {
  }

  lemma {:induction false} RestNonEmpty(s: string)
    requires s != "" && s[|s| - 1] != '\n'
    ensures Rest(s) != ""
    decreases |s|
  {
    var i := Newline(s);
    if i < |s| {
      RestNonEmpty(s[i + 1..]);
    }
  }

  lemma WholeIsSplit(text: string)
    ensures Complete(text) + Flush(Rest(text)) == SplitLines(text)
  {
    if text != "" {
      if text[|text| - 1] == '\n' {
        var s := text[..|text| - 1];
        assert s + "\n" == text;
        SplitBeforeNewline(s);
      } else {
        SplitIsCompleteAndRest(text);
        RestNonEmpty(text);
      }
    }
  }

  /** For every text and every way of cutting it into chunks, the lines the stream pushes are
      the lines of the one-shot split. */
  lemma ChunkingIsInvisible(chunks: seq<string>)
    ensures Streamed("", chunks) == SplitLines(Join(chunks))
  {
    StreamedIsWhole("", chunks);
    assert "" + Join(chunks) == Join(chunks);
    WholeIsSplit(Join(chunks));
  }

  // ---- What the lines say --------------------------------------------------------------

  /** The lines, each ended by a newline. */
  function Terminated(lines: seq<string>): string {
    if lines == [] then "" else lines[0] + "\n" + Terminated(lines[1..])
  }

  /** The text with its last line ended, if it was not. */
  function Ended(text: string): string {
    if text == "" || text[|text| - 1] == '\n' then text else text + "\n"
  }

  predicate OneLine(piece: string) {
    forall j :: 0 <= j < |piece| ==> piece[j] != '\n'
  }

  lemma {:induction false} SplitGivesBack(s: string)
    ensures Terminated(Split(s)) == s + "\n"
    ensures forall i :: 0 <= i < |Split(s)| ==> OneLine(Split(s)[i])
    decreases |s|
  {
    var i := Newline(s);
    if i < |s| {
      var rest := s[i + 1..];
      SplitGivesBack(rest);
      assert ([s[..i]] + Split(rest))[1..] == Split(rest);
      assert s == s[..i] + "\n" + rest;
    } else {
      assert [s][1..] == [];
    }
  }

  /** A line and the piece of text it comes from: one carriage return at the very end goes. */
  predicate LineOf(line: string, piece: string) {
    if piece != "" && piece[|piece| - 1] == '\r' then piece == line + "\r" else line == piece
  }

  lemma {:induction false} StripAllIsLines(pieces: seq<string>)
    ensures |StripAll(pieces)| == |pieces|
    ensures forall i :: 0 <= i < |pieces| ==> LineOf(StripAll(pieces)[i], pieces[i])
    decreases |pieces|
  {
    if pieces != [] {
      StripAllIsLines(pieces[1..]);
    }
  }

  /** What is in the lines, for every text: the pieces between its newlines, which give the text
      back, each without the one carriage return it may end in. */
  lemma LinesAreTheText(text: string) returns (pieces: seq<string>)
    ensures Terminated(pieces) == Ended(text) && forall i :: 0 <= i < |pieces| ==> OneLine(pieces[i])
    ensures |SplitLines(text)| == |pieces|
    ensures forall i :: 0 <= i < |pieces| ==> LineOf(SplitLines(text)[i], pieces[i])
  {
    if text == "" {
      pieces := [];
    } else {
      var s := if text[|text| - 1] == '\n' then text[..|text| - 1] else text;
      pieces := Split(s);
      SplitGivesBack(s);
      StripAllIsLines(pieces);
      assert s + "\n" == Ended(text);
    }
  }

  lemma {:induction false} PiecesWithoutCr(pieces: seq<string>)
    requires '\r' !in Terminated(pieces)
    ensures forall i :: 0 <= i < |pieces| ==> '\r' !in pieces[i]
    decreases |pieces|
  {
    if pieces != [] {
      var first, rest := pieces[0] + "\n", Terminated(pieces[1..]);
      assert forall c :: c in first || c in rest ==> c in first + rest;
      assert forall c :: c in pieces[0] ==> c in first;
      PiecesWithoutCr(pieces[1..]);
    }
  }

  /** A text without carriage returns is its lines, each ended by a newline. */
  lemma LinesGiveTextBack(text: string)
    requires '\r' !in text
    ensures Terminated(SplitLines(text)) == Ended(text)
  {
    var pieces := LinesAreTheText(text);
    PiecesWithoutCr(pieces);
    assert SplitLines(text) == pieces;
  }

  // ---- Two streams into one buffer ---------------------------------------------------

  datatype Arrival = Arrival(isError: bool, chunk: string)

  datatype Tagged = Tagged(isError: bool, line: string)

  function Tag(isError: bool, lines: seq<string>): seq<Tagged> {
    seq(|lines|, i requires 0 <= i < |lines| => Tagged(isError, lines[i]))
  }

  /** All that two piped streams push as their chunks arrive, before either ends. */
  function Pushed(out: string, err: string, arrivals: seq<Arrival>): seq<Tagged>
    decreases |arrivals|
  {
    if arrivals == [] then []
    else
      var a := arrivals[0];
      if a.isError then
        Tag(true, Complete(err + a.chunk)) + Pushed(out, Rest(err + a.chunk), arrivals[1..])
      else
        Tag(false, Complete(out + a.chunk)) + Pushed(Rest(out + a.chunk), err, arrivals[1..])
  }

  function Of(isError: bool, tagged: seq<Tagged>): seq<string> {
    if tagged == [] then []
    else if tagged[0].isError == isError then [tagged[0].line] + Of(isError, tagged[1..])
    else Of(isError, tagged[1..])
  }

  function ChunksOf(isError: bool, arrivals: seq<Arrival>): seq<string> {
    if arrivals == [] then []
    else if arrivals[0].isError == isError then [arrivals[0].chunk] + ChunksOf(isError, arrivals[1..])
    else ChunksOf(isError, arrivals[1..])
  }

  lemma {:induction false} OfTag(isError: bool, tag: bool, lines: seq<string>, rest: seq<Tagged>)
    ensures Of(isError, Tag(tag, lines) + rest) == (if tag == isError then lines else []) + Of(isError, rest)
    decreases |lines|
  {
    var all := Tag(tag, lines) + rest;
    if lines == [] {
      assert all == rest;
    } else {
      assert all[1..] == Tag(tag, lines[1..]) + rest;
      OfTag(isError, tag, lines[1..], rest);
    }
  }

  function Carried(isError: bool, out: string, err: string): string {
    if isError then err else out
  }

  predicate Partial(buffer: string) {
    Rest(buffer) == buffer && Complete(buffer) == []
  }

  lemma OwnChunk(now: string, carried: string, chunk: string, later: string)
    requires now == carried + chunk
    ensures Complete(now) + Complete(Rest(now) + later) == Complete(carried + (chunk + later))
  {
    Assoc(carried, chunk, later);
    CutAnywhere(now, later);
  }

  /** However the chunks of the two streams interleave, each stream's lines come out whole and
      in order, untouched by the other. */
  lemma {:induction false} StreamsDoNotMix(isError: bool, out: string, err: string, arrivals: seq<Arrival>)
    requires Partial(Carried(isError, out, err))
    ensures Of(isError, Pushed(out, err, arrivals)) ==
            Complete(Carried(isError, out, err) + Join(ChunksOf(isError, arrivals)))
    decreases |arrivals|
  {
    var mine := Carried(isError, out, err);
    if arrivals == [] {
      assert mine + "" == mine;
    } else {
      var a, rest := arrivals[0], arrivals[1..];
      var now := Carried(a.isError, out, err) + a.chunk;
      var out', err' := if a.isError then out else Rest(now), if a.isError then Rest(now) else err;
      var later := Join(ChunksOf(isError, rest));
      OfTag(isError, a.isError, Complete(now), Pushed(out', err', rest));
      if a.isError == isError {
        RestIsPartial(now);
        StreamsDoNotMix(isError, out', err', rest);
        OwnChunk(now, mine, a.chunk, later);
      } else {
        StreamsDoNotMix(isError, out', err', rest);
      }
    }
  }

  // ---- The ring buffer ---------------------------------------------------------------

  datatype LogLine = LogLine(seqNo: nat, text: string)

  function Max(a: nat, b: int): nat {
    if b > a then b else a
  }

  class Buffer {
    var logs: seq<LogLine>
    var seqNo: nat

    /** Every line ever pushed, and where the current run starts in it. */
    ghost var all: seq<string>
    ghost var start: nat

    /** The newest lines of this run, at most the cap; a line's id is its place among all
        lines ever pushed, so ids are consecutive and never reused across resets. */
    ghost predicate Valid()
      reads this
    {
      var first := Max(start, |all| - MAX_LOG_LINES);
      && start <= |all| && seqNo == |all|
      && |logs| == |all| - first
      && forall i :: 0 <= i < |logs| ==> logs[i] == LogLine(first + i, all[first + i])
    }

    constructor ()
      ensures Valid() && all == [] && start == 0
    {
      logs, seqNo, all, start := [], 0, [], 0;
    }

    method Push(text: string)
      requires Valid()
      modifies this
      ensures Valid() && all == old(all) + [text] && start == old(start)
      ensures logs != [] && logs[|logs| - 1] == LogLine(old(seqNo), text)
      ensures |logs| == if old(|logs|) == MAX_LOG_LINES then MAX_LOG_LINES else old(|logs|) + 1
    {
      logs := logs + [LogLine(seqNo, text)];
      seqNo := seqNo + 1;
      all := all + [text];
      if |logs| > MAX_LOG_LINES {
        logs := logs[|logs| - MAX_LOG_LINES..];
      }
    }

    method Reset()
      requires Valid()
      modifies this
      ensures Valid() && all == old(all) && start == |all| && logs == [] && seqNo == old(seqNo)
    {
      logs := [];
      start := |all|;
    }
  }

  /** One piped stream: the partial line it carries between chunks. */
  class Pipe {
    var buffer: string
    const sink: Buffer

    constructor (sink: Buffer)
      ensures buffer == "" && this.sink == sink
    {
      buffer := "";
      this.sink := sink;
    }

    method Data(chunk: string)
      requires sink.Valid()
      modifies this, sink
      ensures sink.Valid() && sink.start == old(sink.start)
      ensures sink.all == old(sink.all) + Complete(old(buffer) + chunk)
      ensures buffer == Rest(old(buffer) + chunk)
    {
      buffer := buffer + chunk;
      ghost var whole := buffer;
      while Newline(buffer) < |buffer|
        invariant sink.Valid() && sink.start == old(sink.start)
        invariant sink.all + Complete(buffer) == old(sink.all) + Complete(whole)
        invariant Rest(buffer) == Rest(whole)
        decreases |buffer|
      {
        var nl := Newline(buffer);
        FirstLine(buffer, nl);
        Assoc(sink.all, [StripCr(buffer[..nl])], Complete(buffer[nl + 1..]));
        sink.Push(StripCr(buffer[..nl]));
        buffer := buffer[nl + 1..];
      }
    }

    method End()
      requires sink.Valid()
      modifies this, sink
      ensures sink.Valid() && sink.start == old(sink.start) && buffer == ""
      ensures sink.all == old(sink.all) + Flush(old(buffer))
    {
      if buffer != "" {
        sink.Push(StripCr(buffer));
      }
      buffer := "";
    }

    /** A whole stream, however it is cut, pushes exactly the lines of its text. */
    method Consume(chunks: seq<string>)
      requires sink.Valid() && buffer == ""
      modifies this, sink
      ensures sink.Valid() && sink.start == old(sink.start)
      ensures sink.all == old(sink.all) + SplitLines(Join(chunks))
    {
      for i := 0 to |chunks|
        invariant sink.Valid() && sink.start == old(sink.start)
        invariant sink.all + Streamed(buffer, chunks[i..]) == old(sink.all) + Streamed("", chunks)
      {
        assert chunks[i..][1..] == chunks[i + 1..];
        Data(chunks[i]);
      }
      End();
      ChunkingIsInvisible(chunks);
    }
  }
}
