/**
 * The reader of the completion service's streaming response (`openrouterStream`
 * in sw.js): a simplified reader of the `text/event-stream` format of the
 * WHATWG HTML Living Standard, section 9.2 (server-sent events).
 *
 * Decoded text arrives in chunks. The reader appends each chunk to a buffer,
 * splits the buffer at blank lines ("\n\n") and keeps the last, unterminated
 * piece for later. Of each complete event it reads the `data:` lines only; a
 * `[DONE]` payload ends the event it is in; a record whose first choice's delta
 * carries tool calls ends the whole read; non-empty string contents of deltas
 * accumulate into the answer. Records that do not parse are skipped.
 */
module EventStream {
  import opened Wrappers
  import opened Text

  const EventSeparator: string := "\n\n"
  const LineSeparator: string := "\n"
  const DataPrefix: string := "data:"
  const DoneMarker: string := "[DONE]"

  /** `choices[0].delta` of a record: whether its `tool_calls` is truthy, and its `content` when that is a string. */
  datatype Delta = Delta(hasToolCalls: bool, content: Option<string>)

  /**
   * A `data:` payload once JSON.parse has seen it: Malformed when parsing
   * throws, NoDelta when there is no first choice or it has no delta.
   */
  datatype Record = Malformed | NoDelta | WithDelta(delta: Delta)

  /** What the reader does with one line of an event. */
  datatype LineAction = Skip | EndOfEvent | Piece(text: string) | ToolCallsSeen

  function ActionOf(line: string, parse: string -> Record): LineAction {
    var trimmed := Trim(line);
    if !StartsWith(trimmed, DataPrefix) then Skip
    else
      var data := Trim(trimmed[|DataPrefix|..]);
      if data == DoneMarker then EndOfEvent
      else match parse(data)
        case WithDelta(d) =>
          if d.hasToolCalls then ToolCallsSeen
          else if d.content.Some? && |d.content.value| > 0 then Piece(d.content.value)
          else Skip
        case _ => Skip
  }

  /** What the reader has gathered: the text pieces it accepted, in order, and whether it stopped for tool calls. */
  datatype Scan = Scan(pieces: seq<string>, aborted: bool)

  /** Reads the lines of one event, continuing from the pieces gathered so far. */
  function ScanLines(pieces: seq<string>, lines: seq<string>, parse: string -> Record): Scan
    decreases |lines|
  {
    if lines == [] then Scan(pieces, false)
    else match ActionOf(lines[0], parse)
      case Skip => ScanLines(pieces, lines[1..], parse)
      case EndOfEvent => Scan(pieces, false)
      case Piece(t) => ScanLines(pieces + [t], lines[1..], parse)
      case ToolCallsSeen => Scan(pieces, true)
  }

  /** Reads complete events in order until one of them stops the read. */
  function ScanEvents(pieces: seq<string>, events: seq<string>, parse: string -> Record): Scan
    decreases |events|
  {
    if events == [] then Scan(pieces, false)
    else
      var s := ScanLines(pieces, Split(events[0], LineSeparator), parse);
      if s.aborted then s else ScanEvents(s.pieces, events[1..], parse)
  }

  /** The blank-line-terminated events of a stream; the unterminated rest is not among them. */
  function CompleteEvents(stream: string): seq<string> {
    Init(Split(stream, EventSeparator))
  }

  /** The reading of a whole stream, as if it had arrived in one chunk. */
  function ScanStream(stream: string, parse: string -> Record): Scan {
    ScanEvents([], CompleteEvents(stream), parse)
  }

  /** The value `openrouterStream` resolves to: `{aborted: true}` or `{streamed: true, content}`. */
  datatype StreamResult = Aborted | Streamed(content: string)

  /** The messages the reader sends to the side panel while it reads. */
  datatype Notice = StreamStart | StreamDelta(text: string) | StreamAbort

  function ResultOf(s: Scan): StreamResult {
    if s.aborted then Aborted else Streamed(Concat(s.pieces))
  }

  function DeltaNotices(pieces: seq<string>): seq<Notice> {
    if pieces == [] then [] else DeltaNotices(pieces[..|pieces| - 1]) + [StreamDelta(pieces[|pieces| - 1])]
  }

  function NoticesOf(s: Scan): seq<Notice> {
    [StreamStart] + DeltaNotices(s.pieces) + (if s.aborted then [StreamAbort] else [])
  }

  /**
   * The read loop of `openrouterStream`, over the decoded chunks of the body.
   * Whatever the chunking, it ends as the reading of the concatenated stream
   * does, and it announces each accepted piece, and an abort, as it goes.
   */
  method ReadStream(chunks: seq<string>, parse: string -> Record) returns (r: StreamResult, notices: seq<Notice>)
    ensures r == ResultOf(ScanStream(Concat(chunks), parse))
    ensures notices == NoticesOf(ScanStream(Concat(chunks), parse))
  {
    ghost var goal := ScanStream(Concat(chunks), parse);
    notices := [StreamStart];
    var buffer := "";
    var fullText := "";
    var pieces: seq<string> := [];
    var k := 0;
    assert buffer + Concat(chunks[k..]) == Concat(chunks);
    while k < |chunks|
      invariant 0 <= k <= |chunks|
      invariant !Contains(buffer, EventSeparator)
      invariant fullText == Concat(pieces)
      invariant notices == [StreamStart] + DeltaNotices(pieces)
      invariant ScanEvents(pieces, CompleteEvents(buffer + Concat(chunks[k..])), parse) == goal
    {
      ghost var later := Concat(chunks[k + 1..]);
      ChunkStep(buffer, chunks, k);
      var parts := Split(buffer + chunks[k], EventSeparator);
      var events := Init(parts);
      buffer := Last(parts);
      ghost var tail := CompleteEvents(buffer + later);
      var p := 0;
      assert events[p..] + tail == events + tail;
      while p < |events|
        invariant 0 <= p <= |events|
        invariant fullText == Concat(pieces)
        invariant notices == [StreamStart] + DeltaNotices(pieces)
        invariant ScanEvents(pieces, events[p..] + tail, parse) == goal
      {
        EventStep(pieces, events, p, tail, parse);
        var toolCalls;
        pieces, fullText, notices, toolCalls := ReadEvent(events[p], parse, pieces, fullText, notices);
        if toolCalls {
          notices := notices + [StreamAbort];
          return Aborted, notices;
        }
        p := p + 1;
      }
      assert events[p..] + tail == tail;
      k := k + 1;
    }
    SplitWithout(buffer, EventSeparator);
    assert buffer + Concat(chunks[k..]) == buffer;
    r := Streamed(fullText);
  }

  /**
   * The innermost loop of `openrouterStream`: the lines of one complete event.
   * `toolCalls` tells the caller to abandon the read.
   */
  method ReadEvent(event: string, parse: string -> Record, pieces0: seq<string>, fullText0: string, notices0: seq<Notice>)
    returns (pieces: seq<string>, fullText: string, notices: seq<Notice>, toolCalls: bool)
    requires fullText0 == Concat(pieces0)
    requires notices0 == [StreamStart] + DeltaNotices(pieces0)
    ensures ScanLines(pieces0, Split(event, LineSeparator), parse) == Scan(pieces, toolCalls)
    ensures fullText == Concat(pieces)
    ensures notices == [StreamStart] + DeltaNotices(pieces)
  {
    pieces, fullText, notices := pieces0, fullText0, notices0;
    var lines := Split(event, LineSeparator);
    var l := 0;
    assert lines[l..] == lines;
    while l < |lines|
      invariant 0 <= l <= |lines|
      invariant fullText == Concat(pieces)
      invariant notices == [StreamStart] + DeltaNotices(pieces)
      invariant ScanLines(pieces, lines[l..], parse) == ScanLines(pieces0, lines, parse)
    {
      ghost var action := ActionOf(lines[l], parse);
      LineStep(pieces, lines, l, parse);
      var trimmed := Trim(lines[l]);
      if StartsWith(trimmed, DataPrefix) {
        var data := Trim(trimmed[|DataPrefix|..]);
        if data == DoneMarker {
          assert action == EndOfEvent;
          return pieces, fullText, notices, false;
        }
        var record := parse(data);
        if record.WithDelta? {
          var delta := record.delta;
          if delta.hasToolCalls {
            assert action == ToolCallsSeen;
            return pieces, fullText, notices, true;
          }
          if delta.content.Some? && |delta.content.value| > 0 {
            assert action == Piece(delta.content.value);
            ConcatSnoc(pieces, delta.content.value);
            DeltaNoticesSnoc(pieces, delta.content.value);
            fullText := fullText + delta.content.value;
            notices := notices + [StreamDelta(delta.content.value)];
            pieces := pieces + [delta.content.value];
          } else {
            assert action == Skip;
          }
        } else {
          assert action == Skip;
        }
      } else {
        assert action == Skip;
      }
      assert ScanLines(pieces, lines[l + 1..], parse) == ScanLines(pieces0, lines, parse);
      l := l + 1;
      assert ScanLines(pieces, lines[l..], parse) == ScanLines(pieces0, lines, parse);
    }
    toolCalls := false;
  }

  /** One chunk: the events completed by appending it, and the new unterminated rest. */
  lemma ChunkStep(buffer: string, chunks: seq<string>, k: nat)
    requires k < |chunks|
    ensures var parts := Split(buffer + chunks[k], EventSeparator);
      && CompleteEvents(buffer + Concat(chunks[k..])) == Init(parts) + CompleteEvents(Last(parts) + Concat(chunks[k + 1..]))
      && !Contains(Last(parts), EventSeparator)
  {
    var later := Concat(chunks[k + 1..]);
    var b := buffer + chunks[k];
    ConcatCons(chunks, k);
    assert buffer + Concat(chunks[k..]) == b + later;
    var parts := Split(b, EventSeparator);
    SplitAppend(b, later, EventSeparator);
    SplitPiecesFree(b, EventSeparator);
    assert Last(parts) == parts[|parts| - 1];
    InitAppend(Init(parts), Split(Last(parts) + later, EventSeparator));
  }

  /** Reading an event from the front of the remaining ones. */
  lemma EventStep(pieces: seq<string>, events: seq<string>, p: nat, tail: seq<string>, parse: string -> Record)
    requires p < |events|
    ensures var s := ScanLines(pieces, Split(events[p], LineSeparator), parse);
      ScanEvents(pieces, events[p..] + tail, parse) == if s.aborted then s else ScanEvents(s.pieces, events[p + 1..] + tail, parse)
  {
    assert (events[p..] + tail)[1..] == events[p + 1..] + tail;
  }

  /** Reading a line from the front of the remaining ones. */
  lemma LineStep(pieces: seq<string>, lines: seq<string>, l: nat, parse: string -> Record)
    requires l < |lines|
    ensures ScanLines(pieces, lines[l..], parse) ==
      match ActionOf(lines[l], parse)
      case Skip => ScanLines(pieces, lines[l + 1..], parse)
      case EndOfEvent => Scan(pieces, false)
      case Piece(t) => ScanLines(pieces + [t], lines[l + 1..], parse)
      case ToolCallsSeen => Scan(pieces, true)
  {
    assert lines[l..][1..] == lines[l + 1..];
  }

  lemma DeltaNoticesSnoc(pieces: seq<string>, t: string)
    ensures DeltaNotices(pieces + [t]) == DeltaNotices(pieces) + [StreamDelta(t)]
  {
    assert (pieces + [t])[..|pieces|] == pieces;
  }

  lemma InitAppend<T>(xs: seq<T>, ys: seq<T>)
    requires |ys| >= 1
    ensures Init(xs + ys) == xs + Init(ys)
  {
  }

  // ---------------------------------------------------------------------------
  // Properties of the reading

  /** `longer` is `shorter` followed by non-empty texts only. */
  predicate Extends(longer: seq<string>, shorter: seq<string>) {
    && |shorter| <= |longer|
    && longer[..|shorter|] == shorter
    && forall k :: |shorter| <= k < |longer| ==> longer[k] != []
  }

  lemma ExtendsTrans(a: seq<string>, b: seq<string>, c: seq<string>)
    requires Extends(a, b) && Extends(b, c)
    ensures Extends(a, c)
  {
    assert a[..|c|] == a[..|b|][..|c|];
  }

  /** Reading lines only ever appends non-empty texts to what was gathered. */
  lemma {:induction false} ScanLinesExtends(pieces: seq<string>, lines: seq<string>, parse: string -> Record)
    ensures Extends(ScanLines(pieces, lines, parse).pieces, pieces)
    decreases |lines|
  {
    if lines != [] {
      match ActionOf(lines[0], parse)
      case Skip =>
        ScanLinesExtends(pieces, lines[1..], parse);
      case EndOfEvent =>
      case Piece(t) =>
        ScanLinesExtends(pieces + [t], lines[1..], parse);
        assert (pieces + [t])[..|pieces|] == pieces;
        ExtendsTrans(ScanLines(pieces, lines, parse).pieces, pieces + [t], pieces);
      case ToolCallsSeen =>
    }
  }

  /** Reading events only ever appends non-empty texts to what was gathered. */
  lemma {:induction false} ScanEventsExtends(pieces: seq<string>, events: seq<string>, parse: string -> Record)
    ensures Extends(ScanEvents(pieces, events, parse).pieces, pieces)
    decreases |events|
  {
    if events != [] {
      var s := ScanLines(pieces, Split(events[0], LineSeparator), parse);
      ScanLinesExtends(pieces, Split(events[0], LineSeparator), parse);
      if !s.aborted {
        ScanEventsExtends(s.pieces, events[1..], parse);
        ExtendsTrans(ScanEvents(pieces, events, parse).pieces, s.pieces, pieces);
      }
    }
  }

  /** Every text the reader announces is non-empty. */
  lemma PiecesNonEmpty(stream: string, parse: string -> Record)
    ensures forall k :: 0 <= k < |ScanStream(stream, parse).pieces| ==> ScanStream(stream, parse).pieces[k] != []
  {
    ScanEventsExtends([], CompleteEvents(stream), parse);
  }

  /** Reading `events + more` is reading `events`, then, unless stopped, reading `more`. */
  lemma {:induction false} ScanEventsAppend(pieces: seq<string>, events: seq<string>, more: seq<string>, parse: string -> Record)
    ensures var r := ScanEvents(pieces, events, parse);
      ScanEvents(pieces, events + more, parse) == if r.aborted then r else ScanEvents(r.pieces, more, parse)
    decreases |events|
  {
    if events == [] {
      assert events + more == more;
    } else {
      assert (events + more)[0] == events[0];
      assert (events + more)[1..] == events[1..] + more;
      var s := ScanLines(pieces, Split(events[0], LineSeparator), parse);
      if !s.aborted {
        ScanEventsAppend(s.pieces, events[1..], more, parse);
      }
    }
  }

  /** The complete events of `s + t`: those of `s`, then those that `t` completes from the rest of `s`. */
  lemma CompleteEventsAppend(s: string, t: string)
    ensures CompleteEvents(s + t) == CompleteEvents(s) + CompleteEvents(Last(Split(s, EventSeparator)) + t)
  {
    var parts := Split(s, EventSeparator);
    SplitAppend(s, t, EventSeparator);
    InitAppend(Init(parts), Split(Last(parts) + t, EventSeparator));
  }

  /** Once the reader has stopped for tool calls, nothing that arrives later changes the outcome. */
  lemma AbortIsFinal(s: string, t: string, parse: string -> Record)
    requires ScanStream(s, parse).aborted
    ensures ScanStream(s + t, parse) == ScanStream(s, parse)
  {
    CompleteEventsAppend(s, t);
    ScanEventsAppend([], CompleteEvents(s), CompleteEvents(Last(Split(s, EventSeparator)) + t), parse);
  }

  /** More input never retracts an announced text: the texts read from `s` begin those read from `s + t`. */
  lemma PiecesGrow(s: string, t: string, parse: string -> Record)
    ensures Extends(ScanStream(s + t, parse).pieces, ScanStream(s, parse).pieces)
  {
    var more := CompleteEvents(Last(Split(s, EventSeparator)) + t);
    CompleteEventsAppend(s, t);
    ScanEventsAppend([], CompleteEvents(s), more, parse);
    var r := ScanStream(s, parse);
    if !r.aborted {
      ScanEventsExtends(r.pieces, more, parse);
    }
  }

  /** An event not yet closed by a blank line is not read, however much of it has arrived. */
  lemma UnterminatedEventIgnored(s: string, e: string, parse: string -> Record)
    requires Last(Split(s, EventSeparator)) == []
    requires !Contains(e, EventSeparator)
    ensures ScanStream(s + e, parse) == ScanStream(s, parse)
  {
    CompleteEventsAppend(s, e);
    assert Last(Split(s, EventSeparator)) + e == e;
    SplitWithout(e, EventSeparator);
    assert CompleteEvents(s) + CompleteEvents(e) == CompleteEvents(s);
  }

  /** Lines after a `[DONE]` line, or after a line with tool calls, are never read. */
  lemma {:induction false} LinesAfterStopIgnored(pieces: seq<string>, before: seq<string>, stop: string, after: seq<string>, parse: string -> Record)
    requires ActionOf(stop, parse).EndOfEvent? || ActionOf(stop, parse).ToolCallsSeen?
    ensures ScanLines(pieces, before + [stop] + after, parse) == ScanLines(pieces, before + [stop], parse)
    decreases |before|
  {
    if before == [] {
      assert ([stop] + after)[1..] == after;
    } else {
      assert (before + [stop] + after)[0] == before[0] && (before + [stop])[0] == before[0];
      assert (before + [stop] + after)[1..] == before[1..] + [stop] + after;
      assert (before + [stop])[1..] == before[1..] + [stop];
      match ActionOf(before[0], parse)
      case Skip =>
        LinesAfterStopIgnored(pieces, before[1..], stop, after, parse);
      case EndOfEvent =>
      case Piece(t) =>
        LinesAfterStopIgnored(pieces + [t], before[1..], stop, after, parse);
      case ToolCallsSeen =>
    }
  }

  // ---------------------------------------------------------------------------
  // A stream of plain text deltas is read back exactly

  /** A payload the reader takes as it is: non-empty, on one line, with no white space at either end, and not `[DONE]`. */
  predicate PlainPayload(d: string) {
    && d != []
    && (forall k :: 0 <= k < |d| ==> d[k] != '\n')
    && !IsSpace(d[0]) && !IsSpace(d[|d| - 1])
    && d != DoneMarker
  }

  /** One event holding one data line. */
  function DataLine(d: string): string {
    DataPrefix + d
  }

  /** The stream a server sends for these payloads: each on a `data:` line of its own event. */
  function DataStream(payloads: seq<string>): (stream: string)
    ensures payloads == [] ==> stream == []
  {
    if payloads == [] then [] else DataLine(payloads[0]) + EventSeparator + DataStream(payloads[1..])
  }

  function DataLines(payloads: seq<string>): (lines: seq<string>)
    ensures |lines| == |payloads|
  {
    if payloads == [] then [] else [DataLine(payloads[0])] + DataLines(payloads[1..])
  }

  lemma DataLineFree(d: string)
    requires PlainPayload(d)
    ensures forall k :: 0 <= k < |DataLine(d)| ==> DataLine(d)[k] != '\n'
  {
  }

  lemma NoNewline(e: string, j: nat, tail: string)
    requires forall k :: 0 <= k < |e| ==> e[k] != '\n'
    requires j < |e|
    ensures !OccursAt(e + tail, EventSeparator, j)
    ensures !OccursAt(e, LineSeparator, j)
  {
    assert (e + tail)[j] == e[j];
  }

  /** The events of a data stream are its data lines, and nothing is left over. */
  lemma {:induction false} SplitDataStream(payloads: seq<string>)
    requires forall i :: 0 <= i < |payloads| ==> PlainPayload(payloads[i])
    ensures Split(DataStream(payloads), EventSeparator) == DataLines(payloads) + [[]]
  {
    if payloads == [] {
      assert !OccursAt([], EventSeparator, 0);
      assert IndexOf([], EventSeparator) == None;
    } else {
      SplitDataHead(payloads[0], DataStream(payloads[1..]));
      SplitDataStream(payloads[1..]);
    }
  }

  /** The first event of a stream that starts with a plain data line is that line. */
  lemma SplitDataHead(d: string, rest: string)
    requires PlainPayload(d)
    ensures Split(DataLine(d) + EventSeparator + rest, EventSeparator) == [DataLine(d)] + Split(rest, EventSeparator)
  {
    var e := DataLine(d);
    var x := e + EventSeparator + rest;
    DataLineFree(d);
    assert x == e + (EventSeparator + rest);
    forall j: nat | j < |e|
      ensures !OccursAt(x, EventSeparator, j)
    {
      NoNewline(e, j, EventSeparator + rest);
    }
    assert x[|e|..|e| + 2] == EventSeparator;
    IndexOfAt(x, EventSeparator, |e|);
    SplitStep(x, EventSeparator);
    assert x[..|e|] == e;
    assert x[|e| + 2..] == rest;
  }

  /** A data line of a plain payload is read as that payload's text. */
  lemma DataLineAction(d: string, t: string, parse: string -> Record)
    requires PlainPayload(d) && t != []
    requires parse(d) == WithDelta(Delta(false, Some(t)))
    ensures ActionOf(DataLine(d), parse) == Piece(t)
  {
    var e := DataLine(d);
    TrimNoop(e);
    assert e[|DataPrefix|..] == d;
    TrimNoop(d);
  }

  /** The event of a plain data line contributes exactly its text. */
  lemma ScanDataLine(pieces: seq<string>, d: string, t: string, rest: seq<string>, parse: string -> Record)
    requires PlainPayload(d) && t != []
    requires parse(d) == WithDelta(Delta(false, Some(t)))
    ensures ScanEvents(pieces, [DataLine(d)] + rest, parse) == ScanEvents(pieces + [t], rest, parse)
  {
    var e := DataLine(d);
    DataLineFree(d);
    forall j: nat | j <= |e|
      ensures !OccursAt(e, LineSeparator, j)
    {
      if j < |e| {
        NoNewline(e, j, []);
      }
    }
    SplitWithout(e, LineSeparator);
    DataLineAction(d, t, parse);
    assert ScanLines(pieces, [e], parse) == Scan(pieces + [t], false) by {
      assert [e][1..] == [];
    }
    assert ([e] + rest)[1..] == rest;
  }

  /** Each payload is plain and parses to a delta carrying the matching non-empty text and no tool calls. */
  predicate Carries(payloads: seq<string>, texts: seq<string>, parse: string -> Record) {
    && |payloads| == |texts|
    && (forall i :: 0 <= i < |payloads| ==> PlainPayload(payloads[i]) && texts[i] != [])
    && (forall i :: 0 <= i < |payloads| ==> parse(payloads[i]) == WithDelta(Delta(false, Some(texts[i]))))
  }

  lemma CarriesTail(payloads: seq<string>, texts: seq<string>, parse: string -> Record)
    requires Carries(payloads, texts, parse) && payloads != []
    ensures Carries(payloads[1..], texts[1..], parse)
  {
    forall i | 0 <= i < |payloads| - 1
      ensures PlainPayload(payloads[1..][i]) && texts[1..][i] != []
      ensures parse(payloads[1..][i]) == WithDelta(Delta(false, Some(texts[1..][i])))
    {
      assert payloads[1..][i] == payloads[i + 1] && texts[1..][i] == texts[i + 1];
    }
  }

  lemma {:induction false} ScanDataLines(pieces: seq<string>, payloads: seq<string>, texts: seq<string>, parse: string -> Record)
    requires Carries(payloads, texts, parse)
    ensures ScanEvents(pieces, DataLines(payloads), parse) == Scan(pieces + texts, false)
    decreases |payloads|
  {
    if payloads == [] {
      assert pieces + texts == pieces;
    } else {
      var d, t := payloads[0], texts[0];
      assert PlainPayload(d) && t != [] && parse(d) == WithDelta(Delta(false, Some(t)));
      assert DataLines(payloads) == [DataLine(d)] + DataLines(payloads[1..]);
      ScanDataLine(pieces, d, t, DataLines(payloads[1..]), parse);
      CarriesTail(payloads, texts, parse);
      ScanDataLines(pieces + [t], payloads[1..], texts[1..], parse);
      AppendHead(pieces, texts);
    }
  }

  lemma AppendHead(pieces: seq<string>, texts: seq<string>)
    requires texts != []
    ensures pieces + [texts[0]] + texts[1..] == pieces + texts
  {
    assert texts == [texts[0]] + texts[1..];
  }

  /**
   * What the server streams as plain text deltas is what the reader gathers:
   * the texts, in order, with no abort.
   */
  lemma DataStreamRoundTrip(payloads: seq<string>, texts: seq<string>, parse: string -> Record)
    requires Carries(payloads, texts, parse)
    ensures ScanStream(DataStream(payloads), parse) == Scan(texts, false)
    ensures ResultOf(ScanStream(DataStream(payloads), parse)) == Streamed(Concat(texts))
  {
    SplitDataStream(payloads);
    assert CompleteEvents(DataStream(payloads)) == DataLines(payloads);
    ScanDataLines([], payloads, texts, parse);
    assert [] + texts == texts;
  }
}
