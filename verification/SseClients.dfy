/** The loops of useChat.ts, app.js and the log server, as written: block parsers that
    walk over lines, receive loops that grow and cut a buffer, and the event writer. */
module SseClients {
  import opened Text
  import opened Sse
  import opened SseCodec

  /** `parseSSEBlock` of useChat.ts. */
  method ParseSSEBlock(block: string) returns (e: Event)
    ensures e == TsParse(block)
  {
    var event, dataLines := "message", [];
    var lines := Split(block, '\n');
    for i := 0 to |lines|
      invariant TsLines(Fields("message", []), lines) == TsLines(Fields(event, dataLines), lines[i..])
    {
      var line := lines[i];
      assert lines[i..][0] == line && lines[i..][1..] == lines[i + 1..];
      if StartsWith(line, "event:") {
        var name := Trim(line[6..], JavaScript);
        event := if name == "" then "message" else name;
        continue;
      }
      if StartsWith(line, "data:") {
        dataLines := dataLines + [TrimStart(line[5..], JavaScript)];
      }
    }
    e := Event(event, Join(dataLines, "\n"));
  }

  /** `parseSseBlock` of app.js. */
  method ParseSseBlock(rawBlock: string) returns (e: Event)
    ensures e == AppParse(rawBlock)
  {
    var lines := Split(WithoutCR(rawBlock), '\n');
    var eventName, dataLines := "", [];
    for i := 0 to |lines|
      invariant AppLines(Fields("", []), lines) == AppLines(Fields(eventName, dataLines), lines[i..])
    {
      var line := lines[i];
      assert lines[i..][0] == line && lines[i..][1..] == lines[i + 1..];
      if line == "" {
        continue;
      }
      if StartsWith(line, ":") {
        continue;
      }
      if StartsWith(line, "event:") {
        eventName := Trim(line[6..], JavaScript);
        continue;
      }
      if StartsWith(line, "data:") {
        var value := line[5..];
        if value != "" && JsSpace(value[0]) {
          value := value[1..];
        }
        dataLines := dataLines + [value];
      }
    }
    e := Event(if eventName == "" then "message" else eventName, Join(dataLines, "\n"));
  }

  /** What is still to come, `done` being handled and `text` unread, completes `whole`. */
  ghost predicate Continues(whole: Drained, done: seq<Piece>, text: string, stop: string -> bool) {
    whole == Drain(text, stop).(pieces := done + Drain(text, stop).pieces)
  }

  lemma StartContinues(text: string, stop: string -> bool)
    ensures Continues(Drain(text, stop), [], text, stop)
  {
    assert [] + Drain(text, stop).pieces == Drain(text, stop).pieces;
  }

  lemma ChunkArrives(buffer: string, chunks: seq<string>)
    requires chunks != []
    ensures buffer + Concat(chunks) == (buffer + chunks[0]) + Concat(chunks[1..])
  {
  }

  lemma PullContinues(whole: Drained, done: seq<Piece>, buffer: string, more: string, stop: string -> bool)
    requires PullBlock(buffer).Block? && Continues(whole, done, buffer + more, stop)
    ensures var p := PullBlock(buffer);
      var done' := done + [Piece(p.block, p.sep)];
      if stop(p.block) then whole.pieces == done' && whole.stopped
      else Continues(whole, done', p.rest + more, stop)
  {
    var p := PullBlock(buffer);
    PullStable(buffer, more);
    if !stop(p.block) {
      Associate(done, [Piece(p.block, p.sep)], Drain(p.rest + more, stop).pieces);
    }
  }

  lemma NothingLeft(whole: Drained, done: seq<Piece>, buffer: string, stop: string -> bool)
    requires PullBlock(buffer).NoBlock? && Continues(whole, done, buffer + "", stop)
    ensures whole == Drained(done, false, buffer)
  {
    assert buffer + "" == buffer;
    assert done + [] == done;
  }

  function TsEvents(pieces: seq<Piece>): seq<Event> {
    if pieces == [] then [] else [TsParse(pieces[0].block)] + TsEvents(pieces[1..])
  }

  predicate IsMessage(e: Event)
    ensures IsMessage(e) ==> !TsTerminal(e)
  {
    e.name == "message"
  }

  /** The answer text: the data of the `message` events, concatenated. */
  function Content(events: seq<Event>): string {
    if events == [] then ""
    else (if IsMessage(events[0]) then events[0].data else "") + Content(events[1..])
  }

  lemma {:induction false} TsEventsSnoc(pieces: seq<Piece>, piece: Piece)
    ensures TsEvents(pieces + [piece]) == TsEvents(pieces) + [TsParse(piece.block)]
  {
    if pieces == [] {
      assert [piece][1..] == [];
    } else {
      SnocTail(pieces, piece);
      TsEventsSnoc(pieces[1..], piece);
    }
  }

  lemma {:induction false} DeliveredSnoc(pieces: seq<Piece>, piece: Piece)
    ensures Delivered(pieces + [piece])
      == Delivered(pieces) + (if Blank(piece.block) then [] else [AppParse(piece.block)])
  {
    if pieces == [] {
      assert [piece][1..] == [];
    } else {
      SnocTail(pieces, piece);
      DeliveredSnoc(pieces[1..], piece);
      Associate(if Blank(pieces[0].block) then [] else [AppParse(pieces[0].block)], Delivered(pieces[1..]),
                if Blank(piece.block) then [] else [AppParse(piece.block)]);
    }
  }

  lemma {:induction false} ContentSnoc(events: seq<Event>, e: Event)
    ensures Content(events + [e]) == Content(events) + (if IsMessage(e) then e.data else "")
  {
    if events == [] {
      assert [e][1..] == [];
    } else {
      SnocTail(events, e);
      ContentSnoc(events[1..], e);
      Associate(if IsMessage(events[0]) then events[0].data else "", Content(events[1..]),
                if IsMessage(e) then e.data else "");
    }
  }

  /** The event of a buffer that still holds something when the loop is over. */
  function TsFlush(buffer: string): seq<Event> {
    if Trim(buffer, JavaScript) == "" then [] else [TsParse(buffer)]
  }

  predicate Finishes(flushed: seq<Event>) {
    flushed != [] && flushed[0].name == "done"
  }

  /** `send` throws at an `error` event. */
  predicate Failed(handled: seq<Event>) {
    handled != [] && handled[|handled| - 1].name == "error"
  }

  /** The receive loop of `send` in useChat.ts: the events handled, the answer text and
      whether one of them ended the stream are those of one pass over the concatenated chunks. */
  method ReceiveBlocks(chunks: seq<string>)
    returns (fullContent: string, handled: seq<Event>, streamDone: bool, buffer: string)
    ensures var whole := Drain(Concat(chunks), TsStops);
      && handled == TsEvents(whole.pieces) && fullContent == Content(handled)
      && streamDone == whole.stopped && (!streamDone ==> buffer == whole.rest)
  {
    buffer, fullContent, handled, streamDone := "", "", [], false;
    ghost var whole := Drain(Concat(chunks), TsStops);
    ghost var done: seq<Piece> := [];
    var i := 0;
    assert chunks[0..] == chunks && "" + Concat(chunks) == Concat(chunks);
    StartContinues("" + Concat(chunks), TsStops);
    while i < |chunks| && !streamDone
      invariant 0 <= i <= |chunks|
      invariant handled == TsEvents(done) && fullContent == Content(handled)
      invariant streamDone ==> whole.pieces == done && whole.stopped
      invariant !streamDone ==> PullBlock(buffer).NoBlock? && Continues(whole, done, buffer + Concat(chunks[i..]), TsStops)
      decreases |chunks| - i
    {
      ChunkArrives(buffer, chunks[i..]);
      assert chunks[i..][1..] == chunks[i + 1..];
      buffer, i := buffer + chunks[i], i + 1;
      var parsedBlock := PullBlock(buffer);
      while parsedBlock.Block?
        invariant handled == TsEvents(done) && fullContent == Content(handled) && !streamDone
        invariant parsedBlock == PullBlock(buffer) && Continues(whole, done, buffer + Concat(chunks[i..]), TsStops)
        decreases |buffer|
      {
        PullContinues(whole, done, buffer, Concat(chunks[i..]), TsStops);
        var block := parsedBlock.block;
        buffer := parsedBlock.rest;
        TsEventsSnoc(done, Piece(block, parsedBlock.sep));
        done := done + [Piece(block, parsedBlock.sep)];
        var e := ParseSSEBlock(block);
        ContentSnoc(handled, e);
        handled := handled + [e];
        if IsMessage(e) {
          fullContent := fullContent + e.data;
        } else if TsTerminal(e) {
          streamDone := true;
          break;
        }
        parsedBlock := PullBlock(buffer);
      }
    }
    if !streamDone {
      assert chunks[i..] == [];
      NothingLeft(whole, done, buffer, TsStops);
    }
  }

  /** `send` once the chunks are there: the loop and the flush after it.  Without an event that
      ends the stream the rest of the one pass is flushed, so that the answer text depends on
      the concatenated chunks alone. */
  method Send(chunks: seq<string>)
    returns (fullContent: string, handled: seq<Event>, streamDone: bool, buffer: string)
    ensures var whole := Drain(Concat(chunks), TsStops);
      && handled == TsEvents(whole.pieces) && (!whole.stopped ==> buffer == whole.rest)
      && fullContent == Content(handled) + (if Failed(handled) then "" else Content(TsFlush(buffer)))
      && streamDone == (!Failed(handled) && (whole.stopped || Finishes(TsFlush(buffer))))
  {
    fullContent, handled, streamDone, buffer := ReceiveBlocks(chunks);
    if Failed(handled) {
      assert fullContent + "" == fullContent;
      return fullContent, handled, false, buffer;
    }
    if Trim(buffer, JavaScript) == "" {
      assert fullContent + "" == fullContent;
    } else {
      var e := ParseSSEBlock(buffer);
      ContentSnoc([], e);
      if IsMessage(e) {
        fullContent := fullContent + e.data;
      } else if e.name == "done" {
        streamDone := true;
      }
      assert [] + [e] == [e] == TsFlush(buffer);
    }
  }

  /** The receive loop of `sendStreamMessage` in app.js; blank blocks are dropped on the way. */
  method ReceiveEvents(chunks: seq<string>)
    returns (handled: seq<Event>, shouldStop: bool, buffer: string)
    ensures var whole := Drain(Concat(chunks), AppStops);
      && handled == Delivered(whole.pieces)
      && shouldStop == whole.stopped && (!shouldStop ==> buffer == whole.rest)
  {
    buffer, handled, shouldStop := "", [], false;
    ghost var whole := Drain(Concat(chunks), AppStops);
    ghost var done: seq<Piece> := [];
    var i := 0;
    assert chunks[0..] == chunks && "" + Concat(chunks) == Concat(chunks);
    StartContinues("" + Concat(chunks), AppStops);
    while i < |chunks| && !shouldStop
      invariant 0 <= i <= |chunks|
      invariant handled == Delivered(done)
      invariant shouldStop ==> whole.pieces == done && whole.stopped
      invariant !shouldStop ==> PullBlock(buffer).NoBlock? && Continues(whole, done, buffer + Concat(chunks[i..]), AppStops)
      decreases |chunks| - i
    {
      ChunkArrives(buffer, chunks[i..]);
      assert chunks[i..][1..] == chunks[i + 1..];
      buffer, i := buffer + chunks[i], i + 1;
      while true
        invariant handled == Delivered(done) && !shouldStop
        invariant Continues(whole, done, buffer + Concat(chunks[i..]), AppStops)
        decreases |buffer|
      {
        var match0 := PullBlock(buffer);
        if match0.NoBlock? {
          break;
        }
        PullContinues(whole, done, buffer, Concat(chunks[i..]), AppStops);
        var block := match0.block;
        buffer := match0.rest;
        DeliveredSnoc(done, Piece(block, match0.sep));
        done := done + [Piece(block, match0.sep)];
        if Blank(block) {
          continue;
        }
        var parsed := ParseSseBlock(block);
        handled := handled + [parsed];
        shouldStop := Terminal(parsed);
        if shouldStop {
          break;
        }
      }
    }
    if !shouldStop {
      assert chunks[i..] == [];
      NothingLeft(whole, done, buffer, AppStops);
    }
  }

  /** `sendStreamMessage` once the chunks are there: when they run out before an event that
      stops, an unfinished last block is handled too. */
  method SendStreamMessage(chunks: seq<string>)
    returns (handled: seq<Event>, shouldStop: bool)
    ensures var whole := Drain(Concat(chunks), AppStops);
      && handled == AppHandled(whole)
      && shouldStop == (whole.stopped || AppStops(whole.rest))
  {
    var buffer;
    handled, shouldStop, buffer := ReceiveEvents(chunks);
    if shouldStop || Blank(buffer) {
      assert handled + [] == handled;
    } else {
      var parsed := ParseSseBlock(buffer);
      handled, shouldStop := handled + [parsed], Terminal(parsed);
    }
  }

  /** The handler's output stream. */
  class EventStream {
    var sent: string

    constructor ()
      ensures sent == ""
    {
      sent := "";
    }

    method WriteEvent(e: Event)
      modifies this
      ensures sent == old(sent) + Written(e)
    {
      sent := sent + ("event: " + e.name + "\n");
      var lines := DataLines(e.data);
      ghost var head := sent;
      for i := 0 to |lines|
        invariant sent + Terminated(Prefixed(lines[i..])) == head + Terminated(Prefixed(lines))
      {
        LineWritten(sent, lines[i..]);
        assert lines[i..][1..] == lines[i + 1..];
        sent := sent + ("data: " + lines[i] + "\n");
      }
      assert sent + "" == sent;
      assert sent == old(sent) + ("event: " + e.name + "\n") + Terminated(Prefixed(lines));
      sent := sent + "\n";
      assert sent == old(sent) + Written(e);
    }
  }

  lemma LineWritten(sent: string, lines: seq<string>)
    requires lines != []
    ensures sent + Terminated(Prefixed(lines))
      == sent + ("data: " + lines[0] + "\n") + Terminated(Prefixed(lines[1..]))
  {
    assert Prefixed(lines)[1..] == Prefixed(lines[1..]);
  }
}
