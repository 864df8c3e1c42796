/** Event-stream blocks: the parsers of the two front ends and the writer of the log
    server, and what survives the trip from one to the other. */
module SseCodec {
  import opened Text
  import opened Sse

  // ----------------------------------------------------------------- block parsers

  datatype Event = Event(name: string, data: string)

  /** Line folding state: the event name so far and the data lines so far. */
  datatype Fields = Fields(name: string, data: seq<string>)

  /** One line as useChat.ts reads it. */
  function TsLine(f: Fields, line: string): Fields {
    if StartsWith(line, "event:") then
      var name := Trim(line[6..], JavaScript);
      f.(name := if name == "" then "message" else name)
    else if StartsWith(line, "data:") then
      f.(data := f.data + [TrimStart(line[5..], JavaScript)])
    else f
  }

  function TsLines(f: Fields, lines: seq<string>): Fields
    decreases |lines|
  {
    if lines == [] then f else TsLines(TsLine(f, lines[0]), lines[1..])
  }

  function TsParse(block: string): Event {
    var f := TsLines(Fields("message", []), Split(block, '\n'));
    Event(f.name, Join(f.data, "\n"))
  }

  /** One line as app.js reads it: at most one leading space is dropped from data. */
  function AppLine(f: Fields, line: string): Fields {
    if line == "" || StartsWith(line, ":") then f
    else if StartsWith(line, "event:") then f.(name := Trim(line[6..], JavaScript))
    else if StartsWith(line, "data:") then
      var value := line[5..];
      f.(data := f.data + [if value != "" && JsSpace(value[0]) then value[1..] else value])
    else f
  }

  function AppLines(f: Fields, lines: seq<string>): Fields
    decreases |lines|
  {
    if lines == [] then f else AppLines(AppLine(f, lines[0]), lines[1..])
  }

  function WithoutCR(s: string): string {
    if s == "" then "" else (if s[0] == '\r' then "" else [s[0]]) + WithoutCR(s[1..])
  }

  function AppParse(block: string): Event {
    var f := AppLines(Fields("", []), Split(WithoutCR(block), '\n'));
    Event(if f.name == "" then "message" else f.name, Join(f.data, "\n"))
  }

  /** useChat.ts leaves the loop at `done` and throws at `error`. */
  predicate TsTerminal(e: Event) {
    e.name == "done" || e.name == "error"
  }

  predicate TsStops(block: string) {
    TsTerminal(TsParse(block))
  }

  /** app.js skips blank blocks and asks `applySseEvent` about the others. */
  predicate Blank(block: string) {
    Trim(block, JavaScript) == ""
  }

  predicate Terminal(e: Event) {
    && e.name != "connected" && e.name != "meta" && e.name != "thought" && e.name != "reasoning" && e.name != "message"
    && (e.name == "error" || e.name == "done" || e.data == "[DONE]")
  }

  predicate AppStops(block: string) {
    !Blank(block) && Terminal(AppParse(block))
  }

  function Delivered(pieces: seq<Piece>): seq<Event> {
    if pieces == [] then []
    else (if Blank(pieces[0].block) then [] else [AppParse(pieces[0].block)]) + Delivered(pieces[1..])
  }

  /** At the end of the stream app.js handles what is left in the buffer as a block. */
  function AppFlush(rest: string): seq<Event> {
    if Blank(rest) then [] else [AppParse(rest)]
  }

  /** All that app.js handles of a text: its blocks up to the one that stops it, or all of
      them and an unfinished last one. */
  function AppHandled(d: Drained): seq<Event> {
    Delivered(d.pieces) + if d.stopped then [] else AppFlush(d.rest)
  }

  // -------------------------------------------------------------------- the writer

  /** What Python's `splitlines` takes for a line boundary. */
  predicate LineBreak(c: char) {
    || '\n' <= c <= '\r'  // LF, VT, FF, CR
    || '\U{001C}' <= c <= '\U{001E}'
    || c == '\U{0085}' || c == '\U{2028}' || c == '\U{2029}'
  }

  function BreakAt(s: string): (i: nat)
    ensures i <= |s|
    ensures i < |s| ==> LineBreak(s[i])
    ensures forall k | 0 <= k < i :: !LineBreak(s[k])
  {
    if s == "" || LineBreak(s[0]) then 0 else 1 + BreakAt(s[1..])
  }

  /** Where the line after the boundary at `i` starts; a CR LF pair is one boundary. */
  function AfterBreak(s: string, i: nat): (next: nat)
    requires i < |s|
    ensures i < next <= |s|
  {
    if s[i] == '\r' && i + 1 < |s| && s[i + 1] == '\n' then i + 2 else i + 1
  }

  function SplitLines(s: string): seq<string>
    decreases |s|
  {
    if s == "" then []
    else
      var i := BreakAt(s);
      if i == |s| then [s] else [s[..i]] + SplitLines(s[AfterBreak(s, i)..])
  }

  /** `str(data).splitlines() or [""]` */
  function DataLines(data: string): (lines: seq<string>)
    ensures lines != []
  {
    if SplitLines(data) == [] then [""] else SplitLines(data)
  }

  function Prefixed(lines: seq<string>): seq<string> {
    if lines == [] then [] else ["data: " + lines[0]] + Prefixed(lines[1..])
  }

  function Terminated(lines: seq<string>): string {
    if lines == [] then "" else lines[0] + "\n" + Terminated(lines[1..])
  }

  /** The text `write_event` sends for one event. */
  function Written(e: Event): string {
    "event: " + e.name + "\n" + Terminated(Prefixed(DataLines(e.data))) + "\n"
  }

  function WrittenAll(events: seq<Event>): string {
    if events == [] then "" else Written(events[0]) + WrittenAll(events[1..])
  }

  // ------------------------------------------------------ data through splitlines

  /** Data the line-by-line format can carry. */
  predicate CleanData(data: string) {
    && (forall i | 0 <= i < |data| :: LineBreak(data[i]) ==> data[i] == '\n')
    && (data == "" || data[|data| - 1] != '\n')
  }

  ghost predicate BreakFree(lines: seq<string>) {
    lines != [] ==> (forall c | c in lines[0] :: !LineBreak(c)) && BreakFree(lines[1..])
  }

  lemma {:induction false} SplitLinesBreakFree(s: string)
    ensures BreakFree(SplitLines(s))
    decreases |s|
  {
    if s != "" {
      var i := BreakAt(s);
      if i == |s| {
        assert [s][1..] == [];
      } else {
        var next := AfterBreak(s, i);
        SplitLinesBreakFree(s[next..]);
        assert ([s[..i]] + SplitLines(s[next..]))[1..] == SplitLines(s[next..]);
      }
    }
  }

  lemma {:induction false} JoinedBreaks(lines: seq<string>)
    requires BreakFree(lines)
    ensures forall c | c in Join(lines, "\n") && LineBreak(c) :: c == '\n'
  {
    if |lines| > 1 {
      JoinedBreaks(lines[1..]);
    }
  }

  lemma LastOfTail(s: string, k: nat)
    requires k < |s|
    ensures s[k..] != "" && s[k..][|s[k..]| - 1] == s[|s| - 1]
  {
  }

  /** Joined lines against the text they are to fit into: not longer, and shorter if that ends in a boundary. */
  predicate Fits(joined: string, s: string) {
    |joined| <= |s| && (s != "" && LineBreak(s[|s| - 1]) ==> |joined| < |s|)
  }

  lemma LineFits(s: string, i: nat, next: nat, lines: seq<string>)
    requires i < next <= |s| && Fits(Join(lines, "\n"), s[next..]) && (next == |s| ==> lines == [])
    ensures Fits(Join([s[..i]] + lines, "\n"), s)
  {
    JoinCons(s[..i], lines, "\n");
    if next < |s| {
      LastOfTail(s, next);
    }
  }

  lemma UnbrokenFits(s: string)
    requires BreakAt(s) == |s|
    ensures Fits(Join([s], "\n"), s)
  {
  }

  /** Splitting and joining never lengthens, and loses a trailing line boundary. */
  lemma {:induction false} JoinedLength(s: string)
    ensures Fits(Join(SplitLines(s), "\n"), s)
    decreases |s|
  {
    var i := BreakAt(s);
    if i < |s| {
      var next := AfterBreak(s, i);
      JoinedLength(s[next..]);
      LineFits(s, i, next, SplitLines(s[next..]));
    } else if s != "" {
      UnbrokenFits(s);
    }
  }

  lemma CleanSuffix(s: string, k: nat)
    requires CleanData(s) && k < |s|
    ensures CleanData(s[k..])
  {
    assert forall i | 0 <= i < |s[k..]| :: s[k..][i] == s[k + i];
  }

  lemma {:induction false} CleanDataRejoins(s: string)
    requires CleanData(s)
    ensures Join(SplitLines(s), "\n") == s
    decreases |s|
  {
    var i := BreakAt(s);
    if s != "" && i < |s| {
      assert s[i] == '\n' && i + 1 < |s|;
      CleanSuffix(s, i + 1);
      CutAt(s, i);
      CleanDataRejoins(s[i + 1..]);
      JoinCons(s[..i], SplitLines(s[i + 1..]), "\n");
    }
  }

  /** `splitlines` followed by a newline join gives the data back exactly when its only
      line boundaries are newlines and it does not end in one. */
  lemma DataSurvivesExactly(data: string)
    ensures Join(DataLines(data), "\n") == data <==> CleanData(data)
  {
    if CleanData(data) {
      CleanDataRejoins(data);
    }
    if Join(DataLines(data), "\n") == data {
      SplitLinesBreakFree(data);
      JoinedBreaks(SplitLines(data));
      JoinedLength(data);
    }
  }

  // ------------------------------------------------------------ one written block

  predicate NameOk(name: string) {
    && name != "" && Trimmed(name, JavaScript)
    && forall c | c in name :: c != '\n' && c != '\r'
  }

  function BlockLines(e: Event): seq<string> {
    ["event: " + e.name] + Prefixed(DataLines(e.data))
  }

  function BlockOf(e: Event): string {
    Join(BlockLines(e), "\n")
  }

  /** Lines that cannot contain or complete a boundary. */
  ghost predicate PlainLines(lines: seq<string>) {
    lines != [] ==>
      && lines[0] != "" && (forall c | c in lines[0] :: c != '\n' && c != '\r')
      && PlainLines(lines[1..])
  }

  /** No two newlines in a row, none at the end, no carriage return. */
  ghost predicate Tight(s: string) {
    && s != "" && s[|s| - 1] != '\n'
    && (forall i | 0 <= i < |s| :: s[i] != '\r')
    && (forall i, j | 0 <= i && j == i + 1 < |s| && s[i] == '\n' :: s[j] != '\n')
  }

  lemma {:induction false} JoinedIsTight(lines: seq<string>)
    requires lines != [] && PlainLines(lines)
    ensures Tight(Join(lines, "\n")) && Join(lines, "\n")[0] == lines[0][0]
  {
    if |lines| > 1 {
      JoinedIsTight(lines[1..]);
      assert lines[1..][0][0] in lines[1..][0];
      TightAppend(lines[0], Join(lines[1..], "\n"));
    } else {
      assert forall i | 0 <= i < |lines[0]| :: lines[0][i] in lines[0];
    }
  }

  lemma TightAppend(line: string, rest: string)
    requires line != "" && (forall c | c in line :: c != '\n' && c != '\r')
    requires Tight(rest) && rest[0] != '\n'
    ensures Tight(line + "\n" + rest)
  {
    var s := line + "\n" + rest;
    assert forall i | 0 <= i < |line| :: s[i] == line[i] && line[i] in line;
    assert s[|line|] == '\n';
    assert forall i | |line| < i < |s| :: s[i] == rest[i - |line| - 1];
    assert s[|line| + 1] == rest[0];
  }

  lemma {:induction false} PrefixedPlain(lines: seq<string>)
    requires BreakFree(lines)
    ensures PlainLines(Prefixed(lines))
  {
    if lines != [] {
      PrefixedPlain(lines[1..]);
      assert Prefixed(lines)[1..] == Prefixed(lines[1..]);
      assert forall c | c in "data: " + lines[0] :: c in "data: " || c in lines[0];
    }
  }

  lemma BlockLinesPlain(e: Event)
    requires NameOk(e.name)
    ensures PlainLines(BlockLines(e)) && BlockLines(e) != []
  {
    SplitLinesBreakFree(e.data);
    assert [""][1..] == [];
    assert BreakFree(DataLines(e.data));
    PrefixedPlain(DataLines(e.data));
    assert BlockLines(e)[1..] == Prefixed(DataLines(e.data));
    assert forall c | c in "event: " + e.name :: c in "event: " || c in e.name;
  }

  lemma {:induction false} TerminatedIsJoined(lines: seq<string>)
    requires lines != []
    ensures Terminated(lines) == Join(lines, "\n") + "\n"
  {
    if |lines| > 1 {
      TerminatedIsJoined(lines[1..]);
    } else {
      assert lines[1..] == [];
    }
  }

  lemma WrittenIsBlock(e: Event)
    ensures Written(e) == BlockOf(e) + "\n\n"
  {
    var data := Prefixed(DataLines(e.data));
    TerminatedIsJoined(data);
    JoinCons("event: " + e.name, data, "\n");
    var head, body := "event: " + e.name, Join(data, "\n");
    assert head + "\n" + (body + "\n") + "\n" == (head + "\n" + body) + "\n\n";
  }

  lemma TightBlockPulled(block: string)
    requires Tight(block)
    ensures PullBlock(block + "\n\n") == Block(block, "\n\n", "")
  {
    var s := block + "\n\n";
    assert forall i | 0 <= i < |block| :: s[i] == block[i];
    forall k | 0 <= k < |block| ensures MatchLen(s, k) == 0 {
      if block[k] == '\n' {
        assert s[k + 1] == block[k + 1];
      }
    }
    assert s[|block|] == '\n' && s[|block| + 1] == '\n';
    PullWhole(s, |block|);
    ConcatParts(block, "\n\n");
  }

  lemma {:induction false} NoCRToDrop(s: string)
    requires forall i | 0 <= i < |s| :: s[i] != '\r'
    ensures WithoutCR(s) == s
  {
    if s != "" {
      NoCRToDrop(s[1..]);
      HeadTail(s);
    }
  }

  lemma {:induction false} PlainSplit(lines: seq<string>)
    requires lines != [] && PlainLines(lines)
    ensures Split(Join(lines, "\n"), '\n') == lines
  {
    PlainEach(lines);
    SplitJoin(lines, '\n');
  }

  lemma {:induction false} PlainEach(lines: seq<string>)
    requires PlainLines(lines)
    ensures forall k | 0 <= k < |lines| :: '\n' !in lines[k]
  {
    if lines != [] {
      PlainEach(lines[1..]);
      forall k | 0 <= k < |lines| ensures '\n' !in lines[k] {
        if k > 0 {
          assert lines[k] == lines[1..][k - 1];
        }
      }
    }
  }

  lemma DataLineRead(f: Fields, line: string)
    ensures AppLine(f, "data: " + line) == f.(data := f.data + [line])
    ensures TsLine(f, "data: " + line) == f.(data := f.data + [TrimStart(line, JavaScript)])
  {
    var s := "data: " + line;
    assert s[..5] == "data:" && s[0] == 'd' && s[5..] == " " + line;
    assert (" " + line)[1..] == line;
  }

  lemma {:induction false} AppReadsData(f: Fields, lines: seq<string>)
    ensures AppLines(f, Prefixed(lines)) == f.(data := f.data + lines)
    decreases |lines|
  {
    if lines == [] {
      assert f.data + [] == f.data;
    } else {
      assert Prefixed(lines)[1..] == Prefixed(lines[1..]);
      DataLineRead(f, lines[0]);
      AppReadsData(f.(data := f.data + [lines[0]]), lines[1..]);
      Associate(f.data, [lines[0]], lines[1..]);
      HeadTail(lines);
    }
  }

  function Stripped(lines: seq<string>): seq<string> {
    if lines == [] then [] else [TrimStart(lines[0], JavaScript)] + Stripped(lines[1..])
  }

  lemma {:induction false} TsReadsData(f: Fields, lines: seq<string>)
    ensures TsLines(f, Prefixed(lines)) == f.(data := f.data + Stripped(lines))
    decreases |lines|
  {
    if lines == [] {
      assert f.data + [] == f.data;
    } else {
      assert Prefixed(lines)[1..] == Prefixed(lines[1..]);
      DataLineRead(f, lines[0]);
      TsReadsData(f.(data := f.data + [TrimStart(lines[0], JavaScript)]), lines[1..]);
      Associate(f.data, [TrimStart(lines[0], JavaScript)], Stripped(lines[1..]));
    }
  }

  lemma EventLineRead(name: string)
    requires NameOk(name)
    ensures AppLine(Fields("", []), "event: " + name) == Fields(name, [])
    ensures TsLine(Fields("message", []), "event: " + name) == Fields(name, [])
  {
    var line := "event: " + name;
    assert line[..6] == "event:" && line[6..] == " " + name && line[0] == 'e';
    assert (" " + name)[1..] == name;
    TrimFixes(name, JavaScript);
  }

  lemma BlockSplits(e: Event)
    requires NameOk(e.name)
    ensures WithoutCR(BlockOf(e)) == BlockOf(e)
    ensures Split(BlockOf(e), '\n') == BlockLines(e)
  {
    BlockLinesPlain(e);
    JoinedIsTight(BlockLines(e));
    NoCRToDrop(BlockOf(e));
    PlainSplit(BlockLines(e));
  }

  lemma BlockIsReadByApp(e: Event)
    requires NameOk(e.name)
    ensures AppParse(BlockOf(e)) == Event(e.name, Join(DataLines(e.data), "\n"))
  {
    BlockSplits(e);
    EventLineRead(e.name);
    assert BlockLines(e)[1..] == Prefixed(DataLines(e.data));
    AppReadsData(Fields(e.name, []), DataLines(e.data));
    assert [] + DataLines(e.data) == DataLines(e.data);
  }

  lemma BlockIsReadByTs(e: Event)
    requires NameOk(e.name)
    ensures TsParse(BlockOf(e)) == Event(e.name, Join(Stripped(DataLines(e.data)), "\n"))
  {
    BlockSplits(e);
    EventLineRead(e.name);
    assert BlockLines(e)[1..] == Prefixed(DataLines(e.data));
    TsReadsData(Fields(e.name, []), DataLines(e.data));
    assert [] + Stripped(DataLines(e.data)) == Stripped(DataLines(e.data));
  }

  /** app.js reads back what `write_event` wrote exactly when the data is clean. */
  lemma AppRoundTripExactly(e: Event)
    requires NameOk(e.name)
    ensures AppParse(BlockOf(e)) == e <==> CleanData(e.data)
  {
    BlockIsReadByApp(e);
    DataSurvivesExactly(e.data);
  }

  predicate NoLeadingSpace(lines: seq<string>) {
    lines != [] ==> (lines[0] == "" || !JsSpace(lines[0][0])) && NoLeadingSpace(lines[1..])
  }

  lemma {:induction false} StrippedJoin(lines: seq<string>)
    ensures |Join(Stripped(lines), "\n")| <= |Join(lines, "\n")|
    ensures |Join(Stripped(lines), "\n")| == |Join(lines, "\n")| <==> NoLeadingSpace(lines)
    ensures NoLeadingSpace(lines) ==> Stripped(lines) == lines
  {
    if lines != [] {
      StrippedJoin(lines[1..]);
      JoinCons(TrimStart(lines[0], JavaScript), Stripped(lines[1..]), "\n");
      HeadTail(lines);
    }
  }

  lemma {:induction false} StrippedBreakFree(lines: seq<string>)
    requires BreakFree(lines)
    ensures BreakFree(Stripped(lines))
  {
    if lines != [] {
      StrippedBreakFree(lines[1..]);
      TrimStartPart(lines[0], JavaScript);
      assert Stripped(lines)[1..] == Stripped(lines[1..]);
    }
  }

  /** useChat.ts strips all leading white space of a data line, so for it no line of the
      data may begin with any. */
  lemma TsRoundTripExactly(e: Event)
    requires NameOk(e.name)
    ensures TsParse(BlockOf(e)) == e <==> CleanData(e.data) && NoLeadingSpace(DataLines(e.data))
  {
    BlockIsReadByTs(e);
    DataSurvivesExactly(e.data);
    StrippedJoin(DataLines(e.data));
    if Join(Stripped(DataLines(e.data)), "\n") == e.data {
      SplitLinesBreakFree(e.data);
      StrippedBreakFree(SplitLines(e.data));
      JoinedBreaks(Stripped(SplitLines(e.data)));
      JoinedLength(e.data);
    }
  }

  // ------------------------------------------------------------- whole event lists

  predicate Sendable(e: Event) {
    NameOk(e.name) && CleanData(e.data)
  }

  ghost predicate AllSendable(events: seq<Event>) {
    events != [] ==> Sendable(events[0]) && AllSendable(events[1..])
  }

  /** The events a reader gets to see: up to and including the first terminal one. */
  function UpToTerminal(events: seq<Event>): seq<Event> {
    if events == [] then []
    else [events[0]] + (if Terminal(events[0]) then [] else UpToTerminal(events[1..]))
  }

  lemma WrittenEventPulled(e: Event, tail: string)
    requires NameOk(e.name)
    ensures PullBlock(Written(e) + tail) == Block(BlockOf(e), "\n\n", tail)
  {
    BlockLinesPlain(e);
    JoinedIsTight(BlockLines(e));
    TightBlockPulled(BlockOf(e));
    WrittenIsBlock(e);
    PulledFirst(Piece(BlockOf(e), "\n\n"), tail);
  }

  lemma BlockNotBlank(e: Event)
    requires NameOk(e.name)
    ensures !Blank(BlockOf(e))
  {
    BlockLinesPlain(e);
    JoinedIsTight(BlockLines(e));
    assert BlockOf(e)[0] == 'e';
  }

  lemma DeliveredCons(piece: Piece, later: seq<Piece>)
    requires !Blank(piece.block)
    ensures Delivered([piece] + later) == [AppParse(piece.block)] + Delivered(later)
  {
    assert ([piece] + later)[1..] == later;
  }

  lemma DrainStep(text: string, block: string, sep: string, rest: string, stop: string -> bool)
    requires PullBlock(text) == Block(block, sep, rest)
    ensures Drain(text, stop).pieces
      == [Piece(block, sep)] + (if stop(block) then [] else Drain(rest, stop).pieces)
    ensures Drain(text, stop).stopped <==> stop(block) || Drain(rest, stop).stopped
    ensures !stop(block) ==> Drain(text, stop).rest == Drain(rest, stop).rest
  {
  }

  lemma {:induction false} DrainWritten(events: seq<Event>)
    requires AllSendable(events)
    ensures var d := Drain(WrittenAll(events), AppStops);
      Delivered(d.pieces) == UpToTerminal(events) && (!d.stopped ==> d.rest == "")
  {
    if events != [] {
      var e, tail := events[0], WrittenAll(events[1..]);
      WrittenEventPulled(e, tail);
      AppRoundTripExactly(e);
      BlockNotBlank(e);
      DrainStep(WrittenAll(events), BlockOf(e), "\n\n", tail, AppStops);
      DrainWritten(events[1..]);
      DeliveredCons(Piece(BlockOf(e), "\n\n"), if Terminal(e) then [] else Drain(tail, AppStops).pieces);
    }
  }

  /** Print, cut anywhere, drain, parse: the reader gets the very events the writer
      sent, up to and including the first one that ends the stream, and no other at its end. */
  lemma PrintChunkParse(events: seq<Event>, chunks: seq<string>)
    requires AllSendable(events)
    requires Concat(chunks) == WrittenAll(events)
    ensures AppHandled(Receive("", chunks, AppStops)) == UpToTerminal(events)
  {
    assert "" + Concat(chunks) == Concat(chunks);
    ChunksDoNotMatter("", chunks, AppStops);
    DrainWritten(events);
    NothingToFlush(Receive("", chunks, AppStops), UpToTerminal(events));
  }

  lemma NothingToFlush(d: Drained, events: seq<Event>)
    requires Delivered(d.pieces) == events && (!d.stopped ==> d.rest == "")
    ensures AppHandled(d) == events
  {
    assert events + [] == events;
  }
}
