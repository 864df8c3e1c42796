/** How the front ends read single lines and when they stop, for streams that no writer of ours has written. */
module SseFields {
  import opened Text
  import opened Sse
  import opened SseCodec
  import opened SseClients

  // ---------------------------------------------------------------- lines

  /** app.js: a name is trimmed, a data line loses one leading white space, all else is ignored. */
  lemma AppReadsLine(f: Fields, value: string, line: string)
    ensures AppLine(f, "event:" + value) == Fields(Trim(value, JavaScript), f.data)
    ensures value == "" || !JsSpace(value[0]) ==> AppLine(f, "data:" + value) == Fields(f.name, f.data + [value])
    ensures value != "" && JsSpace(value[0]) ==> AppLine(f, "data:" + value) == Fields(f.name, f.data + [value[1..]])
    ensures !StartsWith(line, "event:") && !StartsWith(line, "data:") ==> AppLine(f, line) == f
  {
    assert ("event:" + value)[6..] == value && ("event:" + value)[0] == 'e';
    assert ("data:" + value)[5..] == value && ("data:" + value)[0] == 'd';
  }

  /** useChat.ts: a blank name stands for `message`, a data line loses all its leading white space. */
  lemma TsReadsLine(f: Fields, value: string, line: string)
    ensures TsLine(f, "event:" + value)
         == Fields(if Trim(value, JavaScript) == "" then "message" else Trim(value, JavaScript), f.data)
    ensures TsLine(f, "data:" + value) == Fields(f.name, f.data + [TrimStart(value, JavaScript)])
    ensures !StartsWith(line, "event:") && !StartsWith(line, "data:") ==> TsLine(f, line) == f
  {
    assert ("event:" + value)[6..] == value && ("event:" + value)[0] == 'e';
    assert ("data:" + value)[5..] == value && ("data:" + value)[0] == 'd';
  }

  /** The boundaries `splitlines` knows, by code point. */
  lemma LineBreakExactly(c: char)
    ensures LineBreak(c) <==> c as int in {10, 11, 12, 13, 28, 29, 30, 133, 8232, 8233}
  {
  }

  /** A carriage return and a line feed are one boundary, everything else is one each. */
  lemma CrLfIsOneBreak(s: string, i: nat)
    requires i < |s|
    ensures AfterBreak(s, i) - i == if i + 2 <= |s| && s[i..i + 2] == "\r\n" then 2 else 1
  {
  }

  // ---------------------------------------------------------------- the end of a stream

  /** What app.js stops at: an error or the end, or the marker `[DONE]` in an event it does not know. */
  lemma TerminalExactly(e: Event)
    ensures Terminal(e) <==>
            if e.name in {"error", "done"} then true
            else if e.name in {"connected", "meta", "thought", "reasoning", "message"} then false
            else e.data == "[DONE]"
  {
  }

  ghost predicate Runs(events: seq<Event>, last: Event -> bool, stopped: bool) {
    && (forall i | 0 <= i < |events| - 1 :: !last(events[i]))
    && (stopped <==> events != [] && last(events[|events| - 1]))
  }

  lemma RunsCons(e: Event, events: seq<Event>, last: Event -> bool, stopped: bool)
    requires Runs(events, last, stopped) && !last(e)
    ensures Runs([e] + events, last, stopped)
  {
  }

  predicate EndsTs(e: Event) {
    e.name == "done" || e.name == "error"
  }

  /** useChat.ts handles no event after one that is named `done` or `error`, and stops at nothing else. */
  lemma {:induction false} TsStopsExactly(text: string)
    ensures var d := Drain(text, TsStops);
            Runs(TsEvents(d.pieces), EndsTs, d.stopped)
    decreases |text|
  {
    var p := PullBlock(text);
    if p.Block? {
      var e := TsParse(p.block);
      TsStopsExactly(p.rest);
      var d := Drain(p.rest, TsStops);
      if TsStops(p.block) {
        assert [Piece(p.block, p.sep)][1..] == [];
        assert TsEvents([Piece(p.block, p.sep)]) == [e];
      } else {
        assert ([Piece(p.block, p.sep)] + d.pieces)[1..] == d.pieces;
        RunsCons(e, TsEvents(d.pieces), EndsTs, d.stopped);
      }
    }
  }

  /** app.js handles no event after one it stops at, and stops at nothing else. */
  lemma {:induction false} AppStopsExactly(text: string)
    ensures var d := Drain(text, AppStops);
            Runs(Delivered(d.pieces), Terminal, d.stopped)
    decreases |text|
  {
    var p := PullBlock(text);
    if p.Block? {
      var e := AppParse(p.block);
      AppStopsExactly(p.rest);
      var d := Drain(p.rest, AppStops);
      if AppStops(p.block) {
        assert [Piece(p.block, p.sep)][1..] == [];
        assert Delivered([Piece(p.block, p.sep)]) == [e];
      } else {
        assert ([Piece(p.block, p.sep)] + d.pieces)[1..] == d.pieces;
        if !Blank(p.block) {
          RunsCons(e, Delivered(d.pieces), Terminal, d.stopped);
        } else {
          assert [] + Delivered(d.pieces) == Delivered(d.pieces);
        }
      }
    }
  }
}
