/** Event-stream framing (section 9.2 of the WHATWG HTML Living Standard, read the way
    the two front ends read it): cutting a text that arrives in chunks into blocks. */
module Sse {

  // ------------------------------------------------------- the boundary \r?\n\r?\n

  /** Length of the match of `\r?\n\r?\n` at position `i`, 0 if there is none. */
  function MatchLen(s: string, i: nat): (n: nat)
    ensures n > 0 ==> 2 <= n <= 4 && i + n <= |s|
  {
    var j := if i < |s| && s[i] == '\r' then i + 1 else i;
    if j >= |s| || s[j] != '\n' then 0
    else
      var k := if j + 1 < |s| && s[j + 1] == '\r' then j + 2 else j + 1;
      if k >= |s| || s[k] != '\n' then 0 else k + 1 - i
  }

  /** Leftmost match position from `i` on, or the length of the text. */
  function FirstMatch(s: string, i: nat): (m: nat)
    requires i <= |s|
    ensures i <= m <= |s|
    ensures m < |s| <==> MatchLen(s, m) > 0
    ensures forall k | i <= k < m :: MatchLen(s, k) == 0
    decreases |s| - i
  {
    if i == |s| then i
    else if MatchLen(s, i) > 0 then i
    else FirstMatch(s, i + 1)
  }

  lemma FirstMatchUnique(s: string, m: nat)
    requires MatchLen(s, m) > 0 && forall k | 0 <= k < m :: MatchLen(s, k) == 0
    ensures FirstMatch(s, 0) == m
  {
  }

  /** A match, once complete, is not disturbed by text that arrives later, and no match
      can complete before it. */
  lemma MatchStable(s: string, more: string, m: nat)
    requires MatchLen(s, m) > 0 && forall k | 0 <= k < m :: MatchLen(s, k) == 0
    ensures MatchLen(s + more, m) == MatchLen(s, m)
    ensures forall k | 0 <= k < m :: MatchLen(s + more, k) == 0
  {
    var t := s + more;
    forall k | 0 <= k < m ensures MatchLen(t, k) == 0 {
      assert MatchLen(s, k) == 0;
    }
  }

  /** One block taken off the front, with the separator that ended it. */
  datatype Pull = NoBlock | Block(block: string, sep: string, rest: string)

  function PullBlock(buffer: string): (p: Pull)
    ensures p.Block? ==> |p.rest| < |buffer|
  {
    var m := FirstMatch(buffer, 0);
    if m == |buffer| then NoBlock
    else
      var n := MatchLen(buffer, m);
      Block(buffer[..m], buffer[m..m + n], buffer[m + n..])
  }

  lemma PullRebuilds(buffer: string)
    requires PullBlock(buffer).Block?
    ensures var p := PullBlock(buffer); p.block + p.sep + p.rest == buffer
  {
  }

  lemma SlicesStable(s: string, more: string, a: nat, b: nat)
    requires a <= b <= |s|
    ensures (s + more)[..a] == s[..a]
    ensures (s + more)[a..b] == s[a..b]
    ensures (s + more)[b..] == s[b..] + more
  {
  }

  lemma PullStable(buffer: string, more: string)
    requires PullBlock(buffer).Block?
    ensures var p := PullBlock(buffer);
      PullBlock(buffer + more) == Block(p.block, p.sep, p.rest + more)
  {
    var m := FirstMatch(buffer, 0);
    MatchStable(buffer, more, m);
    FirstMatchUnique(buffer + more, m);
    SlicesStable(buffer, more, m, m + MatchLen(buffer, m));
  }

  // ----------------------------------------------------------------- the drain loop

  datatype Piece = Piece(block: string, sep: string)

  /** Blocks handled in order, whether one of them ended the stream, and what is left
      in the buffer. */
  datatype Drained = Drained(pieces: seq<Piece>, stopped: bool, rest: string)

  /** One pass over a text; `stop` tells which blocks end the stream. */
  function Drain(text: string, stop: string -> bool): Drained
    decreases |text|
  {
    match PullBlock(text)
    case NoBlock => Drained([], false, text)
    case Block(block, sep, rest) =>
      if stop(block) then Drained([Piece(block, sep)], true, rest)
      else
        var d := Drain(rest, stop);
        d.(pieces := [Piece(block, sep)] + d.pieces)
  }

  /** The same, text arriving in chunks. */
  function Receive(buffer: string, chunks: seq<string>, stop: string -> bool): Drained
    decreases |chunks|
  {
    if chunks == [] then Drained([], false, buffer)
    else
      var d := Drain(buffer + chunks[0], stop);
      if d.stopped then d
      else
        var later := Receive(d.rest, chunks[1..], stop);
        later.(pieces := d.pieces + later.pieces)
  }

  function Concat(chunks: seq<string>): string {
    if chunks == [] then "" else chunks[0] + Concat(chunks[1..])
  }

  lemma Associate<T>(a: seq<T>, b: seq<T>, c: seq<T>)
    ensures a + (b + c) == (a + b) + c
  {
  }

  lemma SnocTail<T>(s: seq<T>, x: T)
    requires s != []
    ensures s + [x] != [] && (s + [x])[0] == s[0] && (s + [x])[1..] == s[1..] + [x]
  {
  }

  lemma HeadTail<T>(s: seq<T>)
    requires s != []
    ensures [s[0]] + s[1..] == s
  {
  }

  lemma {:induction false} DrainStable(text: string, more: string, stop: string -> bool)
    ensures var d := Drain(text, stop);
      var whole := Drain(text + more, stop);
      if d.stopped then whole == d.(rest := d.rest + more)
      else whole == Drain(d.rest + more, stop).(pieces := d.pieces + Drain(d.rest + more, stop).pieces)
    ensures !Drain(text, stop).stopped ==> PullBlock(Drain(text, stop).rest).NoBlock?
    decreases |text|
  {
    var p := PullBlock(text);
    if p.Block? {
      PullStable(text, more);
      if !stop(p.block) {
        DrainStable(p.rest, more, stop);
        var d := Drain(p.rest, stop);
        Associate([Piece(p.block, p.sep)], d.pieces, Drain(d.rest + more, stop).pieces);
      }
    } else {
      assert [] + Drain(text + more, stop).pieces == Drain(text + more, stop).pieces;
    }
  }

  /** However the stream text is cut into chunks, the same blocks are handled, the
      stream ends at the same block or not at all, and if it does not end the buffer is
      the unfinished tail of the text. */
  lemma {:induction false} ChunksDoNotMatter(buffer: string, chunks: seq<string>, stop: string -> bool)
    requires PullBlock(buffer).NoBlock?
    ensures var d, whole := Receive(buffer, chunks, stop), Drain(buffer + Concat(chunks), stop);
      d.pieces == whole.pieces && d.stopped == whole.stopped && (!d.stopped ==> d.rest == whole.rest)
    decreases |chunks|
  {
    if chunks == [] {
      assert buffer + "" == buffer;
    } else {
      var text, more := buffer + chunks[0], Concat(chunks[1..]);
      assert buffer + Concat(chunks) == text + more;
      DrainStable(text, more, stop);
      var d := Drain(text, stop);
      if !d.stopped {
        ChunksDoNotMatter(d.rest, chunks[1..], stop);
      }
    }
  }

  function Rebuilt(pieces: seq<Piece>): string {
    if pieces == [] then "" else pieces[0].block + pieces[0].sep + Rebuilt(pieces[1..])
  }

  /** Nothing is lost or invented: blocks, separators and the rest are the text. */
  lemma {:induction false} DrainRebuilds(text: string, stop: string -> bool)
    ensures Rebuilt(Drain(text, stop).pieces) + Drain(text, stop).rest == text
    decreases |text|
  {
    match PullBlock(text)
    case NoBlock =>
    case Block(block, sep, rest) =>
      var piece := Piece(block, sep);
      PullRebuilds(text);
      if stop(block) {
        RebuiltCons(piece, []);
      } else {
        DrainRebuilds(rest, stop);
        RebuiltCons(piece, Drain(rest, stop).pieces);
      }
  }

  lemma RebuiltCons(piece: Piece, pieces: seq<Piece>)
    ensures Rebuilt([piece] + pieces) == piece.block + (piece.sep + Rebuilt(pieces))
    ensures forall rest :: Rebuilt([piece] + pieces) + rest == piece.block + piece.sep + (Rebuilt(pieces) + rest)
  {
    assert ([piece] + pieces)[1..] == pieces;
  }

  /** Each block ends at the first boundary there is, and the separator is that one. */
  ghost predicate Exact(pieces: seq<Piece>) {
    pieces != [] ==>
      && PullBlock(pieces[0].block + pieces[0].sep) == Block(pieces[0].block, pieces[0].sep, "")
      && Exact(pieces[1..])
  }

  /** Cutting the text off right after the first match does not disturb it. */
  lemma MatchKept(s: string, more: string, m: nat)
    requires MatchLen(s + more, m) > 0 && m + MatchLen(s + more, m) == |s|
    requires forall k | 0 <= k < m :: MatchLen(s + more, k) == 0
    ensures MatchLen(s, m) == MatchLen(s + more, m)
    ensures forall k | 0 <= k < m :: MatchLen(s, k) == 0
  {
    forall k | 0 <= k < m ensures MatchLen(s, k) == 0 {
      assert MatchLen(s + more, k) == 0;
    }
  }

  lemma ConcatParts(a: string, b: string)
    ensures (a + b)[..|a|] == a && (a + b)[|a|..] == b
  {
  }

  lemma PullWhole(s: string, m: nat)
    requires MatchLen(s, m) > 0 && m + MatchLen(s, m) == |s|
    requires forall k | 0 <= k < m :: MatchLen(s, k) == 0
    ensures PullBlock(s) == Block(s[..m], s[m..], "")
  {
    FirstMatchUnique(s, m);
  }

  lemma PulledAlone(text: string)
    requires PullBlock(text).Block?
    ensures var p := PullBlock(text); PullBlock(p.block + p.sep) == Block(p.block, p.sep, "")
  {
    var p := PullBlock(text);
    PullRebuilds(text);
    MatchKept(p.block + p.sep, p.rest, |p.block|);
    PullWhole(p.block + p.sep, |p.block|);
    ConcatParts(p.block, p.sep);
  }

  lemma PulledFirst(piece: Piece, tail: string)
    requires PullBlock(piece.block + piece.sep) == Block(piece.block, piece.sep, "")
    ensures PullBlock(piece.block + piece.sep + tail) == Block(piece.block, piece.sep, tail)
  {
    PullStable(piece.block + piece.sep, tail);
    assert "" + tail == tail;
  }

  lemma {:induction false} DrainIsExact(text: string, stop: string -> bool)
    ensures Exact(Drain(text, stop).pieces)
    decreases |text|
  {
    match PullBlock(text)
    case NoBlock =>
    case Block(block, sep, rest) =>
      PulledAlone(text);
      if stop(block) {
        assert [Piece(block, sep)][1..] == [];
      } else {
        DrainIsExact(rest, stop);
        assert ([Piece(block, sep)] + Drain(rest, stop).pieces)[1..] == Drain(rest, stop).pieces;
      }
  }

  lemma DrainCons(piece: Piece, tail: string, stop: string -> bool)
    requires PullBlock(piece.block + piece.sep + tail) == Block(piece.block, piece.sep, tail)
    requires !stop(piece.block)
    ensures var d := Drain(tail, stop);
      Drain(piece.block + piece.sep + tail, stop) == d.(pieces := [piece] + d.pieces)
  {
  }

  ghost predicate NoneStops(pieces: seq<Piece>, stop: string -> bool) {
    pieces != [] ==> !stop(pieces[0].block) && NoneStops(pieces[1..], stop)
  }

  /** The framing is unique: whatever is built from exact pieces and an unfinished tail
      is drained back to them. */
  lemma {:induction false} DrainOfRebuilt(pieces: seq<Piece>, rest: string, stop: string -> bool)
    requires Exact(pieces) && PullBlock(rest).NoBlock?
    requires NoneStops(pieces, stop)
    ensures Drain(Rebuilt(pieces) + rest, stop) == Drained(pieces, false, rest)
  {
    if pieces == [] {
      assert "" + rest == rest;
    } else {
      var tail := Rebuilt(pieces[1..]) + rest;
      Associate(pieces[0].block + pieces[0].sep, Rebuilt(pieces[1..]), rest);
      PulledFirst(pieces[0], tail);
      DrainOfRebuilt(pieces[1..], rest, stop);
      DrainCons(pieces[0], tail, stop);
      HeadTail(pieces);
    }
  }
}
