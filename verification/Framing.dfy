/**
  The bounded line reader (crates/tetris-adapter/src/adapter/server.rs): newline framing over a
  byte stream that arrives in chunks of any size.
*/
module Framing {

  type byte = n: int | 0 <= n < 256

  const NEWLINE: byte := 10

  const MAX_INBOUND_LINE_BYTES: nat := 64 * 1024

  datatype BoundedLineRead = Eof | Line | TooLong

  // ---- framing of the whole stream -------------------------------------

  /** Position of the first newline, or the length. */
  function LineEnd(s: seq<byte>): (k: nat)
    ensures k <= |s|
    ensures k < |s| ==> s[k] == NEWLINE
    ensures forall j :: 0 <= j < k ==> s[j] != NEWLINE
  {
    if s == [] || s[0] == NEWLINE then 0 else 1 + LineEnd(s[1..])
  }

  lemma LineEndIs(s: seq<byte>, k: nat)
    requires k <= |s| && (k < |s| ==> s[k] == NEWLINE) && forall j :: 0 <= j < k ==> s[j] != NEWLINE
    ensures LineEnd(s) == k
  {
  }

  /** Bytes of the next line, its newline included when there is one. */
  function LineLength(s: seq<byte>): (n: nat)
    ensures n <= |s|
    ensures s != [] ==> n > 0
  {
    if LineEnd(s) < |s| then LineEnd(s) + 1 else |s|
  }

  /** One read of the stream: what it reports, the line, and what is left to read. */
  function ReadOne(s: seq<byte>): (r: (BoundedLineRead, seq<byte>, seq<byte>))
  {
    if s == [] then (Eof, [], s)
    else if LineEnd(s) > MAX_INBOUND_LINE_BYTES then (TooLong, [], s)
    else (Line, s[..LineLength(s)], s[LineLength(s)..])
  }

  /** Why a connection stops reading. */
  datatype Ending = AtEnd | LineTooLong | NotText | Stopped

  /**
    The lines a connection serves: it stops at the end of the stream, at a line too long, at a line
    that is not text, or when it is told to, which it notices before its next read.
  */
  function Served(s: seq<byte>, isText: seq<byte> -> bool, turns: nat): (seq<seq<byte>>, Ending)
    decreases turns
  {
    if turns == 0 then ([], Stopped)
    else
      var (read, line, rest) := ReadOne(s);
      if read == Eof then ([], AtEnd)
      else if read == TooLong then ([], LineTooLong)
      else if !isText(line) then ([], NotText)
      else
        var (lines, ending) := Served(rest, isText, turns - 1);
        ([line] + lines, ending)
  }

  lemma ServedOne(s: seq<byte>, isText: seq<byte> -> bool, turns: nat)
    requires turns > 0
    ensures var (read, line, rest) := ReadOne(s);
      var later := Served(rest, isText, turns - 1);
      Served(s, isText, turns) ==
        if read == Eof then ([], AtEnd)
        else if read == TooLong then ([], LineTooLong)
        else if !isText(line) then ([], NotText)
        else ([line] + later.0, later.1)
  {
  }

  predicate AnyLine(line: seq<byte>) {
    true
  }

  /** Lines up to the end of the stream or the first line that is too long. */
  function Frames(s: seq<byte>): (seq<seq<byte>>, bool) {
    var (lines, ending) := Served(s, AnyLine, |s| + 1);
    (lines, ending == LineTooLong)
  }

  function Flat(chunks: seq<seq<byte>>): seq<byte> {
    if chunks == [] then [] else chunks[0] + Flat(chunks[1..])
  }

  /** A line without its newline. */
  function PayloadLength(line: seq<byte>): nat {
    if line != [] && line[|line| - 1] == NEWLINE then |line| - 1 else |line|
  }

  /** A piece of a newline split: not empty, with a newline nowhere but at its end. */
  predicate Piece(line: seq<byte>) {
    line != [] && forall j :: 0 <= j < |line| - 1 ==> line[j] != NEWLINE
  }

  predicate Ended(line: seq<byte>) {
    line != [] && line[|line| - 1] == NEWLINE
  }

  /** The lines are the stream cut after every newline; only the last may lack one. */
  predicate Split(lines: seq<seq<byte>>, s: seq<byte>) {
    && Flat(lines) == s
    && (forall i :: 0 <= i < |lines| ==> Piece(lines[i]))
    && (forall i :: 0 <= i < |lines| - 1 ==> Ended(lines[i]))
  }

  /** Number of leading lines whose payload fits. */
  function Fitting(lines: seq<seq<byte>>): (k: nat)
    ensures k <= |lines|
    ensures k < |lines| ==> PayloadLength(lines[k]) > MAX_INBOUND_LINE_BYTES
    ensures forall j :: 0 <= j < k ==> PayloadLength(lines[j]) <= MAX_INBOUND_LINE_BYTES
  {
    if lines == [] || PayloadLength(lines[0]) > MAX_INBOUND_LINE_BYTES then 0 else 1 + Fitting(lines[1..])
  }

  lemma FirstPiece(lines: seq<seq<byte>>, s: seq<byte>)
    requires Split(lines, s) && lines != []
    ensures s != [] && LineLength(s) == |lines[0]| && s[..LineLength(s)] == lines[0]
    ensures LineEnd(s) == PayloadLength(lines[0])
    ensures Split(lines[1..], s[LineLength(s)..])
  {
    var line := lines[0];
    var rest := Flat(lines[1..]);
    assert s == line + rest;
    if |lines| == 1 {
      assert rest == [];
      assert s == line;
    } else {
      assert Ended(lines[0]);
      assert s[|line| - 1] == NEWLINE;
    }
    LineEndIs(s, PayloadLength(line));
    assert s[|line|..] == rest;
    forall i | 0 <= i < |lines| - 1
      ensures Piece(lines[1..][i]) && (i < |lines| - 2 ==> Ended(lines[1..][i]))
    {
      assert lines[1..][i] == lines[i + 1];
    }
  }

  lemma NoLine()
    ensures LineEnd([]) == 0
  {
  }

  lemma ReadsTail(line: seq<byte>)
    requires LineEnd(line) == |line| <= MAX_INBOUND_LINE_BYTES
    ensures ReadOne(line) == if line == [] then (Eof, [], []) else (Line, line, [])
  {
    assert line[..|line|] == line;
  }

  lemma FirstRead(lines: seq<seq<byte>>, s: seq<byte>)
    requires Split(lines, s) && lines != []
    ensures |lines[0]| <= |s| && Split(lines[1..], s[|lines[0]|..])
    ensures if PayloadLength(lines[0]) > MAX_INBOUND_LINE_BYTES then ReadOne(s).0 == TooLong
            else ReadOne(s) == (Line, lines[0], s[|lines[0]|..])
  {
    FirstPiece(lines, s);
  }

  /** Number of leading lines that fit and are text. */
  function Servable(lines: seq<seq<byte>>, isText: seq<byte> -> bool): (k: nat)
    ensures k <= |lines|
    ensures k < |lines| ==> PayloadLength(lines[k]) > MAX_INBOUND_LINE_BYTES || !isText(lines[k])
    ensures forall j :: 0 <= j < k ==> PayloadLength(lines[j]) <= MAX_INBOUND_LINE_BYTES && isText(lines[j])
  {
    if lines == [] || PayloadLength(lines[0]) > MAX_INBOUND_LINE_BYTES || !isText(lines[0]) then 0
    else 1 + Servable(lines[1..], isText)
  }

  /**
    The share of the lines a connection serves in so many turns, and why it stops: those up to the
    first that is too long or not text, or fewer when told to stop sooner.
  */
  function Share(lines: seq<seq<byte>>, isText: seq<byte> -> bool, turns: nat): (seq<seq<byte>>, Ending) {
    var k := Servable(lines, isText);
    if turns <= k then (lines[..turns], Stopped)
    else
      (lines[..k],
       if k == |lines| then AtEnd
       else if PayloadLength(lines[k]) > MAX_INBOUND_LINE_BYTES then LineTooLong
       else NotText)
  }

  lemma ShareEnds(lines: seq<seq<byte>>, isText: seq<byte> -> bool, turns: nat)
    ensures turns == 0 ==> Share(lines, isText, turns) == ([], Stopped)
    ensures turns > 0 && lines == [] ==> Share(lines, isText, turns) == ([], AtEnd)
    ensures turns > 0 && lines != [] && PayloadLength(lines[0]) > MAX_INBOUND_LINE_BYTES ==>
              Share(lines, isText, turns) == ([], LineTooLong)
    ensures turns > 0 && lines != [] && PayloadLength(lines[0]) <= MAX_INBOUND_LINE_BYTES && !isText(lines[0]) ==>
              Share(lines, isText, turns) == ([], NotText)
  {
    hide PayloadLength;
  }

  lemma ShareGoesOn(lines: seq<seq<byte>>, isText: seq<byte> -> bool, turns: nat)
    requires turns > 0 && lines != [] && PayloadLength(lines[0]) <= MAX_INBOUND_LINE_BYTES && isText(lines[0])
    ensures var later := Share(lines[1..], isText, turns - 1);
      Share(lines, isText, turns) == ([lines[0]] + later.0, later.1)
  {
    hide PayloadLength;
    var k := Servable(lines[1..], isText);
    if turns - 1 <= k {
      assert lines[..turns] == [lines[0]] + lines[1..][..turns - 1];
    } else {
      assert lines[..k + 1] == [lines[0]] + lines[1..][..k];
    }
  }

  /**
    A connection serves the lines of the newline split in order up to the first that is too long or
    not text, and reports which; told to stop sooner it has served as many as it was let read.
  */
  lemma {:induction false} ServedAreSplit(lines: seq<seq<byte>>, s: seq<byte>, isText: seq<byte> -> bool, turns: nat)
    requires Split(lines, s)
    ensures Served(s, isText, turns) == Share(lines, isText, turns)
    decreases turns
  {
    hide Served, ReadOne, PayloadLength, Split, Share;
    ShareEnds(lines, isText, turns);
    if turns == 0 {
      NothingServed(s, isText);
    } else {
      ServedOne(s, isText, turns);
      if lines == [] {
        SplitNothing(s);
        NoLine();
        ReadsTail([]);
      } else {
        FirstRead(lines, s);
        ServedAreSplit(lines[1..], s[|lines[0]|..], isText, turns - 1);
        if PayloadLength(lines[0]) <= MAX_INBOUND_LINE_BYTES && isText(lines[0]) { ShareGoesOn(lines, isText, turns); }
      }
    }
  }

  lemma {:induction false} AllServable(lines: seq<seq<byte>>)
    ensures Servable(lines, AnyLine) == Fitting(lines)
  {
    hide PayloadLength;
    if lines == [] {
    } else {
      AllServable(lines[1..]);
    }
  }

  lemma {:induction false} FewLines(lines: seq<seq<byte>>)
    requires forall i :: 0 <= i < |lines| ==> lines[i] != []
    ensures |lines| <= |Flat(lines)|
  {
    if lines == [] {
    } else {
      FewLines(lines[1..]);
    }
  }

  lemma SplitFew(lines: seq<seq<byte>>, s: seq<byte>)
    requires Split(lines, s)
    ensures |lines| <= |s|
  {
    hide Flat;
    FewLines(lines);
  }

  lemma SplitNothing(s: seq<byte>)
    requires Split([], s)
    ensures s == []
  {
  }

  /**
    Reading is splitting: for the newline split of the stream, the lines read are those before the
    first whose payload exceeds the limit, and the reader reports a line too long exactly when
    there is such a line.
  */
  lemma FramesAreSplit(lines: seq<seq<byte>>, s: seq<byte>)
    requires Split(lines, s)
    ensures Frames(s) == (lines[..Fitting(lines)], Fitting(lines) < |lines|)
  {
    hide Served, Split, Servable, Fitting;
    AllServable(lines);
    SplitFew(lines, s);
    ServedAreSplit(lines, s, AnyLine, |s| + 1);
  }

  lemma NothingServed(s: seq<byte>, isText: seq<byte> -> bool)
    ensures Served(s, isText, 0) == ([], Stopped)
  {
  }

  /** Every stream has a newline split, and only one. */
  lemma {:induction false} SplitExists(s: seq<byte>) returns (lines: seq<seq<byte>>)
    ensures Split(lines, s)
    decreases |s|
  {
    if s == [] {
      lines := [];
    } else {
      var n := LineLength(s);
      var rest := SplitExists(s[n..]);
      lines := [s[..n]] + rest;
      assert lines[1..] == rest && s[..n] + s[n..] == s;
      if |lines| > 1 { LongerStream(s, rest); }
      forall i | 0 <= i < |lines|
        ensures Piece(lines[i]) && (i < |lines| - 1 ==> Ended(lines[i]))
      {
        if i > 0 { assert lines[i] == rest[i - 1]; }
      }
    }
  }

  lemma LongerStream(s: seq<byte>, rest: seq<seq<byte>>)
    requires s != [] && rest != [] && Split(rest, s[LineLength(s)..])
    ensures Ended(s[..LineLength(s)])
  {
    FirstPiece(rest, s[LineLength(s)..]);
  }

  lemma {:induction false} SplitUnique(a: seq<seq<byte>>, b: seq<seq<byte>>, s: seq<byte>)
    requires Split(a, s) && Split(b, s)
    ensures a == b
    decreases |a|
  {
    if a != [] {
      FirstPiece(a, s);
      if b != [] {
        FirstPiece(b, s);
        SplitUnique(a[1..], b[1..], s[LineLength(s)..]);
        assert a == [a[0]] + a[1..] && b == [b[0]] + b[1..];
      }
    } else if b != [] {
      FirstPiece(b, s);
    }
  }

  // ---- the reader ------------------------------------------------------

  lemma LineEndAppend(line: seq<byte>, more: seq<byte>)
    requires LineEnd(line) == |line|
    ensures LineEnd(line + more) == |line| + LineEnd(more)
  {
    LineEndIs(line + more, |line| + LineEnd(more));
  }

  /** What one look at the chunk at hand settles about the whole stream. */
  lemma Looked(line: seq<byte>, available: seq<byte>, s: seq<byte>)
    requires line + available <= s && available != []
    requires LineEnd(line) == |line| <= MAX_INBOUND_LINE_BYTES
    ensures |line| + LineEnd(available) > MAX_INBOUND_LINE_BYTES ==> ReadOne(s).0 == TooLong
    ensures |line| + LineEnd(available) <= MAX_INBOUND_LINE_BYTES && LineEnd(available) < |available| ==>
              var whole := line + available[..LineEnd(available) + 1];
              ReadOne(s) == (Line, whole, s[|whole|..])
    ensures LineEnd(available) == |available| ==> LineEnd(line + available) == |line + available|
  {
    LineEndAppend(line, available);
    var rest := s[|line + available|..];
    assert s == line + available + rest;
    if LineEnd(available) < |available| {
      LineEndIs(s, |line| + LineEnd(available));
      assert s[..|line| + LineEnd(available) + 1] == line + available[..LineEnd(available) + 1];
    } else {
      LineEndAppend(line + available, rest);
    }
  }

  lemma Took(line: seq<byte>, available: seq<byte>, stream: seq<byte>, n: nat)
    requires available <= stream && n <= |available|
    ensures line + available[..n] + stream[n..] == line + stream
    ensures (line + stream)[|line + available[..n]|..] == stream[n..]
  {
  }

  /** A buffered source: fill_buf shows the chunk at hand, consume drops bytes from its front. */
  class ChunkReader {
    var chunks: seq<seq<byte>>

    ghost predicate Valid()
      reads this
    {
      forall i :: 0 <= i < |chunks| ==> chunks[i] != []
    }

    /** Bytes not yet consumed. */
    ghost function Stream(): seq<byte>
      reads this
    {
      Flat(chunks)
    }

    constructor (chunks: seq<seq<byte>>)
      requires forall i :: 0 <= i < |chunks| ==> chunks[i] != []
      ensures Valid() && Stream() == Flat(chunks)
    {
      this.chunks := chunks;
    }

    method FillBuf() returns (available: seq<byte>)
      requires Valid()
      ensures available <= Stream()
      ensures available == [] <==> Stream() == []
      ensures if chunks == [] then available == [] else available == chunks[0]
    {
      available := if chunks == [] then [] else chunks[0];
    }

    method Consume(n: nat)
      requires Valid() && chunks != [] && n <= |chunks[0]|
      modifies this
      ensures Valid() && Stream() == old(Stream())[n..]
    {
      ghost var s := Stream();
      var left := chunks[0][n..];
      assert s[n..] == left + Flat(chunks[1..]);
      if left == [] {
        chunks := chunks[1..];
      } else {
        chunks := [left] + chunks[1..];
        assert chunks[1..] == old(chunks)[1..];
      }
    }

    /**
      One bounded read. However the stream is cut into chunks the outcome is that of ReadOne on the
      whole stream; the line buffer never holds more than the limit and a newline.
    */
    method ReadBoundedLine() returns (read: BoundedLineRead, line: seq<byte>)
      requires Valid()
      modifies this
      ensures Valid() && read == ReadOne(old(Stream())).0
      ensures read != TooLong ==> line == ReadOne(old(Stream())).1 && Stream() == ReadOne(old(Stream())).2
      ensures |line| <= MAX_INBOUND_LINE_BYTES + 1
    {
      hide ReadOne, LineLength, Flat, LineEnd;
      ghost var s := Stream();
      line := [];
      NoLine();
      while true
        invariant Valid() && line + Stream() == s
        invariant LineEnd(line) == |line| <= MAX_INBOUND_LINE_BYTES
        decreases |Stream()|
      {
        var available := FillBuf();
        if available == [] {
          ReadsTail(line);
          assert line == s;
          return if line == [] then Eof else Line, line;
        }
        var newline := LineEnd(available);
        Looked(line, available, s);
        if |line| + newline > MAX_INBOUND_LINE_BYTES { return TooLong, line; }
        var consumed := if newline < |available| then newline + 1 else |available|;
        Took(line, available, Stream(), consumed);
        line := line + available[..consumed];
        Consume(consumed);
        if newline < |available| { return Line, line; }
        assert available[..consumed] == available;
      }
    }

    /**
      The connection's read loop: lines until the stream ends, a line is too long or is not text, or
      the connection has been told to stop after so many turns.
    */
    method DrainLines(isText: seq<byte> -> bool, turns: nat) returns (lines: seq<seq<byte>>, ending: Ending)
      requires Valid()
      modifies this
      ensures Valid() && (lines, ending) == Served(old(Stream()), isText, turns)
    {
      hide Served, ReadOne;
      lines := [];
      ghost var s := Stream();
      assert [] + Served(s, isText, turns).0 == Served(s, isText, turns).0;
      var left := turns;
      while true
        invariant Valid()
        invariant Served(s, isText, turns) ==
                  (lines + Served(Stream(), isText, left).0, Served(Stream(), isText, left).1)
        decreases left
      {
        assert lines + [] == lines;
        if left == 0 {
          NothingServed(Stream(), isText);
          return lines, Stopped;
        }
        ServedOne(Stream(), isText, left);
        var read, line := ReadBoundedLine();
        if read == Eof { return lines, AtEnd; }
        if read == TooLong { return lines, LineTooLong; }
        if !isText(line) { return lines, NotText; }
        left := left - 1;
        assert lines + ([line] + Served(Stream(), isText, left).0) ==
               (lines + [line]) + Served(Stream(), isText, left).0;
        lines := lines + [line];
      }
    }
  }
}
