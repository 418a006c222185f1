/**
  What the hashes of snapshots and transitions cover (crates/tetris-core/src/core/state_hash.rs,
  crates/tetris-session/src/engine/replay.rs:21-50): the bytes folded determine everything shown, and
  no change of a single byte leaves the hash as it was.
*/
module HashCover {
  import opened Types
  import opened Grids
  import opened Pieces
  import opened QueueModule
  import opened GameModel
  import opened Placing
  import opened Snapshots
  import opened Sessions
  import opened SessionRuntimes
  import opened Replays
  import GameInvariant
  import IdlePlay

  // ---- reading bytes back ----------------------------------------------

  lemma SplitEqual(a: seq<nat>, b: seq<nat>, c: seq<nat>, d: seq<nat>)
    requires a + b == c + d && |a| == |c|
    ensures a == c && b == d
  {
    assert a == (a + b)[..|a|] && c == (c + d)[..|c|];
    assert b == (a + b)[|a|..] && d == (c + d)[|c|..];
  }

  function Bound(count: nat): nat {
    if count == 0 then 1 else 256 * Bound(count - 1)
  }

  lemma {:induction false} LeLength(n: nat, count: nat)
    ensures |LeBytes(n, count)| == count
  {
    if count == 0 {
    } else {
      LeLength(n / 256, count - 1);
    }
  }

  lemma {:induction false} LeInjective(m: nat, n: nat, count: nat)
    requires LeBytes(m, count) == LeBytes(n, count) && m < Bound(count) && n < Bound(count)
    ensures m == n
  {
    if count == 0 {
    } else {
      var a, b := LeBytes(m, count), LeBytes(n, count);
      assert a[0] == m % 256 && b[0] == n % 256;
      assert a[1..] == LeBytes(m / 256, count - 1) && b[1..] == LeBytes(n / 256, count - 1);
      LeInjective(m / 256, n / 256, count - 1);
    }
  }

  lemma Bounds()
    ensures Bound(4) == TWO_TO_32 && Bound(8) == TWO_TO_64
  {
    assert Bound(1) == 256 && Bound(2) == 65536 && Bound(3) == 16777216;
    assert Bound(5) == 256 * Bound(4) && Bound(6) == 256 * Bound(5) && Bound(7) == 256 * Bound(6);
  }

  lemma WordTells(m: u32, n: u32, a: seq<nat>, b: seq<nat>)
    requires LeBytes(m, 4) + a == LeBytes(n, 4) + b
    ensures m == n && a == b
  {
    hide LeBytes;
    LeLength(m, 4);
    LeLength(n, 4);
    SplitEqual(LeBytes(m, 4), a, LeBytes(n, 4), b);
    Bounds();
    LeInjective(m, n, 4);
  }

  lemma LongTells(m: u64, n: u64, a: seq<nat>, b: seq<nat>)
    requires LeBytes(m, 8) + a == LeBytes(n, 8) + b
    ensures m == n && a == b
  {
    hide LeBytes;
    LeLength(m, 8);
    LeLength(n, 8);
    SplitEqual(LeBytes(m, 8), a, LeBytes(n, 8), b);
    Bounds();
    LeInjective(m, n, 8);
  }

  predicate InI8(p: Tetromino) {
    -128 <= p.x < 128 && -128 <= p.y < 128
  }

  lemma ByteTells(m: int, n: int)
    requires -128 <= m < 128 && -128 <= n < 128 && m % 256 == n % 256
    ensures m == n
  {
  }

  lemma PieceTells(p: Option<Tetromino>, q: Option<Tetromino>, a: seq<nat>, b: seq<nat>)
    requires (p.Some? ==> InI8(p.value)) && (q.Some? ==> InI8(q.value))
    requires PieceBytes(p) + a == PieceBytes(q) + b
    ensures p == q && a == b
  {
    assert (PieceBytes(p) + a)[0] == PieceBytes(p)[0] && (PieceBytes(q) + b)[0] == PieceBytes(q)[0];
    SplitEqual(PieceBytes(p), a, PieceBytes(q), b);
    if p.Some? {
      var x, y := PieceBytes(p), PieceBytes(q);
      assert x[1] == y[1] && x[2] == y[2] && x[3] == y[3] && x[4] == y[4];
      ByteTells(p.value.x, q.value.x);
      ByteTells(p.value.y, q.value.y);
    }
  }

  lemma HoldTells(p: Option<PieceKind>, q: Option<PieceKind>, a: seq<nat>, b: seq<nat>)
    requires HoldBytes(p) + a == HoldBytes(q) + b
    ensures p == q && a == b
  {
    assert (HoldBytes(p) + a)[0] == HoldBytes(p)[0] && (HoldBytes(q) + b)[0] == HoldBytes(q)[0];
    SplitEqual(HoldBytes(p), a, HoldBytes(q), b);
    if p.Some? { assert HoldBytes(p)[1] == HoldBytes(q)[1]; }
  }

  lemma KindsTell(p: seq<PieceKind>, q: seq<PieceKind>)
    requires |p| == |q| && KindCodes(p) == KindCodes(q)
    ensures p == q
  {
    forall i | 0 <= i < |p|
      ensures p[i] == q[i]
    {
      assert KindCodes(p)[i] == KindCodes(q)[i];
    }
  }

  lemma {:induction false} WordsLength(ns: seq<u32>)
    ensures |Words(ns)| == 4 * |ns|
  {
    if ns == [] {
    } else {
      LeLength(ns[0], 4);
      WordsLength(ns[1..]);
    }
  }

  lemma {:induction false} WordsTell(m: seq<u32>, n: seq<u32>)
    requires |m| == |n| && Words(m) == Words(n)
    ensures m == n
  {
    hide LeBytes;
    if m == [] {
    } else {
      WordTells(m[0], n[0], Words(m[1..]), Words(n[1..]));
      WordsTell(m[1..], n[1..]);
    }
  }

  // ---- snapshots and events --------------------------------------------

  predicate InI32(n: int) {
    -0x8000_0000 <= n < 0x8000_0000
  }

  lemma SpinTells(p: Option<TSpinKind>, q: Option<TSpinKind>, a: seq<nat>, b: seq<nat>)
    requires SpinBytes(p) + a == SpinBytes(q) + b
    ensures p == q && a == b
  {
    assert (SpinBytes(p) + a)[0] == SpinBytes(p)[0] && (SpinBytes(q) + b)[0] == SpinBytes(q)[0];
    SplitEqual(SpinBytes(p), a, SpinBytes(q), b);
    if p.Some? { assert SpinBytes(p)[1] == SpinBytes(q)[1]; }
  }

  function EventTail(e: LockEvent): seq<nat> {
    LeBytes(e.linesCleared, 4) + (LeBytes(e.lineClearScore, 4) +
      (SpinBytes(e.tspin) + (LeBytes(Unsigned32(e.combo), 4) + [Bit(e.backToBack)])))
  }

  lemma EventIs(e: LockEvent)
    ensures EventBytes(Some(e)) == [1, Bit(e.locked)] + EventTail(e)
  {
    hide LeBytes, SpinBytes;
  }

  /** The bytes of an event determine it. */
  lemma EventTells(e: Option<LockEvent>, f: Option<LockEvent>)
    requires (e.Some? ==> InI32(e.value.combo)) && (f.Some? ==> InI32(f.value.combo))
    requires EventBytes(e) == EventBytes(f)
    ensures e == f
  {
    hide LeBytes, SpinBytes;
    if e.Some? { EventIs(e.value); }
    if f.Some? { EventIs(f.value); }
    assert EventBytes(e)[0] == EventBytes(f)[0];
    if e.Some? && f.Some? {
      var x, y := e.value, f.value;
      SplitEqual([1, Bit(x.locked)], EventTail(x), [1, Bit(y.locked)], EventTail(y));
      assert [1, Bit(x.locked)][1] == [1, Bit(y.locked)][1];
      EventTailTells(x, y);
    }
  }

  lemma EventTailTells(x: LockEvent, y: LockEvent)
    requires InI32(x.combo) && InI32(y.combo) && EventTail(x) == EventTail(y)
    ensures x.linesCleared == y.linesCleared && x.lineClearScore == y.lineClearScore && x.tspin == y.tspin
    ensures x.combo == y.combo && x.backToBack == y.backToBack
  {
    hide LeBytes, SpinBytes;
    var a := LeBytes(Unsigned32(x.combo), 4) + [Bit(x.backToBack)];
    var b := LeBytes(Unsigned32(y.combo), 4) + [Bit(y.backToBack)];
    WordTells(x.linesCleared, y.linesCleared, LeBytes(x.lineClearScore, 4) + (SpinBytes(x.tspin) + a),
              LeBytes(y.lineClearScore, 4) + (SpinBytes(y.tspin) + b));
    WordTells(x.lineClearScore, y.lineClearScore, SpinBytes(x.tspin) + a, SpinBytes(y.tspin) + b);
    SpinTells(x.tspin, y.tspin, a, b);
    WordTells(Unsigned32(x.combo), Unsigned32(y.combo), [Bit(x.backToBack)], [Bit(y.backToBack)]);
    assert [Bit(x.backToBack)][0] == [Bit(y.backToBack)][0];
  }

  function WordsOf(s: Snapshot): (ns: seq<u32>)
    ensures |ns| == 10
  {
    [s.episodeId, s.pieceId, s.stepInPiece, s.seed, s.score, s.level, s.lines, s.dropMs, s.lockMs, s.lineClearMs]
  }

  function FlagBytes(s: Snapshot): seq<nat> {
    [Bit(s.paused), Bit(s.gameOver)]
  }

  /** The bytes of a snapshot, grouped from the right. */
  lemma Grouped(s: Snapshot, rest: seq<nat>)
    ensures SnapshotBytes(s) + rest ==
      LeBytes(s.boardHash, 8) + (LeBytes(s.boardId, 4) + (PieceBytes(s.active) + (HoldBytes(s.hold) +
        ([Bit(s.canHold)] + (KindCodes(s.nextQueue) + (FlagBytes(s) + (Words(WordsOf(s)) + rest)))))))
  {
    hide LeBytes, PieceBytes, HoldBytes, KindCodes, Words;
  }

  /** A snapshot as any game shows it: coordinates in a signed byte, five previews. */
  predicate Showable(s: Snapshot) {
    (s.active.Some? ==> InI8(s.active.value)) && |s.nextQueue| == 5
  }

  /** The same in everything that is hashed. */
  predicate ShowsSame(a: Snapshot, b: Snapshot) {
    && a.boardHash == b.boardHash && a.boardId == b.boardId && a.active == b.active && a.hold == b.hold
    && a.canHold == b.canHold && a.nextQueue == b.nextQueue && a.paused == b.paused && a.gameOver == b.gameOver
    && a.episodeId == b.episodeId && a.pieceId == b.pieceId && a.stepInPiece == b.stepInPiece && a.seed == b.seed
    && a.score == b.score && a.level == b.level && a.lines == b.lines
    && a.dropMs == b.dropMs && a.lockMs == b.lockMs && a.lineClearMs == b.lineClearMs
  }

  lemma FlagsTell(a: Snapshot, b: Snapshot, x: seq<nat>, y: seq<nat>)
    requires Showable(a) && Showable(b)
    requires [Bit(a.canHold)] + (KindCodes(a.nextQueue) + (FlagBytes(a) + (Words(WordsOf(a)) + x))) ==
             [Bit(b.canHold)] + (KindCodes(b.nextQueue) + (FlagBytes(b) + (Words(WordsOf(b)) + y)))
    ensures a.canHold == b.canHold && a.nextQueue == b.nextQueue && a.paused == b.paused && a.gameOver == b.gameOver
    ensures WordsOf(a) == WordsOf(b) && x == y
  {
    hide KindCodes, Words, WordsOf, LeBytes;
    var p, q := Words(WordsOf(a)) + x, Words(WordsOf(b)) + y;
    var k, l := KindCodes(a.nextQueue) + (FlagBytes(a) + p), KindCodes(b.nextQueue) + (FlagBytes(b) + q);
    SplitEqual([Bit(a.canHold)], k, [Bit(b.canHold)], l);
    assert [Bit(a.canHold)][0] == [Bit(b.canHold)][0];
    KindsLength(a.nextQueue);
    KindsLength(b.nextQueue);
    SplitEqual(KindCodes(a.nextQueue), FlagBytes(a) + p, KindCodes(b.nextQueue), FlagBytes(b) + q);
    KindsTell(a.nextQueue, b.nextQueue);
    SplitEqual(FlagBytes(a), p, FlagBytes(b), q);
    assert FlagBytes(a)[0] == FlagBytes(b)[0] && FlagBytes(a)[1] == FlagBytes(b)[1];
    WordsLength(WordsOf(a));
    WordsLength(WordsOf(b));
    SplitEqual(Words(WordsOf(a)), x, Words(WordsOf(b)), y);
    WordsTell(WordsOf(a), WordsOf(b));
  }

  lemma KindsLength(kinds: seq<PieceKind>)
    ensures |KindCodes(kinds)| == |kinds|
  {
  }

  lemma WordsOfTell(a: Snapshot, b: Snapshot)
    requires WordsOf(a) == WordsOf(b)
    ensures a.episodeId == b.episodeId && a.pieceId == b.pieceId && a.stepInPiece == b.stepInPiece && a.seed == b.seed
    ensures a.score == b.score && a.level == b.level && a.lines == b.lines
    ensures a.dropMs == b.dropMs && a.lockMs == b.lockMs && a.lineClearMs == b.lineClearMs
  {
    assert forall i :: 0 <= i < 10 ==> WordsOf(a)[i] == WordsOf(b)[i];
  }

  /**
    What is hashed determines what is shown: snapshots with an event whose bytes agree agree in every
    hashed field, and so do the events. The board takes part through its own hash.
  */
  lemma BytesTell(a: Snapshot, e: Option<LockEvent>, b: Snapshot, f: Option<LockEvent>)
    requires Showable(a) && Showable(b)
    requires (e.Some? ==> InI32(e.value.combo)) && (f.Some? ==> InI32(f.value.combo))
    requires SnapshotBytes(a) + EventBytes(e) == SnapshotBytes(b) + EventBytes(f)
    ensures ShowsSame(a, b) && e == f
  {
    hide LeBytes, PieceBytes, HoldBytes, KindCodes, Words, WordsOf, SnapshotBytes, EventBytes, FlagBytes;
    var x, y := EventBytes(e), EventBytes(f);
    Grouped(a, x);
    Grouped(b, y);
    var k := [Bit(a.canHold)] + (KindCodes(a.nextQueue) + (FlagBytes(a) + (Words(WordsOf(a)) + x)));
    var l := [Bit(b.canHold)] + (KindCodes(b.nextQueue) + (FlagBytes(b) + (Words(WordsOf(b)) + y)));
    LongTells(a.boardHash, b.boardHash, LeBytes(a.boardId, 4) + (PieceBytes(a.active) + (HoldBytes(a.hold) + k)),
              LeBytes(b.boardId, 4) + (PieceBytes(b.active) + (HoldBytes(b.hold) + l)));
    WordTells(a.boardId, b.boardId, PieceBytes(a.active) + (HoldBytes(a.hold) + k),
              PieceBytes(b.active) + (HoldBytes(b.hold) + l));
    PieceTells(a.active, b.active, HoldBytes(a.hold) + k, HoldBytes(b.hold) + l);
    HoldTells(a.hold, b.hold, k, l);
    FlagsTell(a, b, x, y);
    WordsOfTell(a, b);
    EventTells(e, f);
  }

  lemma {:induction false} FlatTells(a: seq<seq<nat>>, b: seq<seq<nat>>, width: nat)
    requires |a| == |b| && Flat(a) == Flat(b)
    requires forall i :: 0 <= i < |a| ==> |a[i]| == width && |b[i]| == width
    ensures a == b
  {
    if a == [] {
    } else {
      SplitEqual(a[0], Flat(a[1..]), b[0], Flat(b[1..]));
      FlatTells(a[1..], b[1..], width);
      assert a == [a[0]] + a[1..] && b == [b[0]] + b[1..];
    }
  }

  lemma CellTells(c: Cell, d: Cell)
    requires CellCode(c) == CellCode(d)
    ensures c == d
  {
  }

  lemma RowTells(r: Row, q: Row)
    requires RowCodes(r) == RowCodes(q)
    ensures r == q
  {
    forall x | 0 <= x < |r|
      ensures r[x] == q[x]
    {
      assert RowCodes(r)[x] == RowCodes(q)[x];
      CellTells(r[x], q[x]);
    }
  }

  /** The bytes the board hash is folded over determine the board. */
  lemma BoardTells(g: Grid, h: Grid)
    requires Flat(GridCodes(g)) == Flat(GridCodes(h))
    ensures g == h
  {
    hide RowCodes;
    FlatTells(GridCodes(g), GridCodes(h), WIDTH);
    forall y | 0 <= y < HEIGHT
      ensures g[y] == h[y]
    {
      assert GridCodes(g)[y] == GridCodes(h)[y];
      RowTells(g[y], h[y]);
    }
  }

  /** A snapshot tells of its game all that an observer is shown. */
  lemma SnapshotTells(s: Game, t: Game)
    requires SnapshotOf(s) == SnapshotOf(t)
    ensures s.board == t.board && s.active == t.active && s.hold == t.hold && s.nextQueue == t.nextQueue
    ensures s.flags.canHold == t.flags.canHold && s.flags.paused == t.flags.paused
    ensures s.flags.gameOver == t.flags.gameOver
    ensures s.ids.board == t.ids.board && s.ids.episode == t.ids.episode && s.ids.piece == t.ids.piece
    ensures s.ids.step == t.ids.step && s.queue.episodeSeed == t.queue.episodeSeed
    ensures s.tally.score == t.tally.score && s.tally.level == t.tally.level && s.tally.lines == t.tally.lines
    ensures s.timers.drop == t.timers.drop && s.timers.lock == t.timers.lock
    ensures s.timers.lineClear == t.timers.lineClear
  {
    hide GridCodes, BoardHash, GhostY;
    BoardTells(s.board, t.board);
  }

  // ---- transitions -----------------------------------------------------

  lemma {:induction false} EventsTell(a: Snapshot, es: seq<LockEvent>, b: Snapshot, fs: seq<LockEvent>,
                                      x: seq<nat>, y: seq<nat>)
    requires |es| == |fs| && EventHashes(a, es) + x == EventHashes(b, fs) + y
    ensures x == y && forall i :: 0 <= i < |es| ==> StableHash(a, Some(es[i])) == StableHash(b, Some(fs[i]))
    decreases |es|
  {
    hide LeBytes, StableHash;
    if es == [] {
      assert EventHashes(a, es) + x == x && EventHashes(b, fs) + y == y;
    } else {
      var k, l := EventHashes(a, es[1..]) + x, EventHashes(b, fs[1..]) + y;
      EventsFirst(a, es, x);
      EventsFirst(b, fs, y);
      LongTells(StableHash(a, Some(es[0])), StableHash(b, Some(fs[0])), k, l);
      EventsTell(a, es[1..], b, fs[1..], x, y);
      forall i | 0 <= i < |es|
        ensures StableHash(a, Some(es[i])) == StableHash(b, Some(fs[i]))
      {
        if i > 0 { assert es[i] == es[1..][i - 1] && fs[i] == fs[1..][i - 1]; }
      }
    }
  }

  lemma EventsFirst(a: Snapshot, es: seq<LockEvent>, x: seq<nat>)
    requires es != []
    ensures EventHashes(a, es) + x == LeBytes(StableHash(a, Some(es[0])), 8) + (EventHashes(a, es[1..]) + x)
  {
    hide LeBytes, StableHash;
  }

  lemma CodesTell(p: seq<Outcome>, q: seq<Outcome>)
    requires |p| == |q| && OutcomeCodes(p) == OutcomeCodes(q)
    ensures p == q
  {
    forall i | 0 <= i < |p|
      ensures p[i] == q[i]
    {
      assert OutcomeCodes(p)[i] == OutcomeCodes(q)[i];
    }
  }

  /** The bytes of a transition determine its number, the hash of each event, and the outcomes. */
  lemma TransitionTells(a: Snapshot, m: u64, es: seq<LockEvent>, os: seq<Outcome>,
                        b: Snapshot, n: u64, fs: seq<LockEvent>, qs: seq<Outcome>)
    requires |es| < TWO_TO_64 && |fs| < TWO_TO_64 && |os| < TWO_TO_64 && |qs| < TWO_TO_64
    requires TransitionBytes(a, m, es, os) == TransitionBytes(b, n, fs, qs)
    ensures m == n && |es| == |fs| && os == qs
    ensures forall i :: 0 <= i < |es| ==> StableHash(a, Some(es[i])) == StableHash(b, Some(fs[i]))
  {
    hide LeBytes, EventHashes, OutcomeCodes, StableHash;
    var x, y := LeBytes(|os|, 8) + OutcomeCodes(os), LeBytes(|qs|, 8) + OutcomeCodes(qs);
    assert TransitionBytes(a, m, es, os) == LeBytes(m, 8) + (LeBytes(|es|, 8) + (EventHashes(a, es) + x));
    assert TransitionBytes(b, n, fs, qs) == LeBytes(n, 8) + (LeBytes(|fs|, 8) + (EventHashes(b, fs) + y));
    LongTells(m, n, LeBytes(|es|, 8) + (EventHashes(a, es) + x), LeBytes(|fs|, 8) + (EventHashes(b, fs) + y));
    LongTells(|es|, |fs|, EventHashes(a, es) + x, EventHashes(b, fs) + y);
    EventsTell(a, es, b, fs, x, y);
    LongTells(|os|, |qs|, OutcomeCodes(os), OutcomeCodes(qs));
    CodesTell(os, qs);
  }

  // ---- the fold --------------------------------------------------------

  /** The inverse of the multiplier modulo 2^64. */
  const INVERSE: int := 0xce965057aff6957b

  lemma TimesPrime(a: u64, b: u64)
    requires (a * PRIME) % TWO_TO_64 == (b * PRIME) % TWO_TO_64
    ensures a == b
  {
    Undone(a);
    Undone(b);
  }

  lemma Undone(a: u64)
    ensures ((a * PRIME) % TWO_TO_64 * INVERSE) % TWO_TO_64 == a
  {
    var k, r := a * PRIME / TWO_TO_64, (a * PRIME) % TWO_TO_64;
    Divided(a * PRIME);
    Inverted(a, k, r);
    AroundTo(a, a * 0xce9650590f - k * INVERSE);
  }

  lemma Divided(n: nat)
    ensures n == TWO_TO_64 * (n / TWO_TO_64) + n % TWO_TO_64
  {
  }

  lemma Inverted(a: int, k: int, r: int)
    requires a * PRIME == TWO_TO_64 * k + r
    ensures r * INVERSE == a + TWO_TO_64 * (a * 0xce9650590f - k * INVERSE)
  {
    assert PRIME * INVERSE == 1 + 0xce9650590f * TWO_TO_64;
  }

  lemma AroundTo(a: u64, q: int)
    ensures (a + TWO_TO_64 * q) % TWO_TO_64 == a
  {
  }

  function TwoTo(bits: nat): nat {
    if bits == 0 then 1 else 2 * TwoTo(bits - 1)
  }

  lemma {:induction false} XorFits(a: nat, b: nat, bits: nat)
    ensures XorBits(a, b, bits) < TwoTo(bits)
  {
    if bits == 0 {
    } else {
      XorFits(a / 2, b / 2, bits - 1);
    }
  }

  /** Of two numbers and their exclusive or, any two determine the third. */
  lemma {:induction false} XorBitsTell(a: nat, b: nat, c: nat, d: nat, bits: nat)
    requires a < TwoTo(bits) && b < TwoTo(bits) && c < TwoTo(bits) && d < TwoTo(bits)
    requires XorBits(a, b, bits) == XorBits(c, d, bits)
    ensures a == c <==> b == d
  {
    if bits == 0 {
    } else {
      XorBitsTell(a / 2, b / 2, c / 2, d / 2, bits - 1);
    }
  }

  lemma EightBits()
    ensures TwoTo(8) == 256
  {
    assert TwoTo(1) == 2 && TwoTo(2) == 4 && TwoTo(3) == 8 && TwoTo(4) == 16;
    assert TwoTo(5) == 2 * TwoTo(4) && TwoTo(6) == 2 * TwoTo(5) && TwoTo(7) == 2 * TwoTo(6);
  }

  lemma XorTells(a: nat, b: nat, c: nat, d: nat)
    requires Xor8(a, b) == Xor8(c, d)
    ensures a % 256 == c % 256 <==> b % 256 == d % 256
  {
    hide XorBits;
    EightBits();
    XorBitsTell(a % 256, b % 256, c % 256, d % 256, 8);
  }

  lemma XorIsByte(a: nat, b: nat)
    ensures Xor8(a, b) < 256
  {
    hide XorBits;
    EightBits();
    XorFits(a % 256, b % 256, 8);
  }

  lemma LowByte(h: u64, l: nat, k: u64, m: nat)
    requires l < 256 && m < 256 && h - h % 256 + l == k - k % 256 + m
    ensures l == m && h / 256 == k / 256
  {
  }

  lemma InRange(h: u64, l: nat)
    requires l < 256
    ensures 0 <= h - h % 256 + l < TWO_TO_64
  {
  }

  /** Folding a byte loses neither the hash before nor the byte. */
  lemma FoldTells(h: u64, b: nat, k: u64, c: nat)
    requires b < 256 && c < 256 && HashByte(h, b) == HashByte(k, c)
    ensures h == k <==> b == c
  {
    hide Xor8;
    var l, m := Xor8(h, b), Xor8(k, c);
    XorIsByte(h, b);
    XorIsByte(k, c);
    InRange(h, l);
    InRange(k, m);
    TimesPrime(h - h % 256 + l, k - k % 256 + m);
    LowByte(h, l, k, m);
    XorTells(h, b, k, c);
    assert h == 256 * (h / 256) + h % 256 && k == 256 * (k / 256) + k % 256;
  }

  predicate Bytes(bytes: seq<nat>) {
    forall i :: 0 <= i < |bytes| ==> bytes[i] < 256
  }

  /** Different hashes stay different under the same further bytes. */
  lemma {:induction false} StaysApart(h: u64, k: u64, bytes: seq<nat>)
    requires h != k && Bytes(bytes)
    ensures HashBytes(h, bytes) != HashBytes(k, bytes)
    decreases |bytes|
  {
    hide HashByte;
    if bytes == [] {
    } else {
      if HashByte(h, bytes[0]) == HashByte(k, bytes[0]) { FoldTells(h, bytes[0], k, bytes[0]); }
      StaysApart(HashByte(h, bytes[0]), HashByte(k, bytes[0]), bytes[1..]);
    }
  }

  /** A changed byte changes the hash, wherever it stands. */
  lemma OneByteShows(h: u64, front: seq<nat>, b: nat, c: nat, back: seq<nat>)
    requires Bytes(back) && b < 256 && c < 256 && b != c
    ensures HashBytes(h, front + [b] + back) != HashBytes(h, front + [c] + back)
  {
    hide HashByte, HashBytes;
    var k := HashBytes(h, front);
    HashBytesAppend(h, front + [b], back);
    HashBytesAppend(h, front + [c], back);
    HashBytesAppend(h, front, [b]);
    HashBytesAppend(h, front, [c]);
    OneByte(k, b);
    OneByte(k, c);
    if HashByte(k, b) == HashByte(k, c) { FoldTells(k, b, k, c); }
    StaysApart(HashByte(k, b), HashByte(k, c), back);
  }

  lemma OneByte(h: u64, b: nat)
    ensures HashBytes(h, [b]) == HashByte(h, b)
  {
    hide HashByte;
    assert HashBytes(h, [b]) == HashBytes(HashByte(h, b), []);
  }

  // ---- an altered tape -------------------------------------------------

  lemma {:induction false} LeBytesAre(n: nat, count: nat)
    ensures Bytes(LeBytes(n, count))
  {
    if count == 0 {
    } else {
      LeBytesAre(n / 256, count - 1);
    }
  }

  lemma {:induction false} WordsAre(ns: seq<u32>)
    ensures Bytes(Words(ns))
  {
    hide LeBytes;
    if ns == [] {
    } else {
      LeBytesAre(ns[0], 4);
      WordsAre(ns[1..]);
    }
  }

  lemma EventBytesAre(e: Option<LockEvent>)
    ensures Bytes(EventBytes(e))
  {
    hide LeBytes;
    if e.Some? {
      LeBytesAre(e.value.linesCleared, 4);
      LeBytesAre(e.value.lineClearScore, 4);
      LeBytesAre(Unsigned32(e.value.combo), 4);
    }
  }

  /** The bytes after the active piece. */
  function Behind(s: Snapshot): seq<nat> {
    HoldBytes(s.hold) + [Bit(s.canHold)] + KindCodes(s.nextQueue) + FlagBytes(s) + Words(WordsOf(s))
  }

  lemma BehindAre(s: Snapshot)
    ensures Bytes(Behind(s))
  {
    hide Words, WordsOf;
    WordsAre(WordsOf(s));
  }

  /** The bytes before the column of the active piece. */
  function Before(s: Snapshot, p: Tetromino): seq<nat> {
    LeBytes(s.boardHash, 8) + LeBytes(s.boardId, 4) + [1, KindCode(p.kind), RotationCode(p.rotation)]
  }

  lemma AroundColumn(s: Snapshot, p: Tetromino, rest: seq<nat>)
    requires s.active == Some(p)
    ensures SnapshotBytes(s) + rest == Before(s, p) + [p.x % 256] + ([p.y % 256] + Behind(s) + rest)
  {
    hide LeBytes, HoldBytes, KindCodes, Words;
    assert PieceBytes(s.active) == [1, KindCode(p.kind), RotationCode(p.rotation)] + [p.x % 256] + [p.y % 256];
  }

  /** Snapshots that differ in the column of the active piece alone have different hashes. */
  lemma ColumnShows(s: Snapshot, p: Tetromino, x: int, e: Option<LockEvent>)
    requires s.active == Some(p) && -128 <= p.x < 128 && -128 <= x < 128 && x != p.x
    ensures StableHash(s, e) != StableHash(s.(active := Some(p.(x := x))), e)
  {
    hide SnapshotBytes, EventBytes, HashBytes, LeBytes, Behind, Before;
    var t, q := s.(active := Some(p.(x := x))), p.(x := x);
    AroundColumn(s, p, EventBytes(e));
    AroundColumn(t, q, EventBytes(e));
    assert Behind(s) == Behind(t) && Before(s, p) == Before(t, q) by { SameAround(s, t, p, q); }
    BehindAre(s);
    EventBytesAre(e);
    if p.x % 256 == x % 256 { ByteTells(p.x, x); }
    OneByteShows(OFFSET_BASIS, Before(s, p), p.x % 256, x % 256, [p.y % 256] + Behind(s) + EventBytes(e));
  }

  lemma SameAround(s: Snapshot, t: Snapshot, p: Tetromino, q: Tetromino)
    requires t == s.(active := t.active) && q == p.(x := q.x)
    ensures Behind(s) == Behind(t) && Before(s, p) == Before(t, q)
  {
  }

  lemma {:induction false} EventHashBytes(s: Snapshot, events: seq<LockEvent>)
    ensures Bytes(EventHashes(s, events))
  {
    hide LeBytes, StableHash;
    if events == [] {
    } else {
      LeBytesAre(StableHash(s, Some(events[0])), 8);
      EventHashBytes(s, events[1..]);
    }
  }

  /** A transition without events shows the snapshot's own hash through whatever follows it. */
  lemma QuietTransition(a: Snapshot, b: Snapshot, step: u64, outcomes: seq<Outcome>)
    requires StableHash(a, None) != StableHash(b, None)
    ensures TransitionHash(a, step, [], outcomes) != TransitionHash(b, step, [], outcomes)
  {
    hide LeBytes, StableHash, HashBytes, OutcomeCodes;
    var bytes := TransitionBytes(a, step, [], outcomes);
    assert bytes == TransitionBytes(b, step, [], outcomes);
    LeBytesAre(step, 8);
    LeBytesAre(0, 8);
    LeBytesAre(|outcomes|, 8);
    assert Bytes(OutcomeCodes(outcomes)) by { CodesAre(outcomes); }
    assert Bytes(EventHashes(a, []));
    StaysApart(StableHash(a, None), StableHash(b, None), bytes);
  }

  lemma CodesAre(outcomes: seq<Outcome>)
    ensures Bytes(OutcomeCodes(outcomes))
  {
  }

  const STEP_LEFT: StepInput := StepInput([], [MoveLeft])

  const STEP_RIGHT: StepInput := StepInput([], [MoveRight])

  /** The first step of a game with a move to one side. */
  function Aside(s: Game, dx: int): Game
    requires s.active.Some?
  {
    s.(active := Some(s.active.value.Moved(dx, 0)), timers := s.timers.(drop := TICK_MS), ids := s.ids.(step := 1))
  }

  lemma OpeningFacts(seed: u32)
    ensures var s := IdlePlay.Session(seed);
      && Runs(s) && s.board == EmptyGrid() && s.active == Some(Spawned(Front(Fresh(seed))))
      && s.timers == Timers(0, 0, 0, 0, 0, 0) && !s.flags.softDropping && !s.flags.rotatedLast && s.ids.step == 0
      && s.tally.level == 0 && s.lastEvent == None
  {
    hide Fits, Preview, Front, Drawn, Fresh, EmptyGrid;
    EmptyFieldFits(Spawned(Front(Fresh(seed))));
  }

  lemma BesideOnEmpty(kind: PieceKind, dx: int)
    requires dx == -1 || dx == 1
    ensures var p := Spawned(kind).Moved(dx, 0); Fits(EmptyGrid(), p) && !Grounded(EmptyGrid(), p)
  {
  }

  lemma FirstMove(seed: u32, right: bool)
    ensures var s := IdlePlay.Session(seed);
      s.active.Some? && Played(s, if right then STEP_RIGHT else STEP_LEFT) == Aside(s, if right then 1 else -1)
  {
    hide Fits, Grounded, Preview, Front, Drawn, Fresh, EmptyGrid, IdlePlay.Session;
    var s := IdlePlay.Session(seed);
    OpeningFacts(seed);
    BesideOnEmpty(Front(Fresh(seed)), if right then 1 else -1);
    OneAction(s, if right then MoveRight else MoveLeft);
  }

  lemma FirstStep(seed: u32, right: bool)
    ensures var x := NewSession(seed);
      var g := IdlePlay.Session(seed);
      && g.active.Some?
      && NextHash(x, if right then STEP_RIGHT else STEP_LEFT) ==
           TransitionHash(WithMeta(x.store.snapshot, Aside(g, if right then 1 else -1)), 1, [], [])
  {
    hide Played, StableHash, TransitionHash, IdlePlay.Session, GridCodes, BoardHash, GhostY;
    FirstMove(seed, right);
    OpeningFacts(seed);
    assert ApplyCommands(IdlePlay.Session(seed), []).1 == [];
  }

  /** Two first moves show snapshots that differ in the column of the piece, and in the ghost row at most. */
  lemma FirstShown(out: Snapshot, g: Game)
    requires g.active.Some? && g.active.value.x == 3
    ensures StableHash(WithMeta(out, Aside(g, -1)), None) != StableHash(WithMeta(out, Aside(g, 1)), None)
  {
    hide SnapshotBytes, EventBytes, HashBytes, GhostY;
    var a, b := WithMeta(out, Aside(g, -1)), WithMeta(out, Aside(g, 1));
    var p := g.active.value.Moved(-1, 0);
    ColumnShows(a, p, 4, None);
    assert SnapshotBytes(a.(active := Some(p.(x := 4)))) == SnapshotBytes(b) by {
      GhostNotHashed(a.(active := Some(p.(x := 4))), b);
    }
  }

  lemma GhostNotHashed(a: Snapshot, b: Snapshot)
    requires b == a.(ghostY := b.ghostY)
    ensures SnapshotBytes(a) == SnapshotBytes(b)
  {
  }

  /**
    From every seed: a tape that records a first step to the left, its input then changed to a step to
    the right, does not verify.
  */
  lemma AlteredMoveCaught(seed: u32)
    ensures var tape := Record(seed, [STEP_LEFT]);
      var altered := tape.(records := [tape.records[0].(input := STEP_RIGHT)]);
      Verify(tape).Ok? && Verify(altered).Err?
  {
    hide NextHash, StepSession, NewSession, WithMeta, StableHash, TransitionHash;
    var x, g := NewSession(seed), IdlePlay.Session(seed);
    RecordedVerifies(seed, [STEP_LEFT]);
    FirstStep(seed, false);
    FirstStep(seed, true);
    FirstColumn(seed);
    FirstShown(x.store.snapshot, g);
    QuietTransition(WithMeta(x.store.snapshot, Aside(g, -1)), WithMeta(x.store.snapshot, Aside(g, 1)), 1, []);
  }

  lemma FirstColumn(seed: u32)
    ensures IdlePlay.Session(seed).active.Some? && IdlePlay.Session(seed).active.value.x == 3
  {
    hide IdlePlay.Session;
    OpeningFacts(seed);
  }
}
