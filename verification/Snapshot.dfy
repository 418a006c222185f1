/**
  The observable projection of a game and its stable hash
  (crates/tetris-core/src/core/snapshot.rs, state_hash.rs, game_state.rs:206-256).
*/
module Snapshots {
  import opened Types
  import opened Grids
  import opened Pieces
  import opened GameModel
  import opened BoardModule
  import opened GameStateModule

  datatype Snapshot = Snapshot(
    board: seq<seq<nat>>,
    boardId: u32,
    boardHash: u64,
    active: Option<Tetromino>,
    ghostY: Option<int>,
    hold: Option<PieceKind>,
    nextQueue: seq<PieceKind>,
    canHold: bool,
    paused: bool,
    gameOver: bool,
    episodeId: u32,
    seed: u32,
    pieceId: u32,
    stepInPiece: u32,
    score: u32,
    level: u32,
    lines: u32,
    dropMs: u32,
    lockMs: u32,
    lineClearMs: u32)

  function KindCode(kind: PieceKind): (c: nat)
    ensures 1 <= c <= 7
  {
    match kind
    case I => 1
    case O => 2
    case T => 3
    case S => 4
    case Z => 5
    case J => 6
    case L => 7
  }

  function CellCode(c: Cell): nat {
    match c
    case None => 0
    case Some(kind) => KindCode(kind)
  }

  function RowCodes(r: Row): (codes: seq<nat>)
    ensures |codes| == |r|
  {
    seq(|r|, x requires 0 <= x < |r| => CellCode(r[x]))
  }

  function GridCodes(g: Grid): (codes: seq<seq<nat>>)
    ensures |codes| == HEIGHT
  {
    seq(HEIGHT, y requires 0 <= y < HEIGHT => RowCodes(g[y]))
  }

  // ---- FNV-1a ----------------------------------------------------------

  const OFFSET_BASIS: u64 := 0xcbf29ce484222325
  const PRIME: u64 := 0x100000001b3

  /** Exclusive or of the lowest bits, one by one. */
  function XorBits(a: nat, b: nat, bits: nat): nat {
    if bits == 0 then 0 else (if a % 2 == b % 2 then 0 else 1) + 2 * XorBits(a / 2, b / 2, bits - 1)
  }

  /** Exclusive or of two low bytes. */
  function Xor8(a: nat, b: nat): nat {
    XorBits(a % 256, b % 256, 8)
  }

  /** One byte folded into the hash; only the low byte takes part in the exclusive or. */
  function HashByte(h: u64, b: nat): u64 {
    ((h - h % 256 + Xor8(h, b)) * PRIME) % TWO_TO_64
  }

  function HashBytes(h: u64, bytes: seq<nat>): u64
    decreases |bytes|
  {
    if bytes == [] then h else HashBytes(HashByte(h, bytes[0]), bytes[1..])
  }

  function LeBytes(n: nat, count: nat): seq<nat> {
    if count == 0 then [] else [n % 256] + LeBytes(n / 256, count - 1)
  }

  function Flat(rows: seq<seq<nat>>): seq<nat> {
    if rows == [] then [] else rows[0] + Flat(rows[1..])
  }

  function BoardHash(codes: seq<seq<nat>>): u64 {
    HashBytes(OFFSET_BASIS, Flat(codes))
  }

  // ---- projection ------------------------------------------------------

  /** `GameSnapshot::default`. */
  function Blank(): Snapshot {
    Snapshot(seq(HEIGHT, _ => seq(WIDTH, _ => 0)), 0, 0, None, None, None, [I, I, I, I, I], true, false, false,
             0, 0, 0, 0, 0, 0, 0, 0, 0, 0)
  }

  /** `snapshot_board_into`. */
  function WithBoard(out: Snapshot, s: Game): Snapshot {
    out.(board := GridCodes(s.board), boardId := s.ids.board, boardHash := BoardHash(GridCodes(s.board)))
  }

  /** `snapshot_meta_into`: every field but the three about the board. */
  function WithMeta(out: Snapshot, s: Game): Snapshot {
    Snapshot(out.board, out.boardId, out.boardHash, s.active, GhostY(s), s.hold, s.nextQueue, s.flags.canHold,
             s.flags.paused, s.flags.gameOver, s.ids.episode, s.queue.episodeSeed, s.ids.piece, s.ids.step,
             s.tally.score, s.tally.level, s.tally.lines, s.timers.drop, s.timers.lock, s.timers.lineClear)
  }

  function SnapshotOf(s: Game): Snapshot {
    WithMeta(WithBoard(Blank(), s), s)
  }

  // ---- stable hash -----------------------------------------------------

  function Bit(b: bool): nat {
    if b then 1 else 0
  }

  function KindCodes(kinds: seq<PieceKind>): seq<nat> {
    seq(|kinds|, i requires 0 <= i < |kinds| => KindCode(kinds[i]))
  }

  function RotationCode(r: Rotation): nat {
    match r
    case North => 0
    case East => 1
    case South => 2
    case West => 3
  }

  function TSpinCode(t: TSpinKind): nat {
    match t
    case NoSpin => 0
    case Mini => 1
    case Full => 2
  }

  /** Two's complement reading of a 32-bit signed number. */
  function Unsigned32(n: int): nat {
    n % TWO_TO_32
  }

  function SpinBytes(tspin: Option<TSpinKind>): seq<nat> {
    match tspin
    case None => [0]
    case Some(t) => [1, TSpinCode(t)]
  }

  function EventBytes(event: Option<LockEvent>): seq<nat> {
    match event
    case None => [0]
    case Some(e) =>
      [1, Bit(e.locked)] + LeBytes(e.linesCleared, 4) + LeBytes(e.lineClearScore, 4) +
      SpinBytes(e.tspin) +
      LeBytes(Unsigned32(e.combo), 4) + [Bit(e.backToBack)]
  }

  function PieceBytes(active: Option<Tetromino>): seq<nat> {
    match active
    case None => [0]
    case Some(p) => [1, KindCode(p.kind), RotationCode(p.rotation), p.x % 256, p.y % 256]
  }

  function HoldBytes(hold: Option<PieceKind>): seq<nat> {
    match hold
    case None => [0]
    case Some(kind) => [1, KindCode(kind)]
  }

  /** 32-bit numbers, little-endian, one after another. */
  function Words(ns: seq<u32>): seq<nat> {
    if ns == [] then [] else LeBytes(ns[0], 4) + Words(ns[1..])
  }

  /** The snapshot's fields in hashing order. */
  function SnapshotBytes(s: Snapshot): seq<nat> {
    LeBytes(s.boardHash, 8) + LeBytes(s.boardId, 4) + PieceBytes(s.active) + HoldBytes(s.hold) +
    [Bit(s.canHold)] + KindCodes(s.nextQueue) + [Bit(s.paused), Bit(s.gameOver)] +
    Words([s.episodeId, s.pieceId, s.stepInPiece, s.seed, s.score, s.level, s.lines, s.dropMs, s.lockMs, s.lineClearMs])
  }

  function StableHash(s: Snapshot, event: Option<LockEvent>): u64 {
    HashBytes(OFFSET_BASIS, SnapshotBytes(s) + EventBytes(event))
  }

  // ---- implementation --------------------------------------------------

  method FoldBytes(h: u64, bytes: seq<nat>) returns (r: u64)
    ensures r == HashBytes(h, bytes)
  {
    hide HashByte;
    r := h;
    var i := 0;
    while i < |bytes|
      invariant 0 <= i <= |bytes|
      invariant HashBytes(r, bytes[i..]) == HashBytes(h, bytes)
    {
      r := HashByte(r, bytes[i]);
      i := i + 1;
    }
  }

  lemma {:induction false} HashBytesAppend(h: u64, a: seq<nat>, b: seq<nat>)
    ensures HashBytes(h, a + b) == HashBytes(HashBytes(h, a), b)
    decreases |a|
  {
    hide HashByte;
    if a == [] {
      assert a + b == b;
    } else {
      assert (a + b)[1..] == a[1..] + b;
      HashBytesAppend(HashByte(h, a[0]), a[1..], b);
    }
  }

  /** `stable_state_hash`: the snapshot's fields, then the event. */
  method StableStateHash(snapshot: Snapshot, event: Option<LockEvent>) returns (hash: u64)
    ensures hash == StableHash(snapshot, event)
  {
    hide HashBytes, SnapshotBytes, EventBytes;
    hash := FoldBytes(OFFSET_BASIS, SnapshotBytes(snapshot));
    hash := FoldBytes(hash, EventBytes(event));
    HashBytesAppend(OFFSET_BASIS, SnapshotBytes(snapshot), EventBytes(event));
  }

  /** `write_u8_grid`: the flat cells read row by row. */
  method WriteGrid(board: Board) returns (rows: seq<seq<nat>>)
    requires board.Valid()
    ensures rows == GridCodes(board.Grid())
  {
    rows := [];
    var y := 0;
    while y < HEIGHT
      invariant 0 <= y <= HEIGHT
      invariant rows == GridCodes(board.Grid())[..y]
    {
      var row := [];
      var x := 0;
      while x < WIDTH
        invariant 0 <= x <= WIDTH
        invariant row == RowCodes(board.Grid()[y])[..x]
      {
        assert board.Grid()[y][x] == board.cells[y * WIDTH + x];
        row := row + [CellCode(board.cells[y * WIDTH + x])];
        x := x + 1;
      }
      assert row == RowCodes(board.Grid()[y]);
      rows := rows + [row];
      y := y + 1;
    }
  }

  method SnapshotBoardInto(game: GameState, out: Snapshot) returns (r: Snapshot)
    requires game.Valid()
    ensures r == WithBoard(out, game.Abs())
  {
    hide BoardHash, GridCodes, Board.Grid;
    var codes := WriteGrid(game.board);
    r := out.(board := codes, boardId := game.ids.board, boardHash := BoardHash(codes));
  }

  method SnapshotMetaInto(game: GameState, out: Snapshot) returns (r: Snapshot)
    requires game.Valid()
    ensures r == WithMeta(out, game.Abs())
  {
    hide Board.Grid, GameModel.GhostY;
    var ghostY := game.GhostY();
    r := Snapshot(out.board, out.boardId, out.boardHash, game.active, ghostY, game.hold, game.nextQueue,
                  game.flags.canHold, game.flags.paused, game.flags.gameOver, game.ids.episode,
                  game.pieceQueue.episodeSeed, game.ids.piece, game.ids.step, game.tally.score, game.tally.level,
                  game.tally.lines, game.timers.drop, game.timers.lock, game.timers.lineClear);
  }
}
