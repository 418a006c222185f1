/** The seeded seven-bag generator (crates/tetris-core/src/core/rng.rs). */
module QueueModule {
  import opened Types

  /** The unshuffled bag. */
  function Kinds(): (s: seq<PieceKind>)
    ensures |s| == 7
  {
    [I, O, T, S, Z, J, L]
  }

  // ---- specification ---------------------------------------------------

  function NextState(state: u32): u32 {
    (state * 1664525 + 1013904223) % TWO_TO_32
  }

  function Swapped<X>(s: seq<X>, i: nat, j: nat): seq<X>
    requires i < |s| && j < |s|
  {
    s[i := s[j]][j := s[i]]
  }

  /** Fisher-Yates from position i down to 1; also returns the generator state reached. */
  function Shuffled<X>(s: seq<X>, i: nat, state: u32): (r: (seq<X>, u32))
    requires i < |s| || i == 0
    ensures |r.0| == |s|
    decreases i
  {
    if i == 0 then (s, state)
    else
      var next := NextState(state);
      Shuffled(Swapped(s, i, next % (i + 1)), i - 1, next)
  }

  function Shuffle<X>(s: seq<X>, state: u32): (r: (seq<X>, u32))
    ensures |r.0| == |s|
  {
    Shuffled(s, if s == [] then 0 else |s| - 1, state)
  }

  lemma SwappedKeeps<X>(s: seq<X>, i: nat, j: nat)
    requires i < |s| && j < |s|
    ensures multiset(Swapped(s, i, j)) == multiset(s)
  {
  }

  lemma {:induction false} ShuffledKeeps<X>(s: seq<X>, i: nat, state: u32)
    requires i < |s| || i == 0
    ensures multiset(Shuffled(s, i, state).0) == multiset(s)
    decreases i
  {
    if i > 0 {
      var next := NextState(state);
      SwappedKeeps(s, i, next % (i + 1));
      ShuffledKeeps(Swapped(s, i, next % (i + 1)), i - 1, next);
    }
  }

  /** A permutation of the seven kinds. */
  ghost predicate OneOfEach(bag: seq<PieceKind>) {
    multiset(bag) == multiset(Kinds())
  }

  datatype Queue = Queue(episodeSeed: u32, bag: seq<PieceKind>, index: nat, rng: u32)

  /** Seven slots, and the read position is inside them or just past them. */
  predicate QueueShape(q: Queue) {
    |q.bag| == 7 && q.index <= 7
  }

  /** Besides, the bag holds each kind once. */
  ghost predicate QueueOk(q: Queue) {
    QueueShape(q) && OneOfEach(q.bag)
  }

  function Refilled(q: Queue): (r: Queue)
    ensures QueueShape(r) && r.index == 0
  {
    var (bag, state) := Shuffle(Kinds(), q.rng);
    q.(bag := bag, index := 0, rng := state)
  }

  function NewQueue(seed: u32): Queue {
    Refilled(Queue(seed, Kinds(), 0, seed))
  }

  /** The queue ready to read: refilled when its bag is used up. */
  function Ready(q: Queue): Queue {
    if q.index >= 7 then Refilled(q) else q
  }

  function Front(q: Queue): PieceKind
    requires QueueShape(q)
  {
    Ready(q).bag[Ready(q).index]
  }

  function Drawn(q: Queue): Queue {
    Ready(q).(index := Ready(q).index + 1)
  }

  /** The first five of what is left of this bag followed by the next bag. */
  function Preview(q: Queue): (five: seq<PieceKind>)
    requires QueueShape(q)
    ensures |five| == 5
  {
    (q.bag[q.index..] + Refilled(q).bag)[..5]
  }

  lemma RefilledOk(q: Queue)
    ensures QueueOk(Refilled(q)) && Refilled(q).index == 0
  {
    ShuffledKeeps(Kinds(), |Kinds()| - 1, q.rng);
  }

  lemma DrawnOk(q: Queue)
    requires QueueOk(q)
    ensures QueueOk(Drawn(q)) && Drawn(q).index >= 1
  {
    hide Shuffle, OneOfEach;
    RefilledOk(q);
  }

  // ---- the stream of draws ---------------------------------------------

  function After(q: Queue, n: nat): Queue
    decreases n
  {
    if n == 0 then q else After(Drawn(q), n - 1)
  }

  /** The next n draws. */
  function Draws(q: Queue, n: nat): (s: seq<PieceKind>)
    requires QueueShape(q)
    ensures |s| == n
    decreases n
  {
    if n == 0 then []
    else
      [Front(q)] + Draws(Drawn(q), n - 1)
  }

  lemma {:induction false} DrawsSplit(q: Queue, m: nat, n: nat)
    requires QueueOk(q)
    ensures QueueOk(After(q, m))
    ensures Draws(q, m + n) == Draws(q, m) + Draws(After(q, m), n)
    decreases m
  {
    hide Shuffle, OneOfEach;
    if m == 0 {
      assert Draws(q, 0) == [];
    } else {
      DrawnOk(q);
      DrawsSplit(Drawn(q), m - 1, n);
      assert Draws(q, m + n) == [Front(q)] + (Draws(Drawn(q), m - 1) + Draws(After(q, m), n));
    }
  }

  /** While the bag lasts, draws read it left to right. */
  lemma {:induction false} DrawsFromBag(q: Queue, n: nat)
    requires QueueOk(q) && q.index + n <= 7
    ensures Draws(q, n) == q.bag[q.index..q.index + n]
    ensures After(q, n) == q.(index := q.index + n)
    decreases n
  {
    hide Shuffle, OneOfEach;
    if n == 0 {
    } else {
      DrawnOk(q);
      assert Drawn(q) == q.(index := q.index + 1) && Front(q) == q.bag[q.index];
      DrawsFromBag(Drawn(q), n - 1);
      assert q.bag[q.index..q.index + n] == [q.bag[q.index]] + q.bag[q.index + 1..q.index + n];
    }
  }

  lemma {:induction false} ReadyStream(q: Queue, n: nat)
    requires QueueOk(q)
    ensures QueueOk(Ready(q)) && Draws(q, n) == Draws(Ready(q), n)
    ensures n > 0 ==> After(q, n) == After(Ready(q), n)
  {
    hide Shuffle, OneOfEach;
    RefilledOk(q);
  }

  /** What is left of this bag and then the next bag, read n deep, are the next n draws. */
  lemma BagsAhead(q: Queue, n: nat)
    requires QueueOk(q) && n <= 14 - q.index
    ensures |Refilled(q).bag| == 7
    ensures (q.bag[q.index..] + Refilled(q).bag)[..n] == Draws(q, n)
  {
    hide Shuffle, OneOfEach, After, Draws;
    RefilledOk(q);
    var left := 7 - q.index;
    if n <= left {
      DrawsFromBag(q, n);
    } else {
      DrawsFromBag(q, left);
      DrawsSplit(q, left, n - left);
      ReadyStream(After(q, left), n - left);
      assert Refilled(After(q, left)) == Refilled(q);
      DrawsFromBag(Refilled(q), n - left);
    }
  }

  /** The preview is exactly the next five draws, from every queue state. */
  lemma PreviewIsNextFive(q: Queue)
    requires QueueOk(q)
    ensures Preview(q) == Draws(q, 5)
    ensures Preview(q)[0] == Front(q)
  {
    BagsAhead(q, 5);
    PreviewHead(q);
  }

  lemma PreviewHead(q: Queue)
    requires QueueOk(q)
    ensures Preview(q)[0] == Front(q)
  {
    hide Shuffle, OneOfEach;
    RefilledOk(q);
  }

  /** Draws taken while the bag is at a boundary form a permutation of the seven kinds. */
  lemma WholeBag(q: Queue)
    requires QueueOk(q) && (q.index == 0 || q.index == 7)
    ensures OneOfEach(Draws(q, 7))
    ensures QueueOk(After(q, 7)) && After(q, 7).index == 7
  {
    hide Shuffle, OneOfEach;
    ReadyStream(q, 7);
    RefilledOk(q);
    DrawsFromBag(Ready(q), 7);
    assert Ready(q).bag[0..7] == Ready(q).bag;
  }

  /**
    From any state, once the current bag is used up every further block of seven draws is a
    permutation of the kinds.
  */
  lemma {:induction false} AlignedBlocks(q: Queue, k: nat)
    requires QueueOk(q)
    ensures
      var from := 7 - q.index + 7 * k;
      OneOfEach(Draws(q, from + 7)[from..])
  {
    hide Shuffle, OneOfEach;
    var from := 7 - q.index + 7 * k;
    Boundary(q, k);
    DrawsSplit(q, from, 7);
    WholeBag(After(q, from));
    assert Draws(q, from + 7)[from..] == Draws(After(q, from), 7);
  }

  lemma {:induction false} Boundary(q: Queue, k: nat)
    requires QueueOk(q)
    ensures QueueOk(After(q, 7 - q.index + 7 * k))
    ensures After(q, 7 - q.index + 7 * k).index == 7
    decreases k
  {
    hide Shuffle, OneOfEach;
    if k == 0 {
      DrawsFromBag(q, 7 - q.index);
      DrawsSplit(q, 7 - q.index, 0);
    } else {
      var before := 7 - q.index + 7 * (k - 1);
      Boundary(q, k - 1);
      WholeBag(After(q, before));
      AfterSplit(q, before, 7);
    }
  }

  lemma {:induction false} AfterSplit(q: Queue, m: nat, n: nat)
    ensures After(q, m + n) == After(After(q, m), n)
    decreases m
  {
    hide Shuffle, OneOfEach;
    if m > 0 { AfterSplit(Drawn(q), m - 1, n); }
  }

  lemma EveryKind(bag: seq<PieceKind>, kind: PieceKind)
    requires OneOfEach(bag)
    ensures kind in bag
  {
  }

  /** A window that covers a whole bag contains every kind. */
  lemma CoversBag(q: Queue, from: nat, n: nat, kind: PieceKind)
    requires QueueOk(q) && from + 7 <= n
    requires OneOfEach(Draws(q, from + 7)[from..])
    ensures kind in Draws(q, n)
  {
    hide Shuffle, OneOfEach, After, Draws;
    EveryKind(Draws(q, from + 7)[from..], kind);
    DrawsSplit(q, from + 7, n - (from + 7));
    var i :| 0 <= i < 7 && Draws(q, from + 7)[from..][i] == kind;
    assert Draws(q, n)[from + i] == kind;
  }

  /** Any thirteen consecutive draws contain every kind. */
  lemma ThirteenHoldAll(q: Queue, kind: PieceKind, n: nat)
    requires QueueOk(q) && n >= 13
    ensures kind in Draws(q, n)
  {
    hide Shuffle, OneOfEach, After, Draws;
    if q.index == 0 {
      WholeBag(q);
      assert Draws(q, 7)[0..] == Draws(q, 7);
      CoversBag(q, 0, n, kind);
    } else {
      AlignedBlocks(q, 0);
      CoversBag(q, 7 - q.index, n, kind);
    }
  }

  /** After any draw of a kind the same kind comes back with at most twelve others between. */
  lemma GapAtMostTwelve(q: Queue, n: nat, a: nat)
    requires QueueOk(q) && a + 13 < n
    ensures exists b :: a < b <= a + 13 && Draws(q, n)[b] == Draws(q, n)[a]
  {
    hide Shuffle, OneOfEach, After, Draws;
    DrawsSplit(q, a + 1, n - (a + 1));
    var rest := After(q, a + 1);
    DrawsSplit(rest, 13, n - a - 14);
    ThirteenHoldAll(rest, Draws(q, n)[a], 13);
    var i :| 0 <= i < 13 && Draws(rest, 13)[i] == Draws(q, n)[a];
    assert Draws(q, n)[a + 1 + i] == Draws(rest, n - (a + 1))[i];
  }

  // ---- implementation --------------------------------------------------

  class SimpleRng {
    var state: u32

    constructor (seed: u32)
      ensures state == seed
    {
      state := seed;
    }

    method NextU32() returns (r: u32)
      modifies this
      ensures state == r == NextState(old(state))
    {
      state := (state * 1664525 + 1013904223) % TWO_TO_32;
      r := state;
    }

    method NextRange(max: u32) returns (r: u32)
      requires max > 0
      modifies this
      ensures state == NextState(old(state)) && r == state % max
    {
      var n := NextU32();
      r := n % max;
    }

    method ShuffleInPlace<X>(a: array<X>)
      requires a.Length < TWO_TO_32
      modifies this, a
      ensures (a[..], state) == Shuffle(old(a[..]), old(state))
    {
      if a.Length == 0 { return; }
      var i := a.Length - 1;
      while i >= 1
        invariant 0 <= i < a.Length
        invariant Shuffled(a[..], i, state) == Shuffled(old(a[..]), a.Length - 1, old(state))
      {
        var j := NextRange(i + 1);
        ghost var was := a[..];
        a[i], a[j] := a[j], a[i];
        assert a[..] == Swapped(was, i, j);
        i := i - 1;
      }
    }
  }

  class PieceQueue {
    var episodeSeed: u32
    const bag: array<PieceKind>
    var bagIndex: nat
    const rng: SimpleRng

    ghost predicate Valid()
      reads this, bag, rng
    {
      bag.Length == 7 && QueueOk(Abs())
    }

    ghost function Abs(): Queue
      reads this, bag, rng
    {
      Queue(episodeSeed, bag[..], bagIndex, rng.state)
    }

    constructor (seed: u32)
      ensures Valid() && fresh(bag) && fresh(rng)
      ensures Abs() == NewQueue(seed)
    {
      episodeSeed := seed;
      bag := new PieceKind[7](_ => I);
      bagIndex := 0;
      rng := new SimpleRng(seed);
      new;
      RefillBag();
    }

    /** Starts the queue over with a new seed. */
    method Reset(seed: u32)
      requires Valid()
      modifies this, bag, rng
      ensures Valid() && Abs() == NewQueue(seed)
    {
      episodeSeed := seed;
      rng.state := seed;
      RefillBag();
    }

    method CopyFrom(other: PieceQueue)
      requires Valid() && other.Valid()
      modifies this, bag, rng
      ensures Valid() && Abs() == old(other.Abs())
    {
      ghost var was := other.bag[..];
      episodeSeed, bagIndex := other.episodeSeed, other.bagIndex;
      forall i | 0 <= i < 7 { bag[i] := other.bag[i]; }
      assert bag[..] == was;
      rng.state := other.rng.state;
    }

    method RefillBag()
      requires bag.Length == 7
      modifies this, bag, rng
      ensures Valid() && Abs() == Refilled(old(Abs()))
    {
      hide Shuffle, OneOfEach;
      FillWithKinds(bag);
      rng.ShuffleInPlace(bag);
      bagIndex := 0;
      RefilledOk(old(Abs()));
    }

    method Peek() returns (kind: PieceKind)
      requires Valid()
      ensures kind == Front(Abs())
    {
      if bagIndex < 7 { return bag[bagIndex]; }
      RefilledOk(Abs());
      var nextBag := PreviewBag();
      kind := nextBag[0];
    }

    /** The bag that the next refill will produce; the queue's own generator is not touched. */
    method PreviewBag() returns (nextBag: array<PieceKind>)
      ensures fresh(nextBag) && nextBag[..] == Refilled(Abs()).bag && nextBag.Length == 7
    {
      var preview := new SimpleRng(rng.state);
      nextBag := new PieceKind[7](_ => I);
      FillWithKinds(nextBag);
      preview.ShuffleInPlace(nextBag);
    }

    method Peek5() returns (five: seq<PieceKind>)
      requires Valid()
      ensures five == Preview(Abs())
    {
      hide Shuffle, OneOfEach;
      RefilledOk(Abs());
      ghost var left, next := Abs().bag[bagIndex..], Refilled(Abs()).bag;
      var out := new PieceKind[5](_ => I);
      var o, idx := 0, bagIndex;
      while o < 5 && idx < 7
        invariant 0 <= o <= 5 && idx == bagIndex + o <= 7
        invariant forall k :: 0 <= k < o ==> out[k] == (left + next)[k]
      {
        assert bag[idx] == left[o];
        out[o] := bag[idx];
        o, idx := o + 1, idx + 1;
      }
      if o < 5 {
        assert o == |left|;
        var nextBag := PreviewBag();
        var nb := 0;
        while o < 5
          invariant nb <= o <= 5 && |left| + nb == o
          invariant nextBag[..] == next
          invariant forall k :: 0 <= k < o ==> out[k] == (left + next)[k]
        {
          assert nextBag[nb] == next[nb];
          out[o] := nextBag[nb];
          nb, o := nb + 1, o + 1;
        }
      }
      five := out[..];
      assert five == (left + next)[..5];
    }

    method Draw() returns (kind: PieceKind)
      requires Valid()
      modifies this, bag, rng
      ensures Valid()
      ensures kind == old(Front(Abs())) && Abs() == Drawn(old(Abs()))
    {
      ghost var q := Abs();
      DrawnOk(q);
      if bagIndex >= 7 { RefillBag(); }
      kind := bag[bagIndex];
      bagIndex := bagIndex + 1;
    }
  }

  method FillWithKinds(a: array<PieceKind>)
    requires a.Length == 7
    modifies a
    ensures a[..] == Kinds()
  {
    a[0], a[1], a[2], a[3], a[4], a[5], a[6] := I, O, T, S, Z, J, L;
  }
}
