/** Interleaving of query, key and value rows by key-value group, and its inverses. */
module QkvLayout {
  import opened Outcomes
  import opened IntMath

  // Quotients, like products, are named so that proofs can treat them as given.

  function Div(a: nat, b: nat): nat
    requires 0 < b
  {
    a / b
  }

  function Mod(a: nat, b: nat): nat
    requires 0 < b
  {
    a % b
  }

  /** The g-th block of `size` rows; nothing past the end. */
  function Block<R>(s: seq<R>, size: nat, g: nat): seq<R> {
    if Mul(g, size) + size <= |s| then s[Mul(g, size)..Mul(g, size) + size] else []
  }

  // ---------------------------------------------------------------- the converter

  /** Viewing q, k and v as one block per group and concatenating the three blocks of each group. */
  function Interleave<R>(q: seq<R>, k: seq<R>, v: seq<R>, perGroup: nat, headDim: nat, groups: nat): seq<R> {
    if groups == 0 then [] else
    Interleave(q, k, v, perGroup, headDim, groups - 1)
    + (Block(q, perGroup, groups - 1) + Block(k, headDim, groups - 1) + Block(v, headDim, groups - 1))
  }

  // ---------------------------------------------------------------- taking it apart

  /** Rows [from, to) of a block. */
  function Part<R>(block: seq<R>, from: nat, to: nat): seq<R> {
    if from <= to <= |block| then block[from..to] else []
  }

  /** Rows [from, to) of each of the first n blocks, concatenated. */
  function Gather<R>(t: seq<R>, size: nat, from: nat, to: nat, n: nat): seq<R> {
    if n == 0 then [] else Gather(t, size, from, to, n - 1) + Part(Block(t, size, n - 1), from, to)
  }

  /** The size of the pieces of torch's chunk. */
  function ChunkSize(len: nat, n: nat): nat
    requires 0 < n
  {
    (len + n - 1) / n
  }

  /** The sizes of the query part and of the key and value parts of a chunk. */
  function Sizes(len: nat, perKv: nat, groups: nat): (nat, nat)
    requires 0 < groups
  {
    var kvSize := Div(len, perKv + 2);
    (Div(Mul(kvSize, perKv), groups), Div(kvSize, groups))
  }

  /** How many pieces torch's chunk makes of a tensor when asked for n: an empty tensor gives n empty ones. */
  function ChunkCount(len: nat, n: nat): nat
    requires 0 < n
  {
    if len == 0 || ChunkSize(len, n) == 0 then n else ChunkSize(len, ChunkSize(len, n))
  }

  /** Every piece has exactly `size` rows. */
  predicate Whole(len: nat, n: nat, size: nat)
    requires 0 < n
  {
    ChunkSize(len, n) == size && Mul(ChunkCount(len, n), size) == len
  }

  /** The pieces of a tensor, each split into q, kv and kv rows; None where a piece has another length. */
  function SplitPieces<R>(t: seq<R>, n: nat, q: nat, kv: nat): Option<(seq<R>, seq<R>, seq<R>)>
    requires 0 < n
  {
    var size, count := q + 2 * kv, ChunkCount(|t|, n);
    if !Whole(|t|, n, size) then None else
    Some((Gather(t, size, 0, q, count), Gather(t, size, q, q + kv, count), Gather(t, size, q + kv, size, count)))
  }

  /** The three outputs, or None where an assertion or a split fails. */
  function SplitQkv<R>(t: seq<R>, heads: nat, groups: nat): Option<(seq<R>, seq<R>, seq<R>)>
    requires 0 < groups
  {
    var perKv := Div(heads, groups);
    if Mod(heads, groups) != 0 || Mod(|t|, perKv + 2) != 0 then None else
    var (q, kv) := Sizes(|t|, perKv, groups);
    SplitPieces(t, groups, q, kv)
  }

  /** The merger's loop over the chunks of one tensor. */
  method SplitTensors<R>(t: seq<R>, heads: nat, groups: nat) returns (r: Option<(seq<R>, seq<R>, seq<R>)>)
    requires 0 < groups
    ensures r == SplitQkv(t, heads, groups)
  {
    hide Mul, Div, Mod, SplitPieces;
    if Mod(heads, groups) != 0 { return None; }
    var perKv := Div(heads, groups);
    if Mod(|t|, perKv + 2) != 0 { return None; }
    var (q, kv) := Sizes(|t|, perKv, groups);
    r := SplitChunks(t, groups, q, kv);
  }

  /** Cutting a tensor as torch's chunk does, the last piece possibly shorter, and splitting each piece. */
  method SplitChunks<R>(t: seq<R>, n: nat, q: nat, kv: nat) returns (r: Option<(seq<R>, seq<R>, seq<R>)>)
    requires 0 < n
    ensures r == SplitPieces(t, n, q, kv)
  {
    hide Mul, ChunkSize, ChunkCount, Whole, Gather, Min, SplitPieces;
    var qs: seq<R>, ks: seq<R>, vs: seq<R> := [], [], [];
    var size, count := ChunkSize(|t|, n), ChunkCount(|t|, n);
    PieceCount(|t|, n);
    NoPieces(t, q + 2 * kv);
    for g := 0 to count
      invariant 0 < g ==> size == q + 2 * kv && Mul(g - 1, size) + size <= |t|
      invariant qs == Gather(t, q + 2 * kv, 0, q, g) && ks == Gather(t, q + 2 * kv, q, q + kv, g)
      invariant vs == Gather(t, q + 2 * kv, q + kv, q + 2 * kv, g)
    {
      PieceStart(|t|, n, g);
      var end := Min(Mul(g, size) + size, |t|);
      MinIs(Mul(g, size) + size, |t|);
      var chunk := t[Mul(g, size)..end];
      if |chunk| != q + 2 * kv {
        PieceShort(|t|, n, g, q + 2 * kv);
        SplitIs(t, n, q, kv);
        return None;
      }
      PieceFull(|t|, n, g, q + 2 * kv);
      GatherNext(t, q + 2 * kv, 0, q, g);
      GatherNext(t, q + 2 * kv, q, q + kv, g);
      GatherNext(t, q + 2 * kv, q + kv, q + 2 * kv, g);
      assert chunk[..q] == chunk[0..q] && chunk[q + kv..] == chunk[q + kv..q + 2 * kv];
      qs, ks, vs := qs + chunk[..q], ks + chunk[q..q + kv], vs + chunk[q + kv..];
    }
    PiecesWhole(|t|, n, q + 2 * kv);
    SplitIs(t, n, q, kv);
    r := Some((qs, ks, vs));
  }

  // ---------------------------------------------------------------- torch's chunk

  /** Pieces are as small as can be: they cover the tensor, and one row less would not. */
  lemma CeilIs(len: nat, n: nat)
    requires 0 < n
    ensures len <= Mul(n, ChunkSize(len, n)) < len + n
  {
    assert len + n - 1 == n * ChunkSize(len, n) + (len + n - 1) % n;
  }

  lemma PieceCount(len: nat, n: nat)
    requires 0 < n
    ensures 0 < ChunkCount(len, n)
    ensures len == 0 <==> ChunkSize(len, n) == 0
    ensures 0 < len ==> len <= Mul(ChunkCount(len, n), ChunkSize(len, n)) < len + ChunkSize(len, n)
  {
    CeilIs(len, n);
    var size := ChunkSize(len, n);
    if len == 0 {
      assert n * size < n;
    } else {
      assert size != 0;
      CeilIs(len, size);
      Commute(size, ChunkSize(len, size));
    }
  }

  /** Every piece starts inside the tensor. */
  lemma PieceStart(len: nat, n: nat, g: nat)
    requires 0 < n && g < ChunkCount(len, n)
    ensures if len == 0 then Mul(g, ChunkSize(len, n)) == 0 else Mul(g, ChunkSize(len, n)) < len
  {
    hide ChunkSize, ChunkCount;
    PieceCount(len, n);
    var size, count := ChunkSize(len, n), ChunkCount(len, n);
    if len == 0 {
      Commute(g, 0);
    } else {
      MulNext(count - 1, size);
      MulMonotone(g, count - 1, size);
    }
  }

  /** All pieces but the last are full, and the last one is if the pieces fill the tensor. */
  lemma PieceLength(len: nat, n: nat, g: nat)
    requires 0 < n && g < ChunkCount(len, n)
    ensures g + 1 < ChunkCount(len, n) || Mul(ChunkCount(len, n), ChunkSize(len, n)) == len ==>
              Mul(g, ChunkSize(len, n)) + ChunkSize(len, n) <= len
  {
    hide ChunkSize, ChunkCount;
    var size, count := ChunkSize(len, n), ChunkCount(len, n);
    MulNext(g, size);
    if g + 1 < count {
      PieceStart(len, n, g + 1);
      if len == 0 { PieceCount(len, n); }
    }
  }

  /** The first piece has the piece size, so a wrong length shows that the pieces are not whole. */
  lemma PieceShort(len: nat, n: nat, g: nat, size: nat)
    requires 0 < n && g < ChunkCount(len, n) && Mul(g, ChunkSize(len, n)) <= len
    requires Min(Mul(g, ChunkSize(len, n)) + ChunkSize(len, n), len) - Mul(g, ChunkSize(len, n)) != size
    ensures !Whole(len, n, size)
  {
    hide ChunkSize, ChunkCount, Mul;
    PieceLength(len, n, g);
  }

  lemma FirstPiece(len: nat, n: nat)
    requires 0 < n
    ensures ChunkSize(len, n) <= len
  {
    CeilIs(len, n);
    if len < ChunkSize(len, n) {
      MulMonotone(1, n, ChunkSize(len, n) - 1);
      Spread(n, ChunkSize(len, n) - 1, 1);
    }
  }

  lemma PiecesWhole(len: nat, n: nat, size: nat)
    requires 0 < n && size == ChunkSize(len, n)
    requires Mul(ChunkCount(len, n) - 1, size) + size <= len
    ensures Whole(len, n, size)
  {
    hide ChunkSize, ChunkCount;
    PieceCount(len, n);
    MulNext(ChunkCount(len, n) - 1, size);
  }

  lemma SplitIs<R>(t: seq<R>, n: nat, q: nat, kv: nat)
    requires 0 < n
    ensures var size, count := q + 2 * kv, ChunkCount(|t|, n);
            SplitPieces(t, n, q, kv) ==
              if Whole(|t|, n, size) then
                Some((Gather(t, size, 0, q, count), Gather(t, size, q, q + kv, count), Gather(t, size, q + kv, size, count)))
              else None
  {
  }

  lemma MinIs(a: int, b: int)
    ensures Min(a, b) <= a && Min(a, b) <= b && (Min(a, b) == a || Min(a, b) == b)
  {
  }

  lemma NoPieces<R>(t: seq<R>, size: nat)
    ensures forall from, to :: Gather(t, size, from, to, 0) == []
  {
  }

  /** A piece of the right length is a full one. */
  lemma PieceFull(len: nat, n: nat, g: nat, size: nat)
    requires 0 < n && g < ChunkCount(len, n) && Mul(g, ChunkSize(len, n)) <= len
    requires Min(Mul(g, ChunkSize(len, n)) + ChunkSize(len, n), len) - Mul(g, ChunkSize(len, n)) == size
    requires 0 < g ==> ChunkSize(len, n) == size
    ensures ChunkSize(len, n) == size && Mul(g, size) + size <= len
  {
    hide Mul, ChunkSize, ChunkCount;
    FirstPiece(len, n);
    MulZero(ChunkSize(len, n));
  }

  /** The next piece is the next block. */
  lemma GatherNext<R>(t: seq<R>, size: nat, from: nat, to: nat, g: nat)
    requires Mul(g, size) + size <= |t| && from <= to <= size
    ensures Gather(t, size, from, to, g + 1) == Gather(t, size, from, to, g) + t[Mul(g, size)..Mul(g, size) + size][from..to]
  {
    hide Mul;
  }

  /** Equal pieces of whole groups: torch makes as many as asked for. */
  lemma CountExact(n: nat, size: nat)
    requires 0 < n
    ensures ChunkSize(Mul(n, size), n) == size && ChunkCount(Mul(n, size), n) == n && Whole(Mul(n, size), n, size)
  {
    Exact(size, n);
    if 0 < size {
      Exact(n, size);
      Commute(n, size);
    } else {
      Commute(n, 0);
    }
  }

  // ---------------------------------------------------------------- arithmetic

  lemma BlockInside(size: nat, g: nat, n: nat)
    requires g < n
    ensures Mul(g, size) + size <= Mul(n, size)
  {
    Commute(g, size);
    Commute(n, size);
    Ahead(size, g, n);
  }

  lemma Next(size: nat, n: nat)
    requires 0 < n
    ensures Mul(n, size) == Mul(n - 1, size) + size
  {
  }

  lemma MulZero(size: nat)
    ensures Mul(0, size) == 0
  {
  }

  lemma Distribute(a: nat, b: nat, size: nat)
    ensures Mul(a + b, size) == Mul(a, size) + Mul(b, size)
  {
  }

  lemma Regroup(a: nat, b: nat, c: nat)
    ensures Mul(Mul(a, b), c) == Mul(a, Mul(b, c))
  {
  }

  lemma Positive(a: nat, b: nat)
    requires 0 < a && 0 < b
    ensures 0 < Mul(a, b)
  {
  }

  lemma Exact(x: nat, d: nat)
    requires 0 < d
    ensures Div(Mul(x, d), d) == x && Mod(Mul(x, d), d) == 0 && Div(Mul(d, x), d) == x
    ensures ChunkSize(Mul(d, x), d) == x
  {
    Commute(x, d);
    Unique(d * x, d, x);
    Unique(d * x + d - 1, d, x);
  }

  /** A tensor of whole groups is cut into whole groups. */
  lemma SplitSizes(perKv: nat, headDim: nat, groups: nat)
    requires 0 < groups
    ensures var size := Mul(headDim, perKv) + 2 * headDim;
            var len := Mul(groups, size);
            Mod(len, perKv + 2) == 0 && Sizes(len, perKv, groups) == (Mul(headDim, perKv), headDim)
  {
    var size := Mul(headDim, perKv) + 2 * headDim;
    assert size == Mul(headDim, perKv + 2) by { Spread(headDim, perKv, 2); }
    Regroup(groups, headDim, perKv + 2);
    Exact(Mul(groups, headDim), perKv + 2);
    Regroup(groups, headDim, perKv);
    Exact(Mul(headDim, perKv), groups);
    Exact(headDim, groups);
    hide Mul, Div, Mod, ChunkSize;
  }

  // ---------------------------------------------------------------- the round trip

  lemma {:induction false} InterleaveLength<R>(q: seq<R>, k: seq<R>, v: seq<R>, perGroup: nat, headDim: nat, n: nat)
    requires |q| >= Mul(n, perGroup) && |k| >= Mul(n, headDim) && |v| >= Mul(n, headDim)
    ensures |Interleave(q, k, v, perGroup, headDim, n)| == Mul(n, perGroup + 2 * headDim)
  {
    if n > 0 {
      Next(perGroup, n);
      Next(headDim, n);
      Next(perGroup + 2 * headDim, n);
      hide Mul;
      InterleaveLength(q, k, v, perGroup, headDim, n - 1);
    }
  }

  function GroupRows<R>(q: seq<R>, k: seq<R>, v: seq<R>, perGroup: nat, headDim: nat, g: nat): seq<R> {
    Block(q, perGroup, g) + Block(k, headDim, g) + Block(v, headDim, g)
  }

  /** Block g of the interleaved rows is q's, k's and v's block g, in this order. */
  lemma {:induction false} InterleaveBlock<R>(
      q: seq<R>, k: seq<R>, v: seq<R>, perGroup: nat, headDim: nat, n: nat, g: nat)
    requires g < n && |q| >= Mul(n, perGroup) && |k| >= Mul(n, headDim) && |v| >= Mul(n, headDim)
    ensures Block(Interleave(q, k, v, perGroup, headDim, n), perGroup + 2 * headDim, g)
            == GroupRows(q, k, v, perGroup, headDim, g)
  {
    hide Mul, Block;
    var size := perGroup + 2 * headDim;
    Next(perGroup, n);
    Next(headDim, n);
    Next(size, n);
    InterleaveLength(q, k, v, perGroup, headDim, n - 1);
    var front := Interleave(q, k, v, perGroup, headDim, n - 1);
    var last := GroupRows(q, k, v, perGroup, headDim, n - 1);
    if g < n - 1 {
      InterleaveBlock(q, k, v, perGroup, headDim, n - 1, g);
      BlockInside(size, g, n - 1);
      BlockOfFront(front, last, size, g);
    } else {
      GroupLength(q, k, v, perGroup, headDim, g);
      BlockOfBack(front, last, size, g);
    }
  }

  lemma GroupLength<R>(q: seq<R>, k: seq<R>, v: seq<R>, perGroup: nat, headDim: nat, g: nat)
    requires |q| >= Mul(g, perGroup) + perGroup && |k| >= Mul(g, headDim) + headDim && |v| >= Mul(g, headDim) + headDim
    ensures |GroupRows(q, k, v, perGroup, headDim, g)| == perGroup + 2 * headDim
  {
    hide Mul;
  }

  lemma BlockOfFront<R>(a: seq<R>, b: seq<R>, size: nat, g: nat)
    requires Mul(g, size) + size <= |a|
    ensures Block(a + b, size, g) == Block(a, size, g)
  {
    hide Mul;
  }

  lemma BlockOfBack<R>(a: seq<R>, b: seq<R>, size: nat, g: nat)
    requires |a| == Mul(g, size) && |b| == size
    ensures Block(a + b, size, g) == b
  {
    hide Mul;
  }

  lemma PartsOf<R>(a: seq<R>, b: seq<R>, c: seq<R>, x: nat, y: nat)
    requires |a| == x && |b| == |c| == y
    ensures var all := a + b + c; Part(all, 0, x) == a && Part(all, x, x + y) == b && Part(all, x + y, x + 2 * y) == c
  {
  }

  /** The three parts of block g of the interleaved rows. */
  lemma InterleaveParts<R>(q: seq<R>, k: seq<R>, v: seq<R>, perGroup: nat, headDim: nat, size: nat, n: nat, g: nat)
    requires g < n && |q| == Mul(n, perGroup) && |k| == |v| == Mul(n, headDim) && size == perGroup + 2 * headDim
    ensures var b := Block(Interleave(q, k, v, perGroup, headDim, n), size, g);
            && Part(b, 0, perGroup) == Block(q, perGroup, g)
            && Part(b, perGroup, perGroup + headDim) == Block(k, headDim, g)
            && Part(b, perGroup + headDim, size) == Block(v, headDim, g)
  {
    hide Mul, Interleave, Part, Block;
    InterleaveBlock(q, k, v, perGroup, headDim, n, g);
    BlockInside(perGroup, g, n);
    BlockInside(headDim, g, n);
    BlockLength(q, perGroup, g);
    BlockLength(k, headDim, g);
    BlockLength(v, headDim, g);
    PartsOf(Block(q, perGroup, g), Block(k, headDim, g), Block(v, headDim, g), perGroup, headDim);
  }

  lemma BlockLength<R>(s: seq<R>, size: nat, g: nat)
    requires Mul(g, size) + size <= |s|
    ensures |Block(s, size, g)| == size
  {
    hide Mul;
  }

  /** Row by row: in group g come its query rows, then its key rows, then its value rows. */
  lemma InterleavedRow<R>(q: seq<R>, k: seq<R>, v: seq<R>, perGroup: nat, headDim: nat, n: nat, g: nat, x: nat)
    requires g < n && |q| == Mul(n, perGroup) && |k| == |v| == Mul(n, headDim) && x < perGroup + 2 * headDim
    ensures var at, all := Mul(g, perGroup + 2 * headDim) + x, Interleave(q, k, v, perGroup, headDim, n);
            && at < |all| && Mul(g, perGroup) + perGroup <= |q| && Mul(g, headDim) + headDim <= |k|
            && all[at] == if x < perGroup then q[Mul(g, perGroup) + x]
                          else if x < perGroup + headDim then k[Mul(g, headDim) + (x - perGroup)]
                          else v[Mul(g, headDim) + (x - perGroup - headDim)]
  {
    hide Mul, Interleave;
    var size := perGroup + 2 * headDim;
    InterleaveBlock(q, k, v, perGroup, headDim, n, g);
    InterleaveLength(q, k, v, perGroup, headDim, n);
    BlockInside(size, g, n);
    BlockInside(perGroup, g, n);
    BlockInside(headDim, g, n);
    hide Block, GroupRows;
    BlockCell(Interleave(q, k, v, perGroup, headDim, n), size, g, x);
    GroupCell(q, k, v, perGroup, headDim, g, x);
  }

  lemma BlockCell<R>(s: seq<R>, size: nat, g: nat, x: nat)
    requires Mul(g, size) + size <= |s| && x < size
    ensures x < |Block(s, size, g)| && Block(s, size, g)[x] == s[Mul(g, size) + x]
  {
    hide Mul;
  }

  lemma GroupCell<R>(q: seq<R>, k: seq<R>, v: seq<R>, perGroup: nat, headDim: nat, g: nat, x: nat)
    requires Mul(g, perGroup) + perGroup <= |q| && Mul(g, headDim) + headDim <= |k| && |k| == |v|
    requires x < perGroup + 2 * headDim
    ensures x < |GroupRows(q, k, v, perGroup, headDim, g)|
    ensures GroupRows(q, k, v, perGroup, headDim, g)[x] ==
              if x < perGroup then q[Mul(g, perGroup) + x]
              else if x < perGroup + headDim then k[Mul(g, headDim) + (x - perGroup)]
              else v[Mul(g, headDim) + (x - perGroup - headDim)]
  {
    hide Mul;
  }

  lemma GrowByBlock<R>(s: seq<R>, width: nat, n: nat)
    requires 0 < n && Mul(n, width) <= |s| && Mul(n, width) == Mul(n - 1, width) + width
    ensures s[..Mul(n, width)] == s[..Mul(n - 1, width)] + Block(s, width, n - 1)
  {
    hide Mul;
  }

  /** Gathering blocks that are a tensor's own blocks gives the tensor's first rows. */
  lemma {:induction false} GatherIs<R>(t: seq<R>, s: seq<R>, size: nat, from: nat, to: nat, width: nat, n: nat)
    requires Mul(n, width) <= |s|
    requires forall g: nat :: g < n ==> Part(Block(t, size, g), from, to) == Block(s, width, g)
    ensures Gather(t, size, from, to, n) == s[..Mul(n, width)]
  {
    hide Mul, Part, Block;
    MulZero(width);
    if n > 0 {
      Next(width, n);
      GatherIs(t, s, size, from, to, width, n - 1);
      GrowByBlock(s, width, n);
    }
  }

  lemma GatherWhole<R>(t: seq<R>, s: seq<R>, size: nat, from: nat, to: nat, width: nat, n: nat)
    requires Mul(n, width) == |s|
    requires forall g: nat :: g < n ==> Part(Block(t, size, g), from, to) == Block(s, width, g)
    ensures Gather(t, size, from, to, n) == s
  {
    hide *;
    GatherIs(t, s, size, from, to, width, n);
    assert s[..|s|] == s;
  }

  /** The query, key and value parts of the interleaved rows are q, k and v. */
  lemma GatherParts<R>(q: seq<R>, k: seq<R>, v: seq<R>, perGroup: nat, headDim: nat, size: nat, groups: nat, t: seq<R>)
    requires |q| == Mul(groups, perGroup) && |k| == |v| == Mul(groups, headDim) && size == perGroup + 2 * headDim
    requires t == Interleave(q, k, v, perGroup, headDim, groups)
    ensures Gather(t, size, 0, perGroup, groups) == q
    ensures Gather(t, size, perGroup, perGroup + headDim, groups) == k
    ensures Gather(t, size, perGroup + headDim, size, groups) == v
  {
    hide *;
    var mid := perGroup + headDim;
    forall g: nat | g < groups
      ensures Part(Block(t, size, g), 0, perGroup) == Block(q, perGroup, g)
      ensures Part(Block(t, size, g), perGroup, mid) == Block(k, headDim, g)
      ensures Part(Block(t, size, g), mid, size) == Block(v, headDim, g)
    {
      InterleaveParts(q, k, v, perGroup, headDim, size, groups, g);
    }
    GatherWhole(t, q, size, 0, perGroup, perGroup, groups);
    GatherWhole(t, k, size, perGroup, mid, headDim, groups);
    GatherWhole(t, v, size, mid, size, headDim, groups);
  }

  /** Splitting the converter's interleaved rows returns q, k and v, for any head dimension, any number of
      key-value heads and any multiple of query heads; rows may be weight rows or bias entries. */
  lemma QkvRoundTrip<R>(q: seq<R>, k: seq<R>, v: seq<R>, headDim: nat, perKv: nat, groups: nat)
    requires 0 < groups && |q| == Mul(groups, Mul(headDim, perKv)) && |k| == |v| == Mul(groups, headDim)
    ensures Div(Mul(headDim, Mul(perKv, groups)), groups) == Mul(headDim, perKv)
    ensures SplitQkv(Interleave(q, k, v, Mul(headDim, perKv), headDim, groups), Mul(perKv, groups), groups)
            == Some((q, k, v))
  {
    hide *;
    var perGroup := Mul(headDim, perKv);
    Regroup(headDim, perKv, groups);
    Exact(perGroup, groups);
    Exact(perKv, groups);
    SplitSizes(perKv, headDim, groups);
    InterleaveLength(q, k, v, perGroup, headDim, groups);
    var t := Interleave(q, k, v, perGroup, headDim, groups);
    GatherParts(q, k, v, perGroup, headDim, perGroup + 2 * headDim, groups, t);
    SplitKnown(t, Mul(perKv, groups), groups, perKv, perGroup, headDim);
  }

  /** The result of the split once its sizes are known. */
  lemma SplitKnown<R>(t: seq<R>, heads: nat, groups: nat, perKv: nat, q: nat, kv: nat)
    requires 0 < groups && Mod(heads, groups) == 0 && Div(heads, groups) == perKv && Mod(|t|, perKv + 2) == 0
    requires Sizes(|t|, perKv, groups) == (q, kv) && Mul(groups, q + 2 * kv) == |t|
    ensures SplitQkv(t, heads, groups)
            == Some((Gather(t, q + 2 * kv, 0, q, groups), Gather(t, q + 2 * kv, q, q + kv, groups),
                     Gather(t, q + 2 * kv, q + kv, q + 2 * kv, groups)))
  {
    hide Mul, Div, Mod, Sizes, Gather, ChunkSize, ChunkCount, Whole;
    CountExact(groups, q + 2 * kv);
  }

  // ---------------------------------------------------------------- tensor parallelism

  /** The gathered rows of the first m shards, one after the other. */
  function GatherShards<R>(shards: seq<seq<R>>, size: nat, from: nat, to: nat, n: nat, m: nat): seq<R>
    requires m <= |shards|
  {
    if m == 0 then [] else
    GatherShards(shards, size, from, to, n, m - 1) + Gather(shards[m - 1], size, from, to, n)
  }

  /** The pieces of the first m shards, one shard after the other. */
  function MergeShards<R>(shards: seq<seq<R>>, n: nat, q: nat, kv: nat, m: nat): Option<(seq<R>, seq<R>, seq<R>)>
    requires 0 < n && m <= |shards|
  {
    if m == 0 then Some(([], [], [])) else
    match (MergeShards(shards, n, q, kv, m - 1), SplitPieces(shards[m - 1], n, q, kv))
    case (Some((qs, ks, vs)), Some((a, b, c))) => Some((qs + a, ks + b, vs + c))
    case _ => None
  }

  /** The split sizes come from the first shard; a shard that does not match them fails to split. */
  function MergeTp<R>(shards: seq<seq<R>>, heads: nat, groups: nat): Option<(seq<R>, seq<R>, seq<R>)>
    requires 0 < groups && 0 < |shards|
  {
    var perKv, perShard := Div(heads, groups), Div(groups, |shards|);
    if Mod(heads, groups) != 0 || Mod(|shards[0]|, perKv + 2) != 0 || perShard == 0 then None else
    var (q, kv) := Sizes(|shards[0]|, perKv, perShard);
    MergeShards(shards, perShard, q, kv, |shards|)
  }

  lemma {:induction false} MergeStuck<R>(shards: seq<seq<R>>, n: nat, q: nat, kv: nat, k: nat, m: nat)
    requires 0 < n && k <= m <= |shards| && MergeShards(shards, n, q, kv, k).None?
    ensures MergeShards(shards, n, q, kv, m).None?
    decreases m
  {
    hide SplitPieces;
    if k < m { MergeStuck(shards, n, q, kv, k, m - 1); }
  }

  /** The legacy merger's nested loops over shards and chunks. */
  method MergeAcrossTp<R>(shards: seq<seq<R>>, heads: nat, groups: nat) returns (r: Option<(seq<R>, seq<R>, seq<R>)>)
    requires 0 < groups && 0 < |shards|
    ensures r == MergeTp(shards, heads, groups)
  {
    hide Mul, Div, Mod, Sizes, SplitPieces;
    var perKv, perShard := Div(heads, groups), Div(groups, |shards|);
    if Mod(heads, groups) != 0 || Mod(|shards[0]|, perKv + 2) != 0 || perShard == 0 { return None; }
    var (q, kv) := Sizes(|shards[0]|, perKv, perShard);
    var qs: seq<R>, ks: seq<R>, vs: seq<R> := [], [], [];
    for i := 0 to |shards|
      invariant MergeShards(shards, perShard, q, kv, i) == Some((qs, ks, vs))
    {
      var pieces := SplitChunks(shards[i], perShard, q, kv);
      if pieces.None? {
        MergeStuck(shards, perShard, q, kv, i + 1, |shards|);
        return None;
      }
      var (a, b, c) := pieces.value;
      qs, ks, vs := qs + a, ks + b, vs + c;
    }
    r := Some((qs, ks, vs));
  }

  /** Shards of whole groups all split. */
  lemma {:induction false} WholeShards<R>(shards: seq<seq<R>>, n: nat, q: nat, kv: nat, m: nat)
    requires 0 < n && m <= |shards| && forall i :: 0 <= i < |shards| ==> |shards[i]| == Mul(n, q + 2 * kv)
    ensures MergeShards(shards, n, q, kv, m)
            == Some((GatherShards(shards, q + 2 * kv, 0, q, n, m), GatherShards(shards, q + 2 * kv, q, q + kv, n, m),
                     GatherShards(shards, q + 2 * kv, q + kv, q + 2 * kv, n, m)))
  {
    hide Mul, ChunkSize, ChunkCount, Whole, Gather;
    if m > 0 {
      WholeShards(shards, n, q, kv, m - 1);
      CountExact(n, q + 2 * kv);
    }
  }

  /** Gathering over base + n blocks, with the last n blocks cut off as a shard. */
  lemma {:induction false} GatherSplit<R>(t: seq<R>, shard: seq<R>, size: nat, from: nat, to: nat, base: nat, n: nat)
    requires Mul(base, size) + Mul(n, size) <= |t| && Mul(n, size) <= |shard|
    requires shard <= t[Mul(base, size)..]
    ensures Gather(t, size, from, to, base + n) == Gather(t, size, from, to, base) + Gather(shard, size, from, to, n)
  {
    hide Mul, Part, Block;
    if n > 0 {
      Next(size, n);
      GatherSplit(t, shard, size, from, to, base, n - 1);
      SameBlock(t, shard, size, base, n - 1);
    }
  }

  lemma SameBlock<R>(t: seq<R>, shard: seq<R>, size: nat, base: nat, g: nat)
    requires Mul(base, size) <= |t| && Mul(g, size) + size <= |shard| && shard <= t[Mul(base, size)..]
    ensures Block(t, size, base + g) == Block(shard, size, g)
  {
    Distribute(base, g, size);
    hide Mul;
  }

  /** One more shard adds its own gathered rows. */
  lemma ShardStep<R>(t: seq<R>, shard: seq<R>, size: nat, from: nat, to: nat, perShard: nat, shards: nat, m: nat)
    requires 0 < m <= shards && Mul(shards, Mul(perShard, size)) == |t| && shard == Block(t, Mul(perShard, size), m - 1)
    ensures Gather(t, size, from, to, Mul(m, perShard))
            == Gather(t, size, from, to, Mul(m - 1, perShard)) + Gather(shard, size, from, to, perShard)
  {
    hide Mul, Gather, Part;
    var part := Mul(perShard, size);
    BlockInside(part, m - 1, shards);
    Regroup(m - 1, perShard, size);
    assert shard == t[Mul(m - 1, part)..Mul(m - 1, part) + part];
    GatherSplit(t, shard, size, from, to, Mul(m - 1, perShard), perShard);
    Next(perShard, m);
  }

  /** The shards of equal contiguous parts, gathered shard by shard, are the whole tensor gathered. */
  lemma {:induction false} GatherShardsIs<R>(
      t: seq<R>, shards: seq<seq<R>>, size: nat, from: nat, to: nat, perShard: nat, m: nat)
    requires m <= |shards| && Mul(|shards|, Mul(perShard, size)) == |t|
    requires forall i :: 0 <= i < |shards| ==> shards[i] == Block(t, Mul(perShard, size), i)
    ensures GatherShards(shards, size, from, to, perShard, m) == Gather(t, size, from, to, Mul(m, perShard))
  {
    hide Mul, Part, Block;
    MulZero(perShard);
    if m > 0 {
      GatherShardsIs(t, shards, size, from, to, perShard, m - 1);
      ShardStep(t, shards[m - 1], size, from, to, perShard, |shards|, m);
    }
  }

  /** Merging equal contiguous shards of whole groups equals splitting the whole tensor, and both succeed, for
      every number of shards that divides the number of key-value heads. */
  lemma TensorParallelAgrees<R>(t: seq<R>, shards: seq<seq<R>>, headDim: nat, perKv: nat, perShard: nat)
    requires 0 < |shards| && 0 < perShard
    requires var size := Mul(headDim, perKv) + 2 * headDim;
             && |t| == Mul(Mul(|shards|, perShard), size)
             && forall i :: 0 <= i < |shards| ==> shards[i] == Block(t, Mul(perShard, size), i)
    ensures var groups := Mul(|shards|, perShard);
            && 0 < groups && SplitQkv(t, Mul(perKv, groups), groups).Some?
            && MergeTp(shards, Mul(perKv, groups), groups) == SplitQkv(t, Mul(perKv, groups), groups)
  {
    hide Mul, Div, Mod, ChunkSize, ChunkCount, Whole, Sizes, Gather, GatherShards, MergeShards, SplitQkv, SplitPieces;
    var groups, size := Mul(|shards|, perShard), Mul(headDim, perKv) + 2 * headDim;
    Positive(|shards|, perShard);
    var q := Mul(headDim, perKv);
    SplitSizes(perKv, headDim, groups);
    SplitSizes(perKv, headDim, perShard);
    Exact(perKv, groups);
    Exact(perShard, |shards|);
    Regroup(|shards|, perShard, size);
    forall i | 0 <= i < |shards| ensures |shards[i]| == Mul(perShard, size) {
      BlockInside(Mul(perShard, size), i, |shards|);
    }
    SplitKnown(t, Mul(perKv, groups), groups, perKv, q, headDim);
    WholeShards(shards, perShard, q, headDim, |shards|);
    GatherShardsIs(t, shards, size, 0, q, perShard, |shards|);
    GatherShardsIs(t, shards, size, q, q + headDim, perShard, |shards|);
    GatherShardsIs(t, shards, size, q + headDim, size, perShard, |shards|);
  }

  // ---------------------------------------------------------------- when splitting succeeds

  /** Rounding down loses rows unless every group gets a whole head. */
  lemma FloorsLose(kvs: nat, perKv: nat, n: nat)
    requires 0 < n
    ensures Mul(n, Div(Mul(kvs, perKv), n)) <= Mul(kvs, perKv) && Mul(n, Div(kvs, n)) <= kvs
  {
    assert Mul(kvs, perKv) == n * Div(Mul(kvs, perKv), n) + Mul(kvs, perKv) % n;
    assert kvs == n * Div(kvs, n) + kvs % n;
  }

  lemma Times(n: nat, q: nat, kv: nat)
    ensures Mul(n, q + 2 * kv) == Mul(n, q) + 2 * Mul(n, kv)
  {
    Spread(n, q, 2 * kv);
    Spread(n, kv, kv);
  }

  lemma DivMod(len: nat, d: nat)
    requires 0 < d
    ensures Mul(Div(len, d), d) + Mod(len, d) == len
  {
    assert len == d * (len / d) + len % d;
    Commute(d, len / d);
  }

  /** If the pieces are whole, the rows divide evenly among the groups. */
  lemma WholeDivides(len: nat, perKv: nat, n: nat)
    requires 0 < n && Mod(len, perKv + 2) == 0
    requires var (q, kv) := Sizes(len, perKv, n); Whole(len, n, q + 2 * kv)
    ensures var (_, kv) := Sizes(len, perKv, n); len == Mul(Mul(n, perKv + 2), kv)
  {
    var kvs := Div(len, perKv + 2);
    var (q, kv) := Sizes(len, perKv, n);
    DivMod(len, perKv + 2);
    CeilIs(len, n);
    FloorsLose(kvs, perKv, n);
    Times(n, q, kv);
    Times(kvs, perKv, 1);
    WholeSize(len, n, q + 2 * kv);
    assert Mul(kvs, 1) == kvs;
    assert Mul(n, kv) == kvs by { hide Mul, Div, Mod, ChunkSize; }
    Regroup(n, perKv + 2, kv);
    Regroup(n, kv, perKv + 2);
    Commute(kv, perKv + 2);
  }

  lemma WholeSize(len: nat, n: nat, size: nat)
    requires 0 < n && Whole(len, n, size)
    ensures ChunkSize(len, n) == size
  {
  }

  /** Splitting succeeds exactly when the query heads divide among the key-value heads and the rows divide into one
      block per key-value head, each of one head's rows for every query head, the key and the value. */
  lemma SplitsExactly<R>(t: seq<R>, heads: nat, groups: nat)
    requires 0 < groups
    ensures SplitQkv(t, heads, groups).Some? <==>
              heads % groups == 0 && |t| % Mul(groups, heads / groups + 2) == 0
  {
    var perKv := Div(heads, groups);
    var d := Mul(groups, perKv + 2);
    Positive(groups, perKv + 2);
    if SplitQkv(t, heads, groups).Some? {
      WholeDivides(|t|, perKv, groups);
      var (_, kv) := Sizes(|t|, perKv, groups);
      Commute(d, kv);
      Exact(kv, d);
    }
    if heads % groups == 0 && |t| % d == 0 {
      var h := Div(|t|, d);
      DivMod(|t|, d);
      var size := Mul(h, perKv) + 2 * h;
      HeadRows(groups, perKv, h);
      Commute(h, d);
      SplitSizes(perKv, h, groups);
      SplitKnown(t, heads, groups, perKv, Mul(h, perKv), h);
    }
  }

  lemma HeadRows(groups: nat, perKv: nat, h: nat)
    ensures Mul(Mul(groups, perKv + 2), h) == Mul(groups, Mul(h, perKv) + 2 * h)
  {
    Regroup(groups, perKv + 2, h);
    Commute(perKv + 2, h);
    Spread(h, perKv, 2);
  }

  /** All pieces have `size` rows exactly when the rows are a multiple of it and torch arrives at that size. */
  lemma WholeExactly(len: nat, n: nat, size: nat)
    requires 0 < n
    ensures Whole(len, n, size) <==>
              if size == 0 then len == 0 else len % size == 0 && len <= Mul(n, size) < len + n
  {
    CeilIs(len, n);
    PieceCount(len, n);
    CeilUnique(len, n, size);
    if 0 < size && ChunkSize(len, n) == size && 0 < len {
      var count := ChunkCount(len, n);
      if Mul(count, size) == len {
        Exact(count, size);
      }
      if len % size == 0 {
        DivMod(len, size);
        CountOfMultiple(len, n, size);
      }
    }
  }

  lemma CeilUnique(len: nat, n: nat, size: nat)
    requires 0 < n
    ensures ChunkSize(len, n) == size <==> len <= Mul(n, size) < len + n
  {
    CeilIs(len, n);
    var c := ChunkSize(len, n);
    if len <= Mul(n, size) < len + n {
      if c < size { Ahead(n, c, size); }
      if size < c { Ahead(n, size, c); }
    }
  }

  lemma CountOfMultiple(len: nat, n: nat, size: nat)
    requires 0 < n && 0 < size && 0 < len && ChunkSize(len, n) == size && len % size == 0
    ensures Mul(ChunkCount(len, n), size) == len
  {
    DivMod(len, size);
    Exact(Div(len, size), size);
    Commute(Div(len, size), size);
  }

  lemma {:induction false} AllSplit<R>(shards: seq<seq<R>>, n: nat, q: nat, kv: nat, m: nat)
    requires 0 < n && m <= |shards|
    ensures MergeShards(shards, n, q, kv, m).Some? <==> forall i :: 0 <= i < m ==> Whole(|shards[i]|, n, q + 2 * kv)
  {
    hide Whole, Gather;
    if 0 < m { AllSplit(shards, n, q, kv, m - 1); }
  }

  /** Merging shards succeeds exactly when the query heads divide among the key-value heads, there are no more shards
      than key-value heads, the first shard divides into whole blocks, and torch cuts every other shard into pieces
      of that block's size. */
  lemma MergesExactly<R>(shards: seq<seq<R>>, heads: nat, groups: nat)
    requires 0 < groups && 0 < |shards|
    ensures MergeTp(shards, heads, groups).Some? <==>
              && heads % groups == 0 && |shards| <= groups
              && (var perShard := groups / |shards|;
                  var size := |shards[0]| / perShard;
                  && |shards[0]| % Mul(perShard, heads / groups + 2) == 0
                  && forall i :: 0 < i < |shards| ==>
                       if size == 0 then |shards[i]| == 0
                       else |shards[i]| % size == 0 && |shards[i]| <= Mul(perShard, size) < |shards[i]| + perShard)
  {
    SharesPositive(groups, |shards|);
    if heads % groups == 0 && |shards| <= groups {
      var perKv, perShard := Div(heads, groups), Div(groups, |shards|);
      FirstShard(|shards[0]|, perKv, perShard);
      if Mod(|shards[0]|, perKv + 2) == 0 {
        var (q, kv) := Sizes(|shards[0]|, perKv, perShard);
        AllSplit(shards, perShard, q, kv, |shards|);
        hide MergeShards, Sizes, Whole;
        forall i | 0 <= i < |shards| { WholeExactly(|shards[i]|, perShard, q + 2 * kv); }
      }
    }
  }

  lemma SharesPositive(groups: nat, shards: nat)
    requires 0 < shards
    ensures Div(groups, shards) == 0 <==> groups < shards
  {
  }

  /** For the first shard, whole pieces are whole blocks. */
  lemma FirstShard(len: nat, perKv: nat, n: nat)
    requires 0 < n
    ensures len % Mul(n, perKv + 2) == 0 <==>
              Mod(len, perKv + 2) == 0 && var (q, kv) := Sizes(len, perKv, n); Whole(len, n, q + 2 * kv)
    ensures len % Mul(n, perKv + 2) == 0 ==> var (q, kv) := Sizes(len, perKv, n); q + 2 * kv == len / n
  {
    var d := Mul(n, perKv + 2);
    Positive(n, perKv + 2);
    var (q, kv) := Sizes(len, perKv, n);
    if Mod(len, perKv + 2) == 0 && Whole(len, n, q + 2 * kv) {
      WholeDivides(len, perKv, n);
      Commute(d, kv);
      Exact(kv, d);
    }
    if len % d == 0 {
      var h := Div(len, d);
      DivMod(len, d);
      HeadRows(n, perKv, h);
      Commute(h, d);
      SplitSizes(perKv, h, n);
      CountExact(n, Mul(h, perKv) + 2 * h);
      Exact(Mul(h, perKv) + 2 * h, n);
    }
  }
}
