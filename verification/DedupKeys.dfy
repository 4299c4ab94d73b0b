/** What the deduplication key of the asynchronous handler can and cannot tell apart. */
module DedupKeys {
  import opened Outcomes
  import opened IntMath
  import opened Shapes
  import opened OffloadModel
  import opened OffloadProof

  // ---------------------------------------------------------------- different storages

  predicate Apart(s: Storage, t: Storage) {
    s.ptr + s.bytes <= t.ptr || t.ptr + t.bytes <= s.ptr
  }

  /** The tensor starts before the end of its storage, as every tensor with an element does. */
  predicate StartsInside(t: Tensor) {
    1 <= t.dtype.itemsize && Mul(t.offset, t.dtype.itemsize) < t.storage.bytes
  }

  lemma StartsEarly(t: Tensor)
    requires StartsInside(t)
    ensures t.offset < t.storage.bytes
  {
    Ahead(t.offset, 0, t.dtype.itemsize);
  }

  /** Although the key adds elements to bytes, tensors in disjoint storages never share one. */
  lemma KeysApart(s: Tensor, t: Tensor)
    requires StartsInside(s) && StartsInside(t) && Apart(s.storage, t.storage)
    ensures KeyOf(s) != KeyOf(t)
  {
    StartsEarly(s);
    StartsEarly(t);
  }

  predicate InGroup(state: map<Tag, Slot>, g: int, tag: Tag) {
    tag in state && tag.group == g && state[tag].Held?
  }

  /** Tensors that are alive together: each in its storage, and storages that do not overlap. */
  ghost predicate LaidOut(state: map<Tag, Slot>, g: int) {
    && (forall tag :: InGroup(state, g, tag) ==> StartsInside(state[tag].tensor))
    && (forall s, t :: InGroup(state, g, s) && InGroup(state, g, t) ==>
          var a, b := state[s].tensor.storage, state[t].tensor.storage; a == b || Apart(a, b))
  }

  predicate SameStart(s: Tensor, t: Tensor) {
    s.storage == t.storage && s.offset == t.offset && s.dtype == t.dtype
  }

  /** Tensors that start at the same place of the same storage, with the same type, have the same contents. */
  ghost predicate StartsAgree(state: map<Tag, Slot>, g: int) {
    forall s, t :: InGroup(state, g, s) && InGroup(state, g, t) && SameStart(state[s].tensor, state[t].tensor) ==>
      state[s].tensor.flat == state[t].tensor.flat
  }

  /** Keys can fail only inside one storage. */
  lemma FaithfulInside(state: map<Tag, Slot>, g: int)
    requires LaidOut(state, g)
    ensures Faithful(state, g) <==> StartsAgree(state, g)
  {
    hide StartsInside, Apart;
    if StartsAgree(state, g) {
      forall s, t | InGroup(state, g, s) && InGroup(state, g, t) ensures Agree(state[s].tensor, state[t].tensor) {
        if state[s].tensor.storage != state[t].tensor.storage {
          KeysApart(state[s].tensor, state[t].tensor);
        }
      }
    }
    if Faithful(state, g) {
      forall s, t | InGroup(state, g, s) && InGroup(state, g, t) && SameStart(state[s].tensor, state[t].tensor)
        ensures state[s].tensor.flat == state[t].tensor.flat
      {
        assert Agree(state[s].tensor, state[t].tensor);
      }
    }
  }

  ghost predicate AllShaped(state: map<Tag, Slot>) {
    forall tag :: tag in state && state[tag].Held? ==> WellShaped(state[tag].tensor)
  }

  /** Moving a group out and back restores it exactly when tensors with a common start have common contents. */
  lemma DedupByStart(cfg: Config, h: Handler, order: seq<Tag>, g: int, alloc: Key -> int)
    requires Enumerates(order, h.state.Keys) && AllHeld(h.state, g) && g < cfg.groups
    requires AllShaped(h.state) && LaidOut(h.state, g)
    ensures BulkOffload(h, order, g).Ok?
    ensures Restored(h.state, g, BulkReload(cfg, BulkOffload(h, order, g).value, g, alloc)) <==> StartsAgree(h.state, g)
  {
    hide BulkOffload, BulkReload, Restored, Faithful, StartsAgree, LaidOut;
    DedupIsExact(cfg, h, order, g, alloc);
    FaithfulInside(h.state, g);
  }

  // ---------------------------------------------------------------- contiguous tensors

  /** The elements of every storage, read with a given type. */
  type Memory = map<(Storage, Dtype), seq<int>>

  predicate Contiguous(t: Tensor, memory: Memory) {
    && (t.storage, t.dtype) in memory
    && var data := memory[(t.storage, t.dtype)];
       t.offset + |t.flat| <= |data| && t.flat == data[t.offset..t.offset + |t.flat|]
  }

  ghost predicate CountsAgree(state: map<Tag, Slot>, g: int) {
    forall s, t :: InGroup(state, g, s) && InGroup(state, g, t) && SameStart(state[s].tensor, state[t].tensor) ==>
      |state[s].tensor.flat| == |state[t].tensor.flat|
  }

  /** For contiguous tensors the condition is one on sizes: what starts at the same place must be equally long. */
  lemma DedupByCount(cfg: Config, h: Handler, order: seq<Tag>, g: int, alloc: Key -> int, memory: Memory)
    requires Enumerates(order, h.state.Keys) && AllHeld(h.state, g) && g < cfg.groups
    requires AllShaped(h.state) && LaidOut(h.state, g)
    requires forall tag :: InGroup(h.state, g, tag) ==> Contiguous(h.state[tag].tensor, memory)
    ensures BulkOffload(h, order, g).Ok?
    ensures Restored(h.state, g, BulkReload(cfg, BulkOffload(h, order, g).value, g, alloc)) <==> CountsAgree(h.state, g)
  {
    hide BulkOffload, BulkReload, Restored, LaidOut, Enumerates, AllShaped;
    DedupByStart(cfg, h, order, g, alloc);
    if CountsAgree(h.state, g) {
      forall s, t | InGroup(h.state, g, s) && InGroup(h.state, g, t) && SameStart(h.state[s].tensor, h.state[t].tensor)
        ensures h.state[s].tensor.flat == h.state[t].tensor.flat
      {
        assert Contiguous(h.state[s].tensor, memory) && Contiguous(h.state[t].tensor, memory);
      }
    }
  }

  // ---------------------------------------------------------------- inputs that fail

  const FLOAT := Dtype("float32", 4)
  const BYTE := Dtype("uint8", 1)

  /** A 2 x 2 tensor and its transpose. */
  const MATRIX := Tensor(Storage(4096, 16), 0, FLOAT, [2, 2], [1, 2, 3, 4])
  const TRANSPOSE := Tensor(Storage(4096, 16), 0, FLOAT, [2, 2], [1, 3, 2, 4])

  /** The first row of the same tensor. */
  const PREFIX := Tensor(Storage(4096, 16), 0, FLOAT, [2], [1, 2])

  /** An empty slice at the end of one storage, and the storage right behind it. */
  const EMPTY_TAIL := Tensor(Storage(4096, 512), 512, BYTE, [0], [])
  const NEIGHBOUR := Tensor(Storage(4608, 1), 0, BYTE, [1], [7])

  const PAIR_ORDER := [Tag(0, 0), Tag(0, 1)]

  function PairHandler(s: Tensor, t: Tensor): Handler {
    INITIAL.(state := map[Tag(0, 0) := Held(s), Tag(0, 1) := Held(t)])
  }

  /** What becomes of a group of two tensors that is moved out and back. */
  function PairAfter(s: Tensor, t: Tensor, alloc: Key -> int): Outcome<Handler> {
    var h1 :- BulkOffload(PairHandler(s, t), PAIR_ORDER, 0);
    BulkReload(Config(3, 2), h1, 0, alloc)
  }

  lemma Numels()
    ensures Numel([]) == 1 && Numel([0]) == 0 && Numel([1]) == 1 && Numel([2]) == 2 && Numel([2, 2]) == 4
  {
    assert [2, 2][1..] == [2] && [2][1..] == [] && [1][1..] == [] && [0][1..] == [];
  }

  lemma PairScan(s: Tensor, t: Tensor)
    ensures BulkOffload(PairHandler(s, t), PAIR_ORDER, 0).Ok?
    ensures var h1 := BulkOffload(PairHandler(s, t), PAIR_ORDER, 0).value;
            && h1.state == map[Tag(0, 0) := Moved(KeyOf(s), s.shape), Tag(0, 1) := Moved(KeyOf(t), t.shape)]
            && 0 in h1.table && KeyOf(s) in h1.table[0] && h1.table[0][KeyOf(s)] == ValueOf(s)
  {
    hide KeyOf, ValueOf;
    var state := PairHandler(s, t).state;
    assert OffloadScan(PAIR_ORDER, 0, 0, state) == Ok((state, map[]));
    assert OffloadScan(PAIR_ORDER, 1, 0, state)
        == Ok((state[Tag(0, 0) := Moved(KeyOf(s), s.shape)], map[KeyOf(s) := ValueOf(s)]));
  }

  /** The second tensor is recovered from the first one's host copy when they share a key. */
  lemma PairRecovered(s: Tensor, t: Tensor, alloc: Key -> int)
    requires KeyOf(s) == KeyOf(t) && WellShaped(s)
    ensures PairAfter(s, t, alloc).Ok? <==> Numel(t.shape) == |s.flat|
    ensures PairAfter(s, t, alloc).Ok? ==>
              var state := PairAfter(s, t, alloc).value.state;
              Tag(0, 1) in state && state[Tag(0, 1)].Held? && state[Tag(0, 1)].tensor.flat == s.flat
  {
    hide Numel, KeyOf;
    PairScan(s, t);
    var h1 := BulkOffload(PairHandler(s, t), PAIR_ORDER, 0).value;
    hide BulkOffload;
    var m := h1.table[0];
    assert Recover(h1.state[Tag(0, 0)], m, alloc).Ok?;
    if Numel(t.shape) == |s.flat| {
      assert Recover(h1.state[Tag(0, 1)], m, alloc).Ok?;
    } else {
      assert Recover(h1.state[Tag(0, 1)], m, alloc).Crash?;
    }
  }

  /** The transpose comes back as the matrix itself, although it lies properly in its storage. */
  lemma TransposeIsCorrupted(alloc: Key -> int)
    ensures LaidOut(PairHandler(MATRIX, TRANSPOSE).state, 0)
    ensures PairAfter(MATRIX, TRANSPOSE, alloc).Ok?
    ensures var state := PairAfter(MATRIX, TRANSPOSE, alloc).value.state;
            Tag(0, 1) in state && state[Tag(0, 1)].Held? && state[Tag(0, 1)].tensor.flat == MATRIX.flat != TRANSPOSE.flat
  {
    hide PairAfter, Numel;
    Numels();
    PairRecovered(MATRIX, TRANSPOSE, alloc);
    assert MATRIX.flat[1] != TRANSPOSE.flat[1];
  }

  /** Viewing a slice's host copy with the shape of a longer tensor, or the reverse, raises. */
  lemma PrefixRaises(alloc: Key -> int)
    ensures LaidOut(PairHandler(MATRIX, PREFIX).state, 0)
    ensures PairAfter(MATRIX, PREFIX, alloc).Crash? && PairAfter(PREFIX, MATRIX, alloc).Crash?
  {
    hide PairAfter, Numel;
    Numels();
    PairRecovered(MATRIX, PREFIX, alloc);
    PairRecovered(PREFIX, MATRIX, alloc);
  }

  /** The one way for two storages to meet: an empty slice at the very end of a storage. */
  lemma EmptyTailRaises(alloc: Key -> int)
    ensures Apart(EMPTY_TAIL.storage, NEIGHBOUR.storage) && !StartsInside(EMPTY_TAIL) && StartsInside(NEIGHBOUR)
    ensures PairAfter(EMPTY_TAIL, NEIGHBOUR, alloc).Crash? && PairAfter(NEIGHBOUR, EMPTY_TAIL, alloc).Crash?
  {
    hide PairAfter, Numel;
    Numels();
    PairRecovered(EMPTY_TAIL, NEIGHBOUR, alloc);
    PairRecovered(NEIGHBOUR, EMPTY_TAIL, alloc);
  }
}
