/** The columnar batch container and its data-parallel dispatch: pad, chunk, map, concatenate, unpad. */
module DataProtoDispatch {
  import opened Outcomes
  import opened IntMath

  /** A batch: named tensor columns and named object columns, all with one entry per row. */
  datatype DataProto<T> = DataProto(size: nat, tensors: map<string, seq<T>>, objects: map<string, seq<T>>)

  /** One row across all columns. */
  datatype Item<T> = Item(tensors: map<string, T>, objects: map<string, T>)

  predicate Uniform<T>(columns: map<string, seq<T>>, size: nat) {
    forall key :: key in columns ==> |columns[key]| == size
  }

  predicate Valid<T>(d: DataProto<T>) {
    Uniform(d.tensors, d.size) && Uniform(d.objects, d.size)
  }

  function EntryAt<T>(columns: map<string, seq<T>>, size: nat, i: nat): map<string, T>
    requires Uniform(columns, size) && i < size
  {
    map key | key in columns :: columns[key][i]
  }

  function ItemAt<T>(d: DataProto<T>, i: nat): Item<T>
    requires Valid(d) && i < d.size
  {
    Item(EntryAt(d.tensors, d.size, i), EntryAt(d.objects, d.size, i))
  }

  /** The batch as a list of rows. */
  function Rows<T>(d: DataProto<T>): (r: seq<Item<T>>)
    requires Valid(d)
    ensures |r| == d.size
  {
    seq(d.size, i requires 0 <= i < d.size => ItemAt(d, i))
  }

  function SliceColumns<T>(columns: map<string, seq<T>>, size: nat, from: nat, to: nat): map<string, seq<T>>
    requires Uniform(columns, size) && from <= to <= size
  {
    map key | key in columns :: columns[key][from..to]
  }

  function Slice<T>(d: DataProto<T>, from: nat, to: nat): (r: DataProto<T>)
    requires Valid(d) && from <= to <= d.size
    ensures Valid(r)
  {
    DataProto(to - from, SliceColumns(d.tensors, d.size, from, to), SliceColumns(d.objects, d.size, from, to))
  }

  ghost predicate SameKeys<T>(d: DataProto<T>, e: DataProto<T>) {
    d.tensors.Keys == e.tensors.Keys && d.objects.Keys == e.objects.Keys
  }

  function AppendColumns<T>(a: map<string, seq<T>>, b: map<string, seq<T>>): map<string, seq<T>>
    requires a.Keys == b.Keys
  {
    map key | key in a :: a[key] + b[key]
  }

  function Append<T>(d: DataProto<T>, e: DataProto<T>): (r: DataProto<T>)
    requires Valid(d) && Valid(e) && SameKeys(d, e)
    ensures Valid(r) && SameKeys(d, r)
  {
    DataProto(d.size + e.size, AppendColumns(d.tensors, e.tensors), AppendColumns(d.objects, e.objects))
  }

  ghost predicate Alike<T>(ds: seq<DataProto<T>>) {
    forall i, j :: 0 <= i < |ds| && 0 <= j < |ds| ==> Valid(ds[i]) && SameKeys(ds[i], ds[j])
  }

  /** Column-wise concatenation of batches with the same columns. */
  function Concat<T>(ds: seq<DataProto<T>>): (r: DataProto<T>)
    requires ds != [] && Alike(ds)
    ensures Valid(r) && SameKeys(ds[0], r)
    decreases |ds|
  {
    if |ds| == 1 then ds[0] else
    AlikePrefix(ds, |ds| - 1);
    Append(Concat(ds[..|ds| - 1]), ds[|ds| - 1])
  }

  lemma AlikePrefix<T>(ds: seq<DataProto<T>>, k: nat)
    requires Alike(ds) && k <= |ds|
    ensures Alike(ds[..k])
  {
  }

  // ---------------------------------------------------------------- rows of the results

  lemma SliceEntry<T>(columns: map<string, seq<T>>, size: nat, from: nat, to: nat, i: nat)
    requires Uniform(columns, size) && from <= to <= size && i < to - from
    ensures EntryAt(SliceColumns(columns, size, from, to), to - from, i) == EntryAt(columns, size, from + i)
  {
  }

  lemma SliceItem<T>(d: DataProto<T>, from: nat, to: nat, i: nat)
    requires Valid(d) && from <= to <= d.size && i < to - from
    ensures ItemAt(Slice(d, from, to), i) == ItemAt(d, from + i)
  {
    hide EntryAt, SliceColumns;
    SliceEntry(d.tensors, d.size, from, to, i);
    SliceEntry(d.objects, d.size, from, to, i);
  }

  lemma SliceRows<T>(d: DataProto<T>, from: nat, to: nat)
    requires Valid(d) && from <= to <= d.size
    ensures Rows(Slice(d, from, to)) == Rows(d)[from..to]
  {
    var r := Slice(d, from, to);
    assert r.size == to - from;
    hide ItemAt, Slice, Valid;
    forall i | 0 <= i < r.size ensures Rows(r)[i] == Rows(d)[from..to][i] {
      SliceItem(d, from, to, i);
    }
  }

  lemma AppendEntry<T>(a: map<string, seq<T>>, m: nat, b: map<string, seq<T>>, n: nat, i: nat)
    requires Uniform(a, m) && Uniform(b, n) && a.Keys == b.Keys && i < m + n
    ensures EntryAt(AppendColumns(a, b), m + n, i) == if i < m then EntryAt(a, m, i) else EntryAt(b, n, i - m)
  {
    var e := EntryAt(AppendColumns(a, b), m + n, i);
    if i < m { assert e == EntryAt(a, m, i); } else { assert e == EntryAt(b, n, i - m); }
  }

  lemma AppendItem<T>(d: DataProto<T>, e: DataProto<T>, i: nat)
    requires Valid(d) && Valid(e) && SameKeys(d, e) && i < d.size + e.size
    ensures ItemAt(Append(d, e), i) == if i < d.size then ItemAt(d, i) else ItemAt(e, i - d.size)
  {
    hide EntryAt, AppendColumns;
    AppendEntry(d.tensors, d.size, e.tensors, e.size, i);
    AppendEntry(d.objects, d.size, e.objects, e.size, i);
  }

  lemma AppendRows<T>(d: DataProto<T>, e: DataProto<T>)
    requires Valid(d) && Valid(e) && SameKeys(d, e)
    ensures Rows(Append(d, e)) == Rows(d) + Rows(e)
  {
    var r := Append(d, e);
    assert r.size == d.size + e.size;
    hide ItemAt, Append, Valid, SameKeys;
    forall i | 0 <= i < r.size ensures Rows(r)[i] == (Rows(d) + Rows(e))[i] {
      AppendItem(d, e, i);
    }
  }

  function AllRows<T>(ds: seq<DataProto<T>>): seq<Item<T>>
    requires forall i :: 0 <= i < |ds| ==> Valid(ds[i])
  {
    if ds == [] then [] else AllRows(ds[..|ds| - 1]) + Rows(ds[|ds| - 1])
  }

  lemma {:induction false} ConcatRows<T>(ds: seq<DataProto<T>>)
    requires ds != [] && Alike(ds)
    ensures Rows(Concat(ds)) == AllRows(ds)
    decreases |ds|
  {
    if |ds| == 1 {
      assert ds[..0] == [];
      assert AllRows(ds) == [] + Rows(ds[0]);
    } else {
      AlikePrefix(ds, |ds| - 1);
      ConcatRows(ds[..|ds| - 1]);
      AppendRows(Concat(ds[..|ds| - 1]), ds[|ds| - 1]);
    }
  }

  // ---------------------------------------------------------------- padding

  /** How many rows are missing to a multiple of the divisor. */
  function PadSize(size: nat, divisor: nat): nat
    requires 0 < divisor
  {
    if size % divisor != 0 then divisor - size % divisor else 0
  }

  /** Row i of the padded batch is row i mod size of the original. */
  ghost predicate Cyclic<T>(rows: seq<T>, padded: seq<T>) {
    |rows| > 0 && forall i :: 0 <= i < |padded| ==> padded[i] == rows[i % |rows|]
  }

  /** What the padding loop knows: `pieces` are the batch and its padding so far. */
  ghost predicate Padding<T>(d: DataProto<T>, pieces: seq<DataProto<T>>, total: nat, whole: bool) {
    && Valid(d) && 0 < d.size && pieces != [] && Alike(pieces) && SameKeys(d, pieces[0])
    && Concat(pieces).size == total && Cyclic(Rows(d), Rows(Concat(pieces))) && (whole ==> total % d.size == 0)
  }

  lemma PaddingStart<T>(d: DataProto<T>)
    requires Valid(d) && 0 < d.size
    ensures Padding(d, [d], d.size, true)
  {
    CyclicSelf(Rows(d));
    assert Concat([d]) == d;
  }

  lemma PaddingStep<T>(d: DataProto<T>, pieces: seq<DataProto<T>>, total: nat, take: nat)
    requires Padding(d, pieces, total, true) && take <= d.size
    ensures Padding(d, pieces + [Slice(d, 0, take)], total + take, take == d.size)
  {
    var piece, all := Slice(d, 0, take), Concat(pieces);
    assert SameKeys(d, piece) && piece.size == take;
    SliceRows(d, 0, take);
    AppendRows(all, piece);
    CyclicGrow(Rows(d), Rows(all), take);
    GrowConcat(pieces, piece);
    hide Rows, Cyclic, Concat, Slice, Alike;
  }

  lemma PaddingMeans<T>(d: DataProto<T>, pieces: seq<DataProto<T>>, total: nat, whole: bool)
    requires Padding(d, pieces, total, whole)
    ensures pieces != [] && Alike(pieces)
    ensures var all := Concat(pieces); Valid(all) && SameKeys(d, all) && all.size == total && Cyclic(Rows(d), Rows(all))
  {
  }

  /** The padding loop: whole copies of the batch, then a prefix, until enough rows are there. */
  method AddPadding<T>(d: DataProto<T>, padSize: nat) returns (padded: DataProto<T>)
    requires Valid(d) && 0 < d.size
    ensures Valid(padded) && SameKeys(d, padded) && padded.size == d.size + padSize && Cyclic(Rows(d), Rows(padded))
  {
    hide Padding, Rows, Concat, Cyclic, Alike;
    var pieces := [d];
    var remaining := padSize;
    PaddingStart(d);
    ghost var whole := true;
    while remaining > 0
      invariant 0 <= remaining <= padSize && Padding(d, pieces, d.size + padSize - remaining, whole)
      invariant remaining > 0 ==> whole
      decreases remaining
    {
      var take := if remaining < d.size then remaining else d.size;
      PaddingStep(d, pieces, d.size + padSize - remaining, take);
      pieces := pieces + [Slice(d, 0, take)];
      remaining := remaining - take;
      whole := take == d.size;
    }
    PaddingMeans(d, pieces, d.size + padSize, whole);
    padded := Concat(pieces);
  }

  /** Padding to a multiple of the divisor; an empty batch and an exact multiple stay as they are. */
  method PadToDivisor<T>(d: DataProto<T>, divisor: nat) returns (padded: DataProto<T>, padSize: nat)
    requires Valid(d) && 0 < divisor
    ensures Valid(padded) && SameKeys(d, padded)
    ensures padSize == PadSize(d.size, divisor) < divisor && padded.size == d.size + padSize && padded.size % divisor == 0
    ensures 0 < d.size ==> Cyclic(Rows(d), Rows(padded))
    ensures d.size == 0 ==> padded == d
  {
    hide Rows, Cyclic;
    padSize, padded := 0, d;
    if d.size % divisor != 0 {
      ModFill(d.size, divisor);
      padSize := divisor - d.size % divisor;
      padded := AddPadding(d, padSize);
    } else if d.size > 0 {
      CyclicSelf(Rows(d));
    }
  }

  lemma CyclicSelf<T>(rows: seq<T>)
    requires 0 < |rows|
    ensures Cyclic(rows, rows)
  {
  }

  lemma CyclicGrow<T>(rows: seq<T>, padded: seq<T>, take: nat)
    requires Cyclic(rows, padded) && |padded| % |rows| == 0 && take <= |rows|
    ensures Cyclic(rows, padded + rows[..take])
    ensures take == |rows| ==> (|padded| + take) % |rows| == 0
  {
    var all := padded + rows[..take];
    forall i | 0 <= i < |all| ensures all[i] == rows[i % |rows|] {
      if |padded| <= i < |padded| + |rows| { ModShift(|padded|, i - |padded|, |rows|); }
    }
    if take == |rows| { ModFull(|padded|, |rows|); }
  }

  lemma GrowConcat<T>(ds: seq<DataProto<T>>, e: DataProto<T>)
    requires ds != [] && Alike(ds) && Valid(e) && SameKeys(ds[0], e)
    ensures Alike(ds + [e]) && Concat(ds + [e]) == Append(Concat(ds), e)
  {
    var all := ds + [e];
    forall i, j | 0 <= i < |all| && 0 <= j < |all| ensures Valid(all[i]) && SameKeys(all[i], all[j]) {
      assert i < |ds| ==> SameKeys(ds[0], ds[i]);
      assert j < |ds| ==> SameKeys(ds[0], ds[j]);
    }
    assert all[..|all| - 1] == ds;
  }

  /** Dropping the padding, as a Python slice from the front: more padding than rows leaves nothing. */
  function Unpad<T>(d: DataProto<T>, padSize: nat): (r: DataProto<T>)
    requires Valid(d)
    ensures Valid(r)
  {
    if padSize != 0 then Slice(d, 0, if padSize <= d.size then d.size - padSize else 0) else d
  }

  // ---------------------------------------------------------------- chunking

  /** The i-th of n equal chunks. */
  function ChunkAt<T>(d: DataProto<T>, n: nat, i: nat): DataProto<T>
    requires Valid(d) && 0 < n && d.size % n == 0 && i < n
  {
    ChunkBounds(d.size, n, i);
    Slice(d, i * (d.size / n), (i + 1) * (d.size / n))
  }

  lemma ChunkBounds(size: nat, n: nat, i: nat)
    requires 0 < n && size % n == 0 && i < n
    ensures 0 <= i * (size / n) <= (i + 1) * (size / n) == i * (size / n) + size / n <= size
  {
    var c := size / n;
    assert size == n * c;
    assert (n - (i + 1)) * c >= 0;
    assert n * c == (i + 1) * c + (n - (i + 1)) * c;
  }

  /** Splitting into equal chunks, chunk by chunk; a number of chunks that does not divide the rows raises. */
  method Chunk<T>(d: DataProto<T>, n: nat) returns (r: Outcome<seq<DataProto<T>>>)
    requires Valid(d)
    ensures r.Ok? <==> 0 < n && d.size % n == 0
    ensures r.Ok? ==> |r.value| == n && forall i :: 0 <= i < n ==> r.value[i] == ChunkAt(d, n, i)
  {
    if n == 0 || d.size % n != 0 {
      return Crash;
    }
    var chunks: seq<DataProto<T>> := [];
    for i := 0 to n
      invariant |chunks| == i && forall k :: 0 <= k < i ==> chunks[k] == ChunkAt(d, n, k)
    {
      ChunkBounds(d.size, n, i);
      chunks := chunks + [Slice(d, i * (d.size / n), (i + 1) * (d.size / n))];
    }
    r := Ok(chunks);
  }

  // ---------------------------------------------------------------- the dispatch law

  /** Applying a function to every row. */
  function MapRows<T, U>(f: Item<T> -> Item<U>, rows: seq<Item<T>>): seq<Item<U>> {
    seq(|rows|, i requires 0 <= i < |rows| => f(rows[i]))
  }

  lemma ChunkRows<T>(d: DataProto<T>, n: nat, i: nat)
    requires Valid(d) && 0 < n && d.size % n == 0 && i < n
    ensures 0 <= i * (d.size / n) <= (i + 1) * (d.size / n) <= d.size
    ensures Valid(ChunkAt(d, n, i)) && Rows(ChunkAt(d, n, i)) == Rows(d)[i * (d.size / n)..(i + 1) * (d.size / n)]
  {
    ChunkBounds(d.size, n, i);
    SliceRows(d, i * (d.size / n), (i + 1) * (d.size / n));
  }

  /** A worker's output holds one row per row of its chunk: the function's value. */
  ghost predicate Computes<T, U>(f: Item<T> -> Item<U>, input: DataProto<T>, output: DataProto<U>) {
    Valid(input) && Valid(output) && Rows(output) == MapRows(f, Rows(input))
  }

  /** The outputs of the first k chunks, in order, are the function's values on the rows of those chunks. */
  lemma {:induction false} OutputsInOrder<T, U>(
      f: Item<T> -> Item<U>, d: DataProto<T>, n: nat, outputs: seq<DataProto<U>>, k: nat)
    requires Valid(d) && 0 < n && d.size % n == 0 && k <= n == |outputs|
    requires forall i :: 0 <= i < n ==> Computes(f, ChunkAt(d, n, i), outputs[i])
    ensures 0 <= k * (d.size / n) <= d.size
    ensures forall i :: 0 <= i < k ==> Valid(outputs[i])
    ensures AllRows(outputs[..k]) == MapRows(f, Rows(d))[..k * (d.size / n)]
  {
    if k == 0 {
      assert outputs[..0] == [];
    } else {
      OutputsInOrder(f, d, n, outputs, k - 1);
      ChunkRows(d, n, k - 1);
      assert Computes(f, ChunkAt(d, n, k - 1), outputs[k - 1]);
      assert outputs[..k][..k - 1] == outputs[..k - 1];
      var c := d.size / n;
      MapSlice(f, Rows(d), (k - 1) * c, k * c);
      Join(MapRows(f, Rows(d)), (k - 1) * c, k * c);
    }
  }

  lemma MapSlice<T, U>(f: Item<T> -> Item<U>, rows: seq<Item<T>>, a: nat, b: nat)
    requires a <= b <= |rows|
    ensures MapRows(f, rows[a..b]) == MapRows(f, rows)[a..b]
  {
  }

  lemma Join<T>(s: seq<T>, a: nat, b: nat)
    requires a <= b <= |s|
    ensures s[..b] == s[..a] + s[a..b]
  {
  }

  lemma CyclicPrefix<T>(rows: seq<T>, padded: seq<T>)
    requires Cyclic(rows, padded) && |rows| <= |padded|
    ensures padded[..|rows|] == rows
  {
  }

  lemma GatheredOutputs<T, U>(f: Item<T> -> Item<U>, d: DataProto<T>, n: nat, outputs: seq<DataProto<U>>)
    requires Valid(d) && 0 < n && d.size % n == 0 && |outputs| == n && Alike(outputs)
    requires forall i :: 0 <= i < n ==> Computes(f, ChunkAt(d, n, i), outputs[i])
    ensures Rows(Concat(outputs)) == MapRows(f, Rows(d))
  {
    hide *;
    OutputsInOrder(f, d, n, outputs, n);
    ConcatRows(outputs);
    Whole(d.size, n);
    MapLength(f, Rows(d));
    TakeAll(outputs);
    TakeAll(MapRows(f, Rows(d)));
  }

  lemma Whole(size: nat, n: nat)
    requires 0 < n && size % n == 0
    ensures n * (size / n) == size
  {
  }

  lemma TakeAll<T>(s: seq<T>)
    ensures s[..|s|] == s
  {
  }

  lemma MapLength<T, U>(f: Item<T> -> Item<U>, rows: seq<Item<T>>)
    ensures |MapRows(f, rows)| == |rows|
  {
  }

  /** Unpadding keeps the rows before the padding; more padding than rows leaves none. */
  lemma UnpadRows<T>(d: DataProto<T>, padSize: nat)
    requires Valid(d)
    ensures Rows(Unpad(d, padSize)) == Rows(d)[..if padSize <= d.size then d.size - padSize else 0]
  {
    SliceRows(d, 0, if padSize <= d.size then d.size - padSize else 0);
    hide Rows, Slice;
    if padSize == 0 { assert Rows(d)[..d.size] == Rows(d); }
  }

  /** Pad to n, chunk into n, apply a row function to each chunk, concatenate and unpad: the result is the
      function applied to every original row, in order, with tensor and object columns kept together. */
  lemma DispatchLaw<T, U>(f: Item<T> -> Item<U>, d: DataProto<T>, padded: DataProto<T>, padSize: nat, n: nat,
                          outputs: seq<DataProto<U>>)
    requires Valid(d) && 0 < d.size && 0 < n
    requires Valid(padded) && padded.size == d.size + padSize && padded.size % n == 0 && Cyclic(Rows(d), Rows(padded))
    requires |outputs| == n && Alike(outputs)
    requires forall i :: 0 <= i < n ==> Computes(f, ChunkAt(padded, n, i), outputs[i])
    ensures Rows(Unpad(Concat(outputs), padSize)) == MapRows(f, Rows(d))
  {
    GatheredOutputs(f, padded, n, outputs);
    CyclicPrefix(Rows(d), Rows(padded));
    MapSlice(f, Rows(padded), 0, d.size);
    MapLength(f, Rows(padded));
    hide *;
    UnpadRows(Concat(outputs), padSize);
  }

  /** A worker that computes f row by row on every batch with the columns of d, and always returns the same columns. */
  ghost predicate Works<T(!new), U>(f: Item<T> -> Item<U>, worker: DataProto<T> -> DataProto<U>, d: DataProto<T>) {
    && (forall c: DataProto<T> :: Valid(c) && SameKeys(d, c) ==> Computes(f, c, worker(c)))
    && forall c: DataProto<T>, e: DataProto<T> :: Valid(c) && Valid(e) && SameKeys(d, c) && SameKeys(d, e) ==>
         SameKeys(worker(c), worker(e))
  }

  lemma WorkersAlike<T(!new), U>(
      f: Item<T> -> Item<U>, worker: DataProto<T> -> DataProto<U>, d: DataProto<T>, chunks: seq<DataProto<T>>,
      outputs: seq<DataProto<U>>)
    requires Works(f, worker, d) && |outputs| == |chunks|
    requires forall i :: 0 <= i < |chunks| ==> Valid(chunks[i]) && SameKeys(d, chunks[i]) && outputs[i] == worker(chunks[i])
    ensures Alike(outputs) && forall i :: 0 <= i < |chunks| ==> Computes(f, chunks[i], outputs[i])
  {
    hide Valid, SameKeys, Rows, MapRows;
    forall i | 0 <= i < |chunks| ensures Computes(f, chunks[i], outputs[i]) && Valid(outputs[i]) {
    }
  }

  /** The whole dispatch: pad, chunk, let each worker compute its chunk, concatenate and unpad. */
  method Dispatch<T(!new), U>(f: Item<T> -> Item<U>, worker: DataProto<T> -> DataProto<U>, d: DataProto<T>, n: nat)
    returns (r: DataProto<U>)
    requires Valid(d) && 0 < d.size && 0 < n && Works(f, worker, d)
    ensures Valid(r) && Rows(r) == MapRows(f, Rows(d))
  {
    hide Works, Rows, MapRows, Cyclic, Computes, Alike;
    var padded, padSize := PadToDivisor(d, n);
    var chunked := Chunk(padded, n);
    var chunks := chunked.value;
    var outputs: seq<DataProto<U>> := [];
    for i := 0 to n
      invariant |outputs| == i && forall k :: 0 <= k < i ==> outputs[k] == worker(chunks[k])
    {
      outputs := outputs + [worker(chunks[i])];
    }
    forall i | 0 <= i < n ensures Valid(chunks[i]) && SameKeys(d, chunks[i]) {
      ChunkKeys(padded, n, i);
    }
    WorkersAlike(f, worker, d, chunks, outputs);
    DispatchLaw(f, d, padded, padSize, n, outputs);
    r := Unpad(Concat(outputs), padSize);
  }

  lemma ChunkKeys<T>(d: DataProto<T>, n: nat, i: nat)
    requires Valid(d) && 0 < n && d.size % n == 0 && i < n
    ensures Valid(ChunkAt(d, n, i)) && SameKeys(d, ChunkAt(d, n, i))
  {
    ChunkBounds(d.size, n, i);
  }

  /** Workers that return their chunk give the batch back. */
  method DispatchIdentity<T(!new)>(d: DataProto<T>, n: nat) returns (r: DataProto<T>)
    requires Valid(d) && 0 < d.size && 0 < n
    ensures Valid(r) && Rows(r) == Rows(d)
  {
    var f, worker := (item: Item<T>) => item, (c: DataProto<T>) => c;
    forall c: DataProto<T> | Valid(c) ensures MapRows(f, Rows(c)) == Rows(c) {}
    r := Dispatch(f, worker, d, n);
  }
}
