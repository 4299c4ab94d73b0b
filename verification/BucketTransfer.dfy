/** Bucket-by-bucket weight transfer: what is sent, what is received, and that it is the identity. */
module BucketTransfer {
  import opened Outcomes
  import opened IntMath
  import opened WeightChunks
  import opened BucketPacking

  // ---------------------------------------------------------------- split streams can be packed

  predicate DistinctWeights(weights: seq<Weight>) {
    forall i, j :: 0 <= i < j < |weights| ==> weights[i].name != weights[j].name
  }

  /** A run of chunks of one weight: all but the last fill a whole bucket. */
  predicate ChunkRun(cs: seq<Chunk>, bucketSize: nat, name: string) {
    && (forall i :: 0 <= i < |cs| ==> GoodChunk(cs[i], bucketSize) && cs[i].meta.offset.None? && cs[i].meta.name == name)
    && (forall i :: 0 <= i < |cs| - 1 ==> cs[i].meta.chunkSize == bucketSize)
  }

  lemma {:induction false} SplitFromShape(w: Weight, bucketSize: nat, from: nat)
    requires 0 < bucketSize && from <= |w.bytes|
    ensures ChunkRun(SplitFrom(w, bucketSize, from), bucketSize, w.name)
    decreases |w.bytes| - from
  {
    if from < |w.bytes| {
      var size := Min(bucketSize, |w.bytes| - from);
      SplitFromShape(w, bucketSize, from + size);
      RunCons(ChunkAt(w, from, size), SplitFrom(w, bucketSize, from + size), bucketSize, w.name);
    }
  }

  lemma RunCons(c: Chunk, rest: seq<Chunk>, bucketSize: nat, name: string)
    requires ChunkRun(rest, bucketSize, name) && ChunkRun([c], bucketSize, name)
    requires rest != [] ==> c.meta.chunkSize == bucketSize
    ensures ChunkRun([c] + rest, bucketSize, name)
  {
  }

  predicate NamesFrom(chunks: seq<Chunk>, weights: seq<Weight>) {
    forall i :: 0 <= i < |chunks| ==> exists j :: 0 <= j < |weights| && weights[j].name == chunks[i].meta.name
  }

  /** The stream of distinctly named weights repeats a name only after a full-size chunk. */
  lemma {:induction false} SplitIsGood(weights: seq<Weight>, bucketSize: nat)
    requires 0 < bucketSize && DistinctWeights(weights)
    ensures GoodStream(Split(weights, bucketSize), bucketSize)
    ensures NamesFrom(Split(weights, bucketSize), weights)
  {
    if weights != [] {
      var n := |weights| - 1;
      SplitIsGood(weights[..n], bucketSize);
      SplitFromShape(weights[n], bucketSize, 0);
      var front, back := Split(weights[..n], bucketSize), SplitFrom(weights[n], bucketSize, 0);
      forall i | 0 <= i < |front| ensures front[i].meta.name != weights[n].name
      {
        var j :| 0 <= j < n && weights[..n][j].name == front[i].meta.name;
        assert weights[j].name == front[i].meta.name;
      }
      forall i | 0 <= i < |front + back|
        ensures exists j :: 0 <= j < |weights| && weights[j].name == (front + back)[i].meta.name
      {
        if i < |front| {
          var j :| 0 <= j < n && weights[..n][j].name == front[i].meta.name;
          assert weights[j].name == front[i].meta.name;
        } else {
          assert weights[n].name == back[i - |front|].meta.name;
        }
      }
      GoodConcat(front, back, bucketSize, weights[n].name);
    }
  }

  lemma GoodConcat(front: seq<Chunk>, back: seq<Chunk>, bucketSize: nat, name: string)
    requires GoodStream(front, bucketSize)
    requires forall i :: 0 <= i < |front| ==> front[i].meta.name != name
    requires ChunkRun(back, bucketSize, name)
    ensures GoodStream(front + back, bucketSize)
  {
    var all := front + back;
    forall i, j | 0 <= i < j < |all| && all[i].meta.name == all[j].meta.name
      ensures all[j - 1].meta.chunkSize == bucketSize
    {
      if j > |front| { assert all[j - 1] == back[j - 1 - |front|]; }
    }
  }

  // ---------------------------------------------------------------- how many buckets

  function TotalUsed(buckets: seq<Bucket>): nat {
    if buckets == [] then 0 else TotalUsed(buckets[..|buckets| - 1]) + Used(buckets[|buckets| - 1])
  }

  function TotalBytes(weights: seq<Weight>): nat {
    if weights == [] then 0 else TotalBytes(weights[..|weights| - 1]) + |weights[|weights| - 1].bytes|
  }

  lemma LastTwo(buckets: seq<Bucket>, bucketSize: nat)
    requires Tight(buckets, bucketSize) && 2 <= |buckets|
    ensures bucketSize < TotalUsed(buckets) - TotalUsed(buckets[..|buckets| - 2])
  {
    var n := |buckets|;
    assert buckets[..n - 1][..n - 2] == buckets[..n - 2] && buckets[..n - 1][n - 2] == buckets[n - 2];
    assert TooBigFor(buckets[n - 1], buckets[n - 2], bucketSize);
    UsedBound(buckets[n - 1], 0);
  }

  lemma TightPrefix(buckets: seq<Bucket>, bucketSize: nat, k: nat)
    requires Tight(buckets, bucketSize) && k <= |buckets|
    ensures Tight(buckets[..k], bucketSize)
  {
    var front := buckets[..k];
    forall i {:trigger front[i]} | 0 < i < k ensures TooBigFor(front[i], front[i - 1], bucketSize) {
      assert TooBigFor(buckets[i], buckets[i - 1], bucketSize);
    }
  }

  /** Next-fit wastes less than half: any two neighbouring buckets together exceed one bucket. */
  lemma {:induction false} TightMeansFew(buckets: seq<Bucket>, bucketSize: nat, pairs: nat)
    requires Tight(buckets, bucketSize) && 1 <= pairs && 2 * pairs <= |buckets|
    ensures pairs * bucketSize < TotalUsed(buckets)
    decreases pairs
  {
    LastTwo(buckets, bucketSize);
    if 1 < pairs {
      TightPrefix(buckets, bucketSize, |buckets| - 2);
      TightMeansFew(buckets[..|buckets| - 2], bucketSize, pairs - 1);
      Times(pairs, bucketSize);
    }
  }

  lemma Times(k: nat, n: nat)
    requires 1 <= k
    ensures k * n == (k - 1) * n + n
  {
  }

  lemma {:induction false} UsedConcat(a: seq<Chunk>, b: seq<Chunk>)
    ensures Used(a + b) == Used(a) + Used(b)
    decreases |b|
  {
    if b == [] {
      assert a + b == a;
    } else {
      UsedConcat(a, b[..|b| - 1]);
      assert (a + b)[..|a + b| - 1] == a + b[..|b| - 1];
    }
  }

  lemma {:induction false} UsedUnplaced(cs: seq<Chunk>)
    ensures Used(UnplacedAll(cs)) == Used(cs)
  {
    if cs != [] {
      UsedUnplaced(cs[..|cs| - 1]);
      assert UnplacedAll(cs)[..|cs| - 1] == UnplacedAll(cs[..|cs| - 1]);
    }
  }

  lemma {:induction false} UsedFlatten(buckets: seq<Bucket>)
    ensures Used(Flatten(buckets)) == TotalUsed(buckets)
  {
    if buckets != [] {
      UsedFlatten(buckets[..|buckets| - 1]);
      UsedConcat(Flatten(buckets[..|buckets| - 1]), buckets[|buckets| - 1]);
    }
  }

  lemma {:induction false} UsedSplitFrom(w: Weight, bucketSize: nat, from: nat)
    requires 0 < bucketSize && from <= |w.bytes|
    ensures Used(SplitFrom(w, bucketSize, from)) == |w.bytes| - from
    decreases |w.bytes| - from
  {
    if from < |w.bytes| {
      var size := Min(bucketSize, |w.bytes| - from);
      UsedSplitFrom(w, bucketSize, from + size);
      UsedConcat([ChunkAt(w, from, size)], SplitFrom(w, bucketSize, from + size));
      UsedSnoc([], ChunkAt(w, from, size));
      assert [] + [ChunkAt(w, from, size)] == [ChunkAt(w, from, size)];
    }
  }

  lemma {:induction false} UsedSplit(weights: seq<Weight>, bucketSize: nat)
    requires 0 < bucketSize
    ensures Used(Split(weights, bucketSize)) == TotalBytes(weights)
  {
    if weights != [] {
      var n := |weights| - 1;
      UsedSplit(weights[..n], bucketSize);
      UsedSplitFrom(weights[n], bucketSize, 0);
      UsedConcat(Split(weights[..n], bucketSize), SplitFrom(weights[n], bucketSize, 0));
    }
  }

  /** The number of buckets is bounded by the size of the model. */
  lemma BucketCount(weights: seq<Weight>, bucketSize: nat)
    requires 0 < bucketSize && DistinctWeights(weights)
    ensures Pack(Split(weights, bucketSize), bucketSize).Ok?
    ensures var n := |Pack(Split(weights, bucketSize), bucketSize).value|;
            2 <= n ==> (n / 2) * bucketSize < TotalBytes(weights)
  {
    SplitIsGood(weights, bucketSize);
    var chunks := Split(weights, bucketSize);
    PackWorks(chunks, bucketSize);
    var buckets := Pack(chunks, bucketSize).value;
    UsedFlatten(buckets);
    UsedUnplaced(Flatten(buckets));
    UsedSplit(weights, bucketSize);
    if 2 <= |buckets| { TightMeansFew(buckets, bucketSize, |buckets| / 2); }
  }

  // ---------------------------------------------------------------- buffers

  type Buffer = seq<Byte>

  predicate Fits(b: Bucket, size: nat) {
    forall i :: 0 <= i < |b| ==> b[i].meta.offset.Some? && b[i].meta.offset.value + |b[i].bytes| <= size
  }

  function Write(buf: Buffer, at: nat, bytes: seq<Byte>): (r: Buffer)
    requires at + |bytes| <= |buf|
    ensures |r| == |buf|
  {
    buf[..at] + bytes + buf[at + |bytes|..]
  }

  /** The buffer after every chunk of the bucket has been copied to its place. */
  function Overlay(buf: Buffer, b: Bucket): (r: Buffer)
    requires Fits(b, |buf|)
    ensures |r| == |buf|
  {
    if b == [] then buf else
    var n := |b| - 1;
    Write(Overlay(buf, b[..n]), b[n].meta.offset.value, b[n].bytes)
  }

  lemma OverlayNext(buf: Buffer, b: Bucket, j: nat)
    requires Fits(b, |buf|) && j < |b|
    ensures Overlay(buf, b[..j + 1]) == Write(Overlay(buf, b[..j]), b[j].meta.offset.value, b[j].bytes)
  {
    hide Write;
    assert b[..j + 1][..j] == b[..j];
  }

  lemma OverlayEnds(buf: Buffer, b: Bucket)
    requires Fits(b, |buf|)
    ensures Overlay(buf, []) == buf && Overlay(buf, b[..0]) == buf && Overlay(buf, b[..|b|]) == Overlay(buf, b)
  {
    assert b[..|b|] == b && b[..0] == [];
  }

  predicate FitAll(buckets: seq<Bucket>, size: nat) {
    forall i :: 0 <= i < |buckets| ==> Fits(buckets[i], size)
  }

  /** The buffer that holds bucket i when it is announced: two buffers alternate, so it still
      carries leftovers of bucket i - 2. */
  function Image(buckets: seq<Bucket>, size: nat, i: nat): (r: Buffer)
    requires FitAll(buckets, size) && i < |buckets|
    ensures |r| == size
  {
    Overlay(if i < 2 then Zeros(size) else Image(buckets, size, i - 2), buckets[i])
  }

  /** The region a table entry points to. */
  function Slice(buf: Buffer, meta: TensorMeta): seq<Byte> {
    if meta.offset.Some? && meta.offset.value + meta.chunkSize <= |buf|
    then buf[meta.offset.value..meta.offset.value + meta.chunkSize] else []
  }

  function Metas(b: Bucket): seq<TensorMeta> {
    seq(|b|, i requires 0 <= i < |b| => b[i].meta)
  }

  /** Everything a receiver yields from one buffer. */
  function Unpack(buf: Buffer, metas: seq<TensorMeta>): seq<Chunk> {
    seq(|metas|, i requires 0 <= i < |metas| => Chunk(metas[i], Slice(buf, metas[i])))
  }

  lemma {:induction false} UsedMonotone(b: Bucket, i: nat, k: nat)
    requires i <= k <= |b|
    ensures Used(b[..i]) <= Used(b[..k])
    decreases k - i
  {
    if i < k {
      UsedMonotone(b, i, k - 1);
      assert b[..k][..k - 1] == b[..k - 1];
    }
  }

  lemma GoodFits(b: Bucket, size: nat)
    requires GoodBucket(b, size)
    ensures Fits(b, size)
  {
    forall i | 0 <= i < |b| ensures b[i].meta.offset.Some? && b[i].meta.offset.value + |b[i].bytes| <= size {
      UsedMonotone(b, i + 1, |b|);
      assert b[..i + 1][..i] == b[..i] && b[..|b|] == b;
    }
  }

  lemma GoodPrefix(b: Bucket, size: nat, k: nat)
    requires GoodBucket(b, size) && k <= |b|
    ensures GoodBucket(b[..k], size)
  {
    UsedMonotone(b, k, |b|);
    assert b[..|b|] == b;
    forall i | 0 <= i < k ensures b[..k][i].meta.offset == Some(Used(b[..k][..i])) {
      assert b[..k][..i] == b[..i];
    }
  }

  lemma WriteReads(buf: Buffer, at: nat, bytes: seq<Byte>)
    requires at + |bytes| <= |buf|
    ensures Write(buf, at, bytes)[at..at + |bytes|] == bytes
  {
  }

  lemma WriteKeeps(buf: Buffer, at: nat, bytes: seq<Byte>, from: nat, to: nat)
    requires from <= to <= at && at + |bytes| <= |buf|
    ensures Write(buf, at, bytes)[from..to] == buf[from..to]
  {
  }

  /** Each region ends where the next one begins, or earlier. */
  lemma RegionsApart(b: Bucket, size: nat, i: nat)
    requires GoodBucket(b, size) && i < |b|
    ensures Fits(b, size) && |b[i].bytes| == b[i].meta.chunkSize
    ensures i < |b| - 1 ==> b[i].meta.offset.value + |b[i].bytes| <= b[|b| - 1].meta.offset.value
  {
    hide Fits, DistinctNames, Used;
    GoodFits(b, size);
    if i < |b| - 1 {
      UsedMonotone(b, i + 1, |b| - 1);
      UsedNext(b, i);
    }
    FitsAt(b, size, i);
  }

  lemma UsedNext(b: Bucket, i: nat)
    requires i < |b|
    ensures Used(b[..i + 1]) == Used(b[..i]) + b[i].meta.chunkSize
  {
    assert b[..i + 1][..i] == b[..i];
  }

  lemma FitsAt(b: Bucket, size: nat, i: nat)
    requires Fits(b, size) && i < |b|
    ensures b[i].meta.offset.Some?
  {
  }

  /** Contiguous regions do not disturb each other: every chunk can be read back from the buffer. */
  lemma {:induction false} OverlayReads(buf: Buffer, b: Bucket, i: nat)
    requires GoodBucket(b, |buf|) && i < |b|
    ensures Fits(b, |buf|)
    ensures Slice(Overlay(buf, b), b[i].meta) == b[i].bytes
  {
    hide GoodBucket, Write;
    RegionsApart(b, |buf|, i);
    var n := |b| - 1;
    var at := b[n].meta.offset.value;
    if i == n {
      WriteReads(Overlay(buf, b[..n]), at, b[n].bytes);
    } else {
      GoodPrefix(b, |buf|, n);
      OverlayReads(buf, b[..n], i);
      var from := b[i].meta.offset.value;
      WriteKeeps(Overlay(buf, b[..n]), at, b[n].bytes, from, from + |b[i].bytes|);
    }
  }

  lemma UnpackImage(buckets: seq<Bucket>, size: nat, i: nat)
    requires i < |buckets| && FitAll(buckets, size) && GoodBucket(buckets[i], size)
    ensures Unpack(Image(buckets, size, i), Metas(buckets[i])) == buckets[i]
  {
    var b := buckets[i];
    forall k | 0 <= k < |b| ensures Unpack(Image(buckets, size, i), Metas(b))[k] == b[k] {
      OverlayReads(if i < 2 then Zeros(size) else Image(buckets, size, i - 2), b, k);
    }
  }

  // ---------------------------------------------------------------- end to end

  /** Merging looks at everything in a chunk but its place in the bucket. */
  lemma {:induction false} MergeIgnoresPlace(m: Merger, chunks: seq<Chunk>, bucketSize: nat)
    ensures Merge(m, chunks, bucketSize) == Merge(m, UnplacedAll(chunks), bucketSize)
  {
    if chunks != [] {
      var n := |chunks| - 1;
      MergeIgnoresPlace(m, chunks[..n], bucketSize);
      assert UnplacedAll(chunks)[..n] == UnplacedAll(chunks[..n]);
      assert UnplacedAll(chunks)[n] == Unplaced(chunks[n]);
    }
  }

  /** Everything unpacked from the images of the first k buckets. */
  function Received(buckets: seq<Bucket>, size: nat, k: nat): seq<Chunk>
    requires FitAll(buckets, size) && k <= |buckets|
  {
    if k == 0 then [] else
    Received(buckets, size, k - 1) + Unpack(Image(buckets, size, k - 1), Metas(buckets[k - 1]))
  }

  lemma {:induction false} ReceivedIsSent(buckets: seq<Bucket>, size: nat, k: nat)
    requires k <= |buckets| && FitAll(buckets, size)
    requires forall i :: 0 <= i < |buckets| ==> GoodBucket(buckets[i], size)
    ensures Received(buckets, size, k) == Flatten(buckets[..k])
  {
    if k > 0 {
      ReceivedIsSent(buckets, size, k - 1);
      UnpackImage(buckets, size, k - 1);
      assert buckets[..k][..k - 1] == buckets[..k - 1];
    }
  }

  /** Split, pack, transmit the buffers, unpack by the tables, merge: every non-empty weight arrives
      with its name, form and bytes, in order, and no assertion on the way fails. */
  lemma TransferIsIdentity(weights: seq<Weight>, bucketSize: nat)
    requires 0 < bucketSize && DistinctWeights(weights) && forall w :: w in weights ==> ValidWeight(w)
    ensures Pack(Split(weights, bucketSize), bucketSize).Ok?
    ensures var buckets := Pack(Split(weights, bucketSize), bucketSize).value;
            && FitAll(buckets, bucketSize)
            && Merge(Idle, Received(buckets, bucketSize, |buckets|), bucketSize) == Ok((Idle, NonEmpty(weights)))
  {
    hide GoodStream, Pack, Split, Merge, GoodBucket, Fits, Received, Flatten, UnplacedAll, ValidWeight, NonEmpty, Tight;
    var chunks := Split(weights, bucketSize);
    SplitIsGood(weights, bucketSize);
    PackWorks(chunks, bucketSize);
    var buckets := Pack(chunks, bucketSize).value;
    forall i | 0 <= i < |buckets| ensures Fits(buckets[i], bucketSize) { GoodFits(buckets[i], bucketSize); }
    ReceivedIsSent(buckets, bucketSize, |buckets|);
    assert buckets[..|buckets|] == buckets;
    MergeIgnoresPlace(Idle, Flatten(buckets), bucketSize);
    MergeAfterSplit(weights, bucketSize);
  }
}
