/** Packing a chunk stream into fixed-size buckets, next-fit, and reading the buckets back. */
module BucketPacking {
  import opened Outcomes
  import opened Streams
  import opened WeightChunks

  /** A bucket's table of contents, in insertion order, together with the bytes it stands for. */
  type Bucket = seq<Chunk>

  function Used(b: Bucket): nat {
    if b == [] then 0 else Used(b[..|b| - 1]) + b[|b| - 1].meta.chunkSize
  }

  function Placed(c: Chunk, offset: nat): Chunk {
    c.(meta := c.meta.(offset := Some(offset)))
  }

  /** A chunk as it was before packing. */
  function Unplaced(c: Chunk): Chunk {
    c.(meta := c.meta.(offset := None))
  }

  function UnplacedAll(b: Bucket): seq<Chunk> {
    seq(|b|, i requires 0 <= i < |b| => Unplaced(b[i]))
  }

  predicate HasName(b: Bucket, name: string) {
    exists i :: 0 <= i < |b| && b[i].meta.name == name
  }

  /** The bucket being filled. */
  datatype Packer = Packer(bucket: Bucket, offset: nat)

  function PackStep(p: Packer, c: Chunk, bucketSize: nat): Outcome<(Packer, seq<Bucket>)> {
    var full := p.offset + c.meta.chunkSize > bucketSize;
    var p1 := if full then Packer([], 0) else p;
    if p1.offset + c.meta.chunkSize > bucketSize || HasName(p1.bucket, c.meta.name) then Crash else
    Ok((Packer(p1.bucket + [Placed(c, p1.offset)], p1.offset + c.meta.chunkSize), if full then [p.bucket] else []))
  }

  function PackWith(bucketSize: nat): (Packer, Chunk) -> Outcome<(Packer, seq<Bucket>)> {
    (p, c) => PackStep(p, c, bucketSize)
  }

  /** All buckets of a chunk stream; the last one may be short, and is empty for an empty stream. */
  function Pack(chunks: seq<Chunk>, bucketSize: nat): Outcome<seq<Bucket>> {
    var (p, sent) :- Feed(PackWith(bucketSize), Packer([], 0), chunks);
    Ok(sent + [p.bucket])
  }

  function Flatten(buckets: seq<Bucket>): seq<Chunk> {
    if buckets == [] then [] else Flatten(buckets[..|buckets| - 1]) + buckets[|buckets| - 1]
  }

  // ---------------------------------------------------------------- what packing guarantees

  /** Regions start at 0 and follow each other without gap or overlap. */
  predicate Contiguous(b: Bucket) {
    forall i {:trigger b[i]} :: 0 <= i < |b| ==> b[i].meta.offset == Some(Used(b[..i]))
  }

  predicate DistinctNames(b: Bucket) {
    forall i, j :: 0 <= i < j < |b| ==> b[i].meta.name != b[j].meta.name
  }

  predicate GoodChunk(c: Chunk, bucketSize: nat) {
    0 < |c.bytes| == c.meta.chunkSize <= bucketSize
  }

  predicate GoodBucket(b: Bucket, bucketSize: nat) {
    && Contiguous(b) && DistinctNames(b) && Used(b) <= bucketSize
    && forall i :: 0 <= i < |b| ==> GoodChunk(b[i], bucketSize)
  }

  /** No bucket is closed early: the next bucket's first chunk would not have fitted. */
  predicate Tight(buckets: seq<Bucket>, bucketSize: nat) {
    forall i {:trigger buckets[i]} :: 0 < i < |buckets| ==> TooBigFor(buckets[i], buckets[i - 1], bucketSize)
  }

  predicate TooBigFor(next: Bucket, b: Bucket, bucketSize: nat) {
    next != [] && Used(b) + next[0].meta.chunkSize > bucketSize
  }

  /** Chunks fit a bucket, and a name recurs only right after a chunk that fills a whole bucket. */
  predicate GoodStream(chunks: seq<Chunk>, bucketSize: nat) {
    && (forall i :: 0 <= i < |chunks| ==> GoodChunk(chunks[i], bucketSize) && chunks[i].meta.offset.None?)
    && (forall i, j :: 0 <= i < j < |chunks| && chunks[i].meta.name == chunks[j].meta.name ==>
          chunks[j - 1].meta.chunkSize == bucketSize)
  }

  ghost predicate PackInv(chunks: seq<Chunk>, bucketSize: nat, p: Packer, sent: seq<Bucket>) {
    && UnplacedAll(Flatten(sent + [p.bucket])) == chunks
    && p.offset == Used(p.bucket)
    && (forall i :: 0 <= i < |sent| ==> GoodBucket(sent[i], bucketSize) && sent[i] != [])
    && GoodBucket(p.bucket, bucketSize)
    && Tight(sent + [p.bucket], bucketSize)
    && (chunks != [] ==> p.bucket != [])
    && (chunks == [] ==> sent == [])
  }

  lemma FlattenSnoc(buckets: seq<Bucket>, b: Bucket)
    ensures Flatten(buckets + [b]) == Flatten(buckets) + b
  {
    assert (buckets + [b])[..|buckets + [b]| - 1] == buckets;
  }

  lemma UsedSnoc(b: Bucket, c: Chunk)
    ensures Used(b + [c]) == Used(b) + c.meta.chunkSize
  {
    assert (b + [c])[..|b + [c]| - 1] == b;
  }

  lemma {:induction false} UsedBound(b: Bucket, i: nat)
    requires i < |b|
    ensures b[i].meta.chunkSize <= Used(b)
  {
    if i < |b| - 1 { UsedBound(b[..|b| - 1], i); }
  }

  lemma PlaceGood(b: Bucket, c: Chunk, bucketSize: nat)
    requires GoodBucket(b, bucketSize) && GoodChunk(c, bucketSize) && !HasName(b, c.meta.name)
    requires Used(b) + c.meta.chunkSize <= bucketSize
    ensures GoodBucket(b + [Placed(c, Used(b))], bucketSize)
  {
    var d := Placed(c, Used(b));
    var b' := b + [d];
    UsedSnoc(b, d);
    forall i | 0 <= i < |b'| ensures b'[i].meta.offset == Some(Used(b'[..i])) {
      if i < |b| { assert b'[..i] == b[..i]; } else { assert b'[..i] == b; }
    }
  }

  lemma TightSnoc(buckets: seq<Bucket>, b: Bucket, bucketSize: nat)
    requires Tight(buckets, bucketSize) && buckets != [] && b != []
    requires Used(buckets[|buckets| - 1]) + b[0].meta.chunkSize > bucketSize
    ensures Tight(buckets + [b], bucketSize)
  {
    var after: seq<Bucket> := buckets + [b];
    forall i {:trigger after[i]} | 0 < i < |after| ensures TooBigFor(after[i], after[i - 1], bucketSize) {
      assert after[i - 1] == buckets[i - 1];
      if i < |buckets| { assert after[i] == buckets[i]; }
    }
  }

  lemma TightGrow(sent: seq<Bucket>, b: Bucket, c: Chunk, bucketSize: nat)
    requires Tight(sent + [b], bucketSize) && (sent != [] ==> b != [])
    ensures Tight(sent + [b + [c]], bucketSize)
  {
    var before: seq<Bucket>, after: seq<Bucket> := sent + [b], sent + [b + [c]];
    forall i {:trigger after[i]} | 0 < i < |after| ensures TooBigFor(after[i], after[i - 1], bucketSize) {
      assert TooBigFor(before[i], before[i - 1], bucketSize);
    }
  }

  lemma UnplacedSnoc(all: seq<Chunk>, c: Chunk, offset: nat)
    requires c.meta.offset.None?
    ensures UnplacedAll(all + [Placed(c, offset)]) == UnplacedAll(all) + [c]
  {
  }

  lemma OpenBucket(chunks: seq<Chunk>, bucketSize: nat, p: Packer, sent: seq<Bucket>, c: Chunk)
    requires PackInv(chunks, bucketSize, p, sent) && GoodChunk(c, bucketSize) && c.meta.offset.None?
    requires p.offset + c.meta.chunkSize > bucketSize
    ensures PackStep(p, c, bucketSize) == Ok((Packer([Placed(c, 0)], c.meta.chunkSize), [p.bucket]))
    ensures PackInv(chunks + [c], bucketSize, Packer([Placed(c, 0)], c.meta.chunkSize), sent + [p.bucket])
  {
    var b: Bucket := [Placed(c, 0)];
    assert [] + b == b;
    PlaceGood([], c, bucketSize);
    UsedSnoc([], b[0]);
    FlattenSnoc(sent + [p.bucket], b);
    UnplacedSnoc(Flatten(sent + [p.bucket]), c, 0);
    TightSnoc(sent + [p.bucket], b, bucketSize);
  }

  lemma FillBucket(chunks: seq<Chunk>, bucketSize: nat, p: Packer, sent: seq<Bucket>, c: Chunk)
    requires PackInv(chunks, bucketSize, p, sent) && GoodChunk(c, bucketSize) && c.meta.offset.None?
    requires p.offset + c.meta.chunkSize <= bucketSize && !HasName(p.bucket, c.meta.name)
    ensures PackInv(chunks + [c], bucketSize,
                    Packer(p.bucket + [Placed(c, p.offset)], p.offset + c.meta.chunkSize), sent)
  {
    var d := Placed(c, p.offset);
    PlaceGood(p.bucket, c, bucketSize);
    UsedSnoc(p.bucket, d);
    FlattenSnoc(sent, p.bucket);
    FlattenSnoc(sent, p.bucket + [d]);
    assert Flatten(sent) + (p.bucket + [d]) == Flatten(sent + [p.bucket]) + [d];
    UnplacedSnoc(Flatten(sent + [p.bucket]), c, p.offset);
    TightGrow(sent, p.bucket, d, bucketSize);
  }

  /** The chunk is appended to the current bucket, or opens a new one: either way nothing is lost. */
  lemma PackOne(chunks: seq<Chunk>, bucketSize: nat, p: Packer, sent: seq<Bucket>, c: Chunk)
    requires PackInv(chunks, bucketSize, p, sent) && GoodStream(chunks + [c], bucketSize)
    ensures PackStep(p, c, bucketSize).Ok?
    ensures var (p', out) := PackStep(p, c, bucketSize).value; PackInv(chunks + [c], bucketSize, p', sent + out)
  {
    assert (chunks + [c])[|chunks|] == c;
    if p.offset + c.meta.chunkSize > bucketSize {
      OpenBucket(chunks, bucketSize, p, sent, c);
    } else {
      NoRepeat(chunks, bucketSize, p, sent, c);
      FillBucket(chunks, bucketSize, p, sent, c);
      assert sent + [] == sent;
    }
  }

  /** A chunk that fits does not repeat a name of the bucket: a repeat would follow a full-size chunk. */
  lemma NoRepeat(chunks: seq<Chunk>, bucketSize: nat, p: Packer, sent: seq<Bucket>, c: Chunk)
    requires PackInv(chunks, bucketSize, p, sent) && GoodStream(chunks + [c], bucketSize)
    requires p.offset + c.meta.chunkSize <= bucketSize
    ensures !HasName(p.bucket, c.meta.name)
  {
    FlattenSnoc(sent, p.bucket);
    var all := Flatten(sent + [p.bucket]);
    var stream := chunks + [c];
    assert stream[|chunks|] == c && GoodChunk(c, bucketSize);
    if p.bucket != [] {
      assert all[|chunks| - 1] == p.bucket[|p.bucket| - 1];
      assert UnplacedAll(all)[|chunks| - 1] == Unplaced(all[|chunks| - 1]);
      UsedBound(p.bucket, |p.bucket| - 1);
      assert stream[|chunks| - 1].meta.chunkSize < bucketSize;
    }
    forall i | 0 <= i < |p.bucket| ensures p.bucket[i].meta.name != c.meta.name {
      var at := |Flatten(sent)| + i;
      assert all[at] == p.bucket[i];
      assert UnplacedAll(all)[at] == Unplaced(all[at]);
      assert stream[at].meta.name == p.bucket[i].meta.name;
    }
  }

  lemma GoodTake(chunks: seq<Chunk>, bucketSize: nat, k: nat)
    requires GoodStream(chunks, bucketSize) && k <= |chunks|
    ensures GoodStream(chunks[..k], bucketSize)
  {
    hide GoodChunk;
    var front := chunks[..k];
    assert forall i :: 0 <= i < k ==> front[i] == chunks[i];
  }

  lemma PackStart(bucketSize: nat)
    ensures PackInv([], bucketSize, Packer([], 0), [])
  {
    FlattenSnoc([], []);
  }

  lemma {:induction false} PackPrefix(chunks: seq<Chunk>, bucketSize: nat, k: nat)
    requires k <= |chunks| && GoodStream(chunks, bucketSize)
    ensures Feed(PackWith(bucketSize), Packer([], 0), chunks[..k]).Ok?
    ensures var (p, sent) := Feed(PackWith(bucketSize), Packer([], 0), chunks[..k]).value;
            PackInv(chunks[..k], bucketSize, p, sent)
  {
    hide PackInv, PackStep, GoodStream;
    if k == 0 {
      assert chunks[..0] == [];
      PackStart(bucketSize);
    } else {
      var front, c := chunks[..k - 1], chunks[k - 1];
      PackPrefix(chunks, bucketSize, k - 1);
      var (p, sent) := Feed(PackWith(bucketSize), Packer([], 0), front).value;
      assert chunks[..k] == front + [c];
      GoodTake(chunks, bucketSize, k);
      PackOne(front, bucketSize, p, sent, c);
      FeedSnoc(PackWith(bucketSize), Packer([], 0), front, c);
    }
  }

  /** Packing never fails an assertion, keeps every chunk in order, lays the regions of each bucket out
      contiguously within the bucket size, and never closes a bucket early. */
  lemma PackWorks(chunks: seq<Chunk>, bucketSize: nat)
    requires GoodStream(chunks, bucketSize)
    ensures Pack(chunks, bucketSize).Ok?
    ensures var buckets := Pack(chunks, bucketSize).value;
            && UnplacedAll(Flatten(buckets)) == chunks
            && (forall i :: 0 <= i < |buckets| ==> GoodBucket(buckets[i], bucketSize))
            && Tight(buckets, bucketSize) && 0 < |buckets|
  {
    PackPrefix(chunks, bucketSize, |chunks|);
    assert chunks[..|chunks|] == chunks;
  }

  // ---------------------------------------------------------------- streams of any kind

  /** A chunk is refused exactly when it exceeds a whole bucket, or would join a bucket that has its name. */
  lemma RefusesExactly(p: Packer, c: Chunk, bucketSize: nat)
    ensures PackStep(p, c, bucketSize).Crash? <==>
              || bucketSize < c.meta.chunkSize
              || (p.offset + c.meta.chunkSize <= bucketSize && exists i :: 0 <= i < |p.bucket| && p.bucket[i].meta.name == c.meta.name)
  {
  }

  /** What any accepted stream leaves behind: names are unique within a bucket, regions are contiguous and inside. */
  ghost predicate Packed(p: Packer, sent: seq<Bucket>, bucketSize: nat) {
    && p.offset == Used(p.bucket) && SoundBucket(p.bucket, bucketSize)
    && forall i :: 0 <= i < |sent| ==> SoundBucket(sent[i], bucketSize)
  }

  predicate SoundBucket(b: Bucket, bucketSize: nat) {
    Contiguous(b) && DistinctNames(b) && Used(b) <= bucketSize
  }

  lemma SoundSnoc(b: Bucket, c: Chunk, bucketSize: nat)
    requires SoundBucket(b, bucketSize) && !HasName(b, c.meta.name) && Used(b) + c.meta.chunkSize <= bucketSize
    ensures SoundBucket(b + [Placed(c, Used(b))], bucketSize)
  {
    var d := Placed(c, Used(b));
    UsedSnoc(b, d);
    forall i {:trigger (b + [d])[i]} | 0 <= i < |b + [d]| ensures (b + [d])[i].meta.offset == Some(Used((b + [d])[..i])) {
      if i < |b| { assert (b + [d])[..i] == b[..i]; } else { assert (b + [d])[..i] == b; }
    }
  }

  lemma PackedNext(p: Packer, sent: seq<Bucket>, c: Chunk, bucketSize: nat)
    requires Packed(p, sent, bucketSize) && PackStep(p, c, bucketSize).Ok?
    ensures var (p', out) := PackStep(p, c, bucketSize).value; Packed(p', sent + out, bucketSize)
  {
    hide SoundBucket, HasName;
    var q := if p.offset + c.meta.chunkSize > bucketSize then Packer([], 0) else p;
    EmptyIsSound(bucketSize);
    SoundSnoc(q.bucket, c, bucketSize);
    UsedSnoc(q.bucket, Placed(c, q.offset));
  }

  lemma EmptyIsSound(bucketSize: nat)
    ensures SoundBucket([], bucketSize) && Used([]) == 0
  {
  }

  lemma {:induction false} PackedAll(chunks: seq<Chunk>, bucketSize: nat)
    requires Feed(PackWith(bucketSize), Packer([], 0), chunks).Ok?
    ensures var (p, sent) := Feed(PackWith(bucketSize), Packer([], 0), chunks).value; Packed(p, sent, bucketSize)
  {
    hide PackStep, Packed;
    if chunks == [] {
      NothingPacked(bucketSize);
    } else {
      var front := chunks[..|chunks| - 1];
      PackedAll(front, bucketSize);
      var (p, sent) := Feed(PackWith(bucketSize), Packer([], 0), front).value;
      PackedNext(p, sent, chunks[|chunks| - 1], bucketSize);
    }
  }

  lemma NothingPacked(bucketSize: nat)
    ensures Packed(Packer([], 0), [], bucketSize)
  {
    EmptyIsSound(bucketSize);
  }

  /** Whatever stream packing accepts, no bucket overflows, overlaps or holds a name twice. */
  lemma PackSound(chunks: seq<Chunk>, bucketSize: nat)
    requires Pack(chunks, bucketSize).Ok?
    ensures forall b :: b in Pack(chunks, bucketSize).value ==> SoundBucket(b, bucketSize)
  {
    hide SoundBucket;
    PackedAll(chunks, bucketSize);
  }
}
