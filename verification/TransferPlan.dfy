/** What a weight transfer is to deliver, whatever carries it: the packed buckets, their metadata, the buffer
    contents that hold them, and the chunks a receiver hands out. */
module TransferPlan {
  import opened Outcomes
  import opened WeightChunks
  import opened BucketPacking
  import opened BucketTransfer

  /** The buckets to send, the buffer size, and the number of ranks (trainer included). */
  datatype Plan = Plan(size: nat, buckets: seq<Bucket>, ranks: nat)

  predicate ValidPlan(plan: Plan) {
    2 <= plan.ranks && 1 <= |plan.buckets| && FitAll(plan.buckets, plan.size)
  }

  /** The bucket metadata that travels with a bucket. */
  datatype Meta = Meta(table: seq<TensorMeta>, last: bool)

  const NO_META := Meta([], false)

  function MetaOf(plan: Plan, i: nat): Meta
    requires i < |plan.buckets|
  {
    Meta(Metas(plan.buckets[i]), i == |plan.buckets| - 1)
  }

  /** The contents of a send buffer before bucket i is written to it. */
  function Base(plan: Plan, i: nat): Buffer
    requires ValidPlan(plan) && i < |plan.buckets|
  {
    if i < 2 then Zeros(plan.size) else Image(plan.buckets, plan.size, i - 2)
  }

  /** The contents of a buffer that holds bucket i. */
  function Img(plan: Plan, i: nat): Buffer
    requires ValidPlan(plan) && i < |plan.buckets|
  {
    Image(plan.buckets, plan.size, i)
  }

  /** What a consumer has been handed when it is at chunk j of bucket i. */
  function HandedOut(plan: Plan, i: nat, j: nat): seq<Chunk>
    requires ValidPlan(plan) && i < |plan.buckets| && j <= |plan.buckets[i]|
  {
    Received(plan.buckets, plan.size, i) + Unpack(Img(plan, i), Metas(plan.buckets[i]))[..j]
  }

  lemma ImageIs(plan: Plan, i: nat)
    requires ValidPlan(plan) && i < |plan.buckets|
    ensures |Base(plan, i)| == plan.size && Img(plan, i) == Overlay(Base(plan, i), plan.buckets[i])
    ensures Base(plan, i) == if i < 2 then Zeros(plan.size) else Img(plan, i - 2)
  {
    hide Overlay;
  }

  lemma ImgSize(plan: Plan, i: nat)
    requires ValidPlan(plan) && i < |plan.buckets|
    ensures |Img(plan, i)| == plan.size
  {
  }

  lemma TableLength(plan: Plan, i: nat)
    requires ValidPlan(plan) && i < |plan.buckets|
    ensures |MetaOf(plan, i).table| == |plan.buckets[i]|
  {
  }

  lemma HandedAll(plan: Plan, i: nat)
    requires ValidPlan(plan) && i + 1 < |plan.buckets|
    ensures HandedOut(plan, i, |plan.buckets[i]|) == HandedOut(plan, i + 1, 0)
  {
    var all := Unpack(Img(plan, i), Metas(plan.buckets[i]));
    assert all[..|plan.buckets[i]|] == all;
  }

  lemma HandedOne(plan: Plan, i: nat, j: nat)
    requires ValidPlan(plan) && i < |plan.buckets| && j < |plan.buckets[i]|
    ensures var table := MetaOf(plan, i).table;
            |table| == |plan.buckets[i]| &&
            HandedOut(plan, i, j + 1) == HandedOut(plan, i, j) + [Chunk(table[j], Slice(Img(plan, i), table[j]))]
  {
    hide Img, Slice;
    var all := Unpack(Img(plan, i), Metas(plan.buckets[i]));
    assert all[..j + 1] == all[..j] + [all[j]];
  }

  /** Every bucket is laid out as packing does it. */
  predicate GoodPlan(plan: Plan) {
    ValidPlan(plan) && forall i :: 0 <= i < |plan.buckets| ==> GoodBucket(plan.buckets[i], plan.size)
  }

  lemma ImgImage(plan: Plan, i: nat)
    requires ValidPlan(plan) && i < |plan.buckets|
    ensures Img(plan, i) == Image(plan.buckets, plan.size, i)
  {
  }

  lemma {:induction false} ReceivedPrefix(plan: Plan, i: nat, j: nat, k: nat)
    requires ValidPlan(plan) && i < |plan.buckets| && j <= |plan.buckets[i]| && i < k <= |plan.buckets|
    ensures HandedOut(plan, i, j) <= Received(plan.buckets, plan.size, k)
    decreases k
  {
    hide Img, Image;
    if i + 1 < k {
      ReceivedPrefix(plan, i, j, k - 1);
    } else {
      ImgImage(plan, i);
    }
  }

  lemma HandedWhole(plan: Plan)
    requires GoodPlan(plan)
    ensures var i := |plan.buckets| - 1; HandedOut(plan, i, |plan.buckets[i]|) == Flatten(plan.buckets)
  {
    var i := |plan.buckets| - 1;
    var all := Unpack(Img(plan, i), Metas(plan.buckets[i]));
    assert all[..|plan.buckets[i]|] == all;
    ReceivedIsSent(plan.buckets, plan.size, |plan.buckets|);
    assert plan.buckets[..|plan.buckets|] == plan.buckets;
  }

  function MaxChunks(buckets: seq<Bucket>): nat {
    if buckets == [] then 0 else
    var rest := MaxChunks(buckets[..|buckets| - 1]);
    if rest < |buckets[|buckets| - 1]| then |buckets[|buckets| - 1]| else rest
  }

  lemma {:induction false} MaxChunksBounds(buckets: seq<Bucket>, i: nat)
    requires i < |buckets|
    ensures |buckets[i]| <= MaxChunks(buckets)
  {
    if i < |buckets| - 1 { MaxChunksBounds(buckets[..|buckets| - 1], i); }
  }

  lemma {:induction false} Cells(s: set<nat>, size: nat)
    requires forall k :: k in s ==> k < size
    ensures |s| <= size
    decreases size
  {
    if size > 0 {
      Cells(s - {size - 1}, size - 1);
      if size - 1 in s { assert |s| == |s - {size - 1}| + 1; } else { assert s - {size - 1} == s; }
    } else {
      assert s == {};
    }
  }

  /** The plan of a weight list: what `send_weights` packs. */
  function PlanFor(weights: seq<Weight>, bucketSize: nat, ranks: nat): Plan
    requires 0 < bucketSize && Pack(Split(weights, bucketSize), bucketSize).Ok?
  {
    Plan(bucketSize, Pack(Split(weights, bucketSize), bucketSize).value, ranks)
  }

  /** Packing the chunks of distinctly named weights gives a good plan, and merging its chunks gives the
      non-empty weights back. */
  lemma PlanDelivers(weights: seq<Weight>, bucketSize: nat, ranks: nat)
    requires 0 < bucketSize && 2 <= ranks && DistinctWeights(weights) && forall w :: w in weights ==> ValidWeight(w)
    ensures Pack(Split(weights, bucketSize), bucketSize).Ok?
    ensures var plan := PlanFor(weights, bucketSize, ranks);
            GoodPlan(plan) && Merge(Idle, Flatten(plan.buckets), bucketSize) == Ok((Idle, NonEmpty(weights)))
  {
    hide GoodStream, Pack, Split, Merge, GoodBucket, Fits, Flatten, UnplacedAll, ValidWeight, NonEmpty, Tight;
    var chunks := Split(weights, bucketSize);
    SplitIsGood(weights, bucketSize);
    PackWorks(chunks, bucketSize);
    var plan := PlanFor(weights, bucketSize, ranks);
    forall i | 0 <= i < |plan.buckets| ensures Fits(plan.buckets[i], bucketSize) { GoodFits(plan.buckets[i], bucketSize); }
    MergeIgnoresPlace(Idle, Flatten(plan.buckets), bucketSize);
    MergeAfterSplit(weights, bucketSize);
  }
}
