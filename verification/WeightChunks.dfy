/** Splitting weights into bucket-sized chunks and merging the chunks back. */
module WeightChunks {
  import opened Outcomes
  import opened IntMath
  import opened Shapes
  import opened Streams

  newtype Byte = x: int | 0 <= x < 256

  /** Shape and element size of a tensor. */
  datatype Form = Form(shape: seq<nat>, itemsize: nat)

  datatype Weight = Weight(name: string, form: Form, bytes: seq<Byte>)

  datatype TensorMeta = TensorMeta(name: string, form: Form, chunkOffset: nat, chunkSize: nat, offset: Option<nat>)

  datatype Chunk = Chunk(meta: TensorMeta, bytes: seq<Byte>)

  function Nbytes(form: Form): nat {
    Numel(form.shape) * form.itemsize
  }

  predicate ValidWeight(w: Weight) {
    |w.bytes| == Nbytes(w.form)
  }

  // ---------------------------------------------------------------- splitting

  function ChunkAt(w: Weight, from: nat, size: nat): Chunk
    requires from + size <= |w.bytes|
  {
    Chunk(TensorMeta(w.name, w.form, from, size, None), w.bytes[from..from + size])
  }

  /** The chunks of one weight from byte `from` on. */
  function SplitFrom(w: Weight, bucketSize: nat, from: nat): seq<Chunk>
    requires 0 < bucketSize && from <= |w.bytes|
    decreases |w.bytes| - from
  {
    if from == |w.bytes| then [] else
    var size := Min(bucketSize, |w.bytes| - from);
    [ChunkAt(w, from, size)] + SplitFrom(w, bucketSize, from + size)
  }

  function Split(weights: seq<Weight>, bucketSize: nat): seq<Chunk>
    requires 0 < bucketSize
  {
    if weights == [] then [] else
    Split(weights[..|weights| - 1], bucketSize) + SplitFrom(weights[|weights| - 1], bucketSize, 0)
  }

  /** The generator of chunks. A bucket size of 0 would never advance. */
  method SplitWeightChunks(weights: seq<Weight>, bucketSize: nat) returns (chunks: seq<Chunk>)
    requires 0 < bucketSize
    ensures chunks == Split(weights, bucketSize)
  {
    chunks := [];
    for i := 0 to |weights|
      invariant chunks == Split(weights[..i], bucketSize)
    {
      var weight := weights[i];
      var chunkOffset := 0;
      while chunkOffset < |weight.bytes|
        invariant chunkOffset <= |weight.bytes|
        invariant chunks + SplitFrom(weight, bucketSize, chunkOffset)
                  == Split(weights[..i], bucketSize) + SplitFrom(weight, bucketSize, 0)
      {
        var chunkSize := Min(bucketSize, |weight.bytes| - chunkOffset);
        var meta := TensorMeta(weight.name, weight.form, chunkOffset, chunkSize, None);
        ghost var rest := SplitFrom(weight, bucketSize, chunkOffset + chunkSize);
        assert chunks + ([ChunkAt(weight, chunkOffset, chunkSize)] + rest)
            == (chunks + [ChunkAt(weight, chunkOffset, chunkSize)]) + rest;
        chunks := chunks + [Chunk(meta, weight.bytes[chunkOffset..chunkOffset + chunkSize])];
        chunkOffset := chunkOffset + chunkSize;
      }
      assert weights[..i + 1][..i] == weights[..i];
    }
    assert weights[..|weights|] == weights;
  }

  // ---------------------------------------------------------------- merging

  /** The weight being reassembled: its buffer, and how much of it has been announced. */
  datatype Merger = Idle | Merging(name: string, form: Form, buffer: seq<Byte>, offset: nat)

  /** Unwritten memory; what it contains is never looked at in a transfer. */
  function Zeros(n: nat): seq<Byte> {
    seq(n, _ => 0)
  }

  /** Assigning to a slice, which is clipped to the buffer: the lengths must agree, or a single byte is repeated. */
  function Paste(buffer: seq<Byte>, at: nat, size: nat, bytes: seq<Byte>): Outcome<seq<Byte>> {
    var lo, hi := Min(at, |buffer|), Min(at + size, |buffer|);
    if |bytes| == hi - lo then Ok(buffer[..lo] + bytes + buffer[hi..])
    else if |bytes| == 1 then Ok(buffer[..lo] + seq(hi - lo, _ => bytes[0]) + buffer[hi..])
    else Crash
  }

  /** One chunk through the merger. */
  function MergeStep(m: Merger, c: Chunk, bucketSize: nat): Outcome<(Merger, seq<Weight>)> {
    var nbytes := Nbytes(c.meta.form);
    if nbytes <= bucketSize then
      if m.Idle? && |c.bytes| == nbytes then Ok((Idle, [Weight(c.meta.name, c.meta.form, c.bytes)])) else Crash
    else
      var m1 :- if m.Merging? then Ok(m)
                else if c.meta.chunkOffset == 0 then Ok(Merging(c.meta.name, c.meta.form, Zeros(nbytes), 0)) else Crash;
      if c.meta.name != m1.name || c.meta.chunkOffset != m1.offset then Crash else
      var buffer :- Paste(m1.buffer, c.meta.chunkOffset, c.meta.chunkSize, c.bytes);
      var offset := m1.offset + c.meta.chunkSize;
      Ok(if offset == nbytes then (Idle, [Weight(m1.name, m1.form, buffer)])
         else (m1.(buffer := buffer, offset := offset), []))
  }

  function MergeWith(bucketSize: nat): (Merger, Chunk) -> Outcome<(Merger, seq<Weight>)> {
    (m, c) => MergeStep(m, c, bucketSize)
  }

  function Merge(m: Merger, chunks: seq<Chunk>, bucketSize: nat): Outcome<(Merger, seq<Weight>)> {
    Feed(MergeWith(bucketSize), m, chunks)
  }

  /** Copy bytes into a buffer in place. */
  method WriteSlice(buffer: array<Byte>, at: nat, bytes: seq<Byte>)
    requires at + |bytes| <= buffer.Length
    modifies buffer
    ensures buffer[..at] == old(buffer[..at])
    ensures buffer[at..at + |bytes|] == bytes
    ensures buffer[at + |bytes|..] == old(buffer[at + |bytes|..])
  {
    for k := 0 to |bytes|
      invariant buffer[..at] == old(buffer[..at])
      invariant buffer[at..at + k] == bytes[..k]
      invariant buffer[at + |bytes|..] == old(buffer[at + |bytes|..])
    {
      buffer[at + k] := bytes[k];
    }
  }

  /** The consumer loop: large weights are reassembled in place in a freshly allocated buffer. */
  method MergeWeightChunks(chunks: seq<Chunk>, bucketSize: nat) returns (r: Outcome<seq<Weight>>)
    ensures r.Ok? <==> Merge(Idle, chunks, bucketSize).Ok?
    ensures r.Ok? ==> r.value == Merge(Idle, chunks, bucketSize).value.1
  {
    hide MergeStep, Nbytes;
    var weights: seq<Weight> := [];
    var mergeName: Option<string> := None;
    var mergeForm := Form([], 0);
    var mergeBuffer := new Byte[0];
    var mergeOffset := 0;
    ghost var m := Idle;
    for i := 0 to |chunks|
      invariant Merge(Idle, chunks[..i], bucketSize) == Ok((m, weights))
      invariant fresh(mergeBuffer)
      invariant Represents(m, mergeName, mergeForm, mergeBuffer, mergeOffset)
    {
      ghost var step := MergeStep(m, chunks[i], bucketSize);
      assert chunks[..i + 1][..i] == chunks[..i] && chunks[..i + 1][i] == chunks[i];
      var ok, out;
      ok, mergeName, mergeForm, mergeBuffer, mergeOffset, out :=
        MergeChunk(chunks[i], bucketSize, mergeName, mergeForm, mergeBuffer, mergeOffset, m);
      if !ok {
        MergeStuck(chunks, bucketSize, i + 1);
        return Crash;
      }
      weights := weights + out;
      m := step.value.0;
    }
    assert chunks[..|chunks|] == chunks;
    r := Ok(weights);
  }

  /** A stream with a failing prefix fails. */
  lemma MergeStuck(chunks: seq<Chunk>, bucketSize: nat, k: nat)
    requires k <= |chunks| && Merge(Idle, chunks[..k], bucketSize).Crash?
    ensures Merge(Idle, chunks, bucketSize).Crash?
  {
    if Merge(Idle, chunks, bucketSize).Ok? {
      FeedPrefix(MergeWith(bucketSize), Idle, chunks, k);
    }
  }

  /** How the loop variables of the merger represent its state. */
  ghost predicate Represents(m: Merger, name: Option<string>, form: Form, buffer: array<Byte>, offset: nat)
    reads buffer
  {
    match m
    case Idle => name.None?
    case Merging(n, f, contents, o) => name == Some(n) && form == f && buffer[..] == contents && offset == o
  }

  /** The slice assignment in place; `ok` is false where it raises. */
  method PasteInPlace(buffer: array<Byte>, at: nat, size: nat, bytes: seq<Byte>) returns (ok: bool)
    modifies buffer
    ensures ok <==> Paste(old(buffer[..]), at, size, bytes).Ok?
    ensures ok ==> buffer[..] == Paste(old(buffer[..]), at, size, bytes).value
  {
    var lo, hi := Min(at, buffer.Length), Min(at + size, buffer.Length);
    ghost var before := buffer[..];
    ok := true;
    if |bytes| == hi - lo {
      WriteSlice(buffer, lo, bytes);
      assert buffer[..] == buffer[..lo] + buffer[lo..hi] + buffer[hi..];
    } else if |bytes| == 1 {
      WriteSlice(buffer, lo, seq(hi - lo, _ => bytes[0]));
      assert buffer[..] == buffer[..lo] + buffer[lo..hi] + buffer[hi..];
    } else {
      ok := false;
    }
  }

  /** The loop body: at most one weight is yielded per chunk; `ok` is false where an assertion or assignment fails. */
  method MergeChunk(c: Chunk, bucketSize: nat, mergeName: Option<string>, mergeForm: Form, mergeBuffer: array<Byte>,
                    mergeOffset: nat, ghost m: Merger)
    returns (ok: bool, name: Option<string>, form: Form, buffer: array<Byte>, offset: nat, out: seq<Weight>)
    requires Represents(m, mergeName, mergeForm, mergeBuffer, mergeOffset)
    modifies mergeBuffer
    ensures buffer == mergeBuffer || fresh(buffer)
    ensures ok <==> MergeStep(m, c, bucketSize).Ok?
    ensures ok ==> MergeStep(m, c, bucketSize).value.1 == out
    ensures ok ==> Represents(MergeStep(m, c, bucketSize).value.0, name, form, buffer, offset)
  {
    hide Nbytes, Paste;
    ok, name, form, buffer, offset, out := true, mergeName, mergeForm, mergeBuffer, mergeOffset, [];
    var meta := c.meta;
    var nbytes := Nbytes(meta.form);
    if nbytes <= bucketSize {
      ok := mergeName.None? && |c.bytes| == nbytes;
      out := [Weight(meta.name, meta.form, c.bytes)];
      return;
    }
    if name.None? {
      if meta.chunkOffset != 0 {
        ok := false;
        return;
      }
      name, form, offset := Some(meta.name), meta.form, 0;
      buffer := new Byte[nbytes](_ => 0);
      assert buffer[..] == Zeros(nbytes);
    }
    if Some(meta.name) != name || offset != meta.chunkOffset {
      ok := false;
      return;
    }
    ok := PasteInPlace(buffer, meta.chunkOffset, meta.chunkSize, c.bytes);
    offset := offset + meta.chunkSize;
    if ok && meta.chunkOffset + meta.chunkSize == nbytes {
      out := [Weight(name.value, form, buffer[..])];
      name, offset := None, 0;
    }
  }

  // ---------------------------------------------------------------- the round trip

  function NonEmpty(weights: seq<Weight>): seq<Weight> {
    if weights == [] then [] else
    var last := weights[|weights| - 1];
    NonEmpty(weights[..|weights| - 1]) + if last.bytes == [] then [] else [last]
  }

  /** The merger while the first `from` bytes of a weight have been received. */
  function Partway(w: Weight, from: nat): Merger
    requires from <= |w.bytes|
  {
    if from == 0 || from == |w.bytes| then Idle
    else Merging(w.name, w.form, w.bytes[..from] + Zeros(|w.bytes| - from), from)
  }

  /** Pasting the next chunk of a weight. */
  lemma PasteNext(bytes: seq<Byte>, from: nat, size: nat)
    requires from + size <= |bytes|
    ensures Paste(bytes[..from] + Zeros(|bytes| - from), from, size, bytes[from..from + size])
            == Ok(bytes[..from + size] + Zeros(|bytes| - from - size))
  {
    var buffer := bytes[..from] + Zeros(|bytes| - from);
    assert buffer[..from] == bytes[..from];
    assert buffer[from + size..] == Zeros(|bytes| - from - size);
    assert bytes[..from] + bytes[from..from + size] == bytes[..from + size];
  }

  lemma MergeOneChunk(w: Weight, bucketSize: nat, from: nat, size: nat)
    requires 0 < bucketSize && ValidWeight(w) && from < |w.bytes| && size == Min(bucketSize, |w.bytes| - from)
    requires 0 < from ==> bucketSize < |w.bytes|
    ensures MergeStep(Partway(w, from), ChunkAt(w, from, size), bucketSize)
            == Ok((Partway(w, from + size), if from + size == |w.bytes| then [w] else []))
  {
    hide Paste, Nbytes;
    PasteNext(w.bytes, from, size);
    if from == 0 {
      assert w.bytes[..0] + Zeros(|w.bytes|) == Zeros(|w.bytes|);
      if |w.bytes| <= bucketSize { assert w.bytes[0..size] == w.bytes; }
    }
    if from + size == |w.bytes| { assert w.bytes[..|w.bytes|] + Zeros(0) == w.bytes; }
  }

  /** The chunks of one weight, from any chunk boundary on, complete exactly that weight. */
  lemma {:induction false} MergeOne(w: Weight, bucketSize: nat, from: nat)
    requires 0 < bucketSize && ValidWeight(w) && from < |w.bytes|
    requires 0 < from ==> bucketSize < |w.bytes|
    ensures Merge(Partway(w, from), SplitFrom(w, bucketSize, from), bucketSize) == Ok((Idle, [w]))
    decreases |w.bytes| - from
  {
    hide MergeStep, ChunkAt, ValidWeight, Feed;
    var size := Min(bucketSize, |w.bytes| - from);
    var head := ChunkAt(w, from, size);
    var tail := SplitFrom(w, bucketSize, from + size);
    MergeOneChunk(w, bucketSize, from, size);
    FeedOne(MergeWith(bucketSize), Partway(w, from), head);
    var out := if from + size == |w.bytes| then [w] else [];
    assert Merge(Partway(w, from), [head], bucketSize) == Ok((Partway(w, from + size), out));
    if from + size < |w.bytes| {
      MergeOne(w, bucketSize, from + size);
      FeedConcat(MergeWith(bucketSize), Partway(w, from), [head], tail);
      assert [] + [w] == [w];
    } else {
      assert [head] + tail == [head];
    }
  }

  /** Merging the chunks of any list of weights gives back its weights, in order, without those of zero
      bytes; no assertion of the merger fails. */
  lemma {:induction false} MergeAfterSplit(weights: seq<Weight>, bucketSize: nat)
    requires 0 < bucketSize && forall w :: w in weights ==> ValidWeight(w)
    ensures Merge(Idle, Split(weights, bucketSize), bucketSize) == Ok((Idle, NonEmpty(weights)))
  {
    if weights != [] {
      var n := |weights| - 1;
      MergeAfterSplit(weights[..n], bucketSize);
      if weights[n].bytes == [] {
        assert Split(weights, bucketSize) == Split(weights[..n], bucketSize);
        assert NonEmpty(weights) == NonEmpty(weights[..n]);
      } else {
        MergeOne(weights[n], bucketSize, 0);
        FeedConcat(MergeWith(bucketSize), Idle, Split(weights[..n], bucketSize), SplitFrom(weights[n], bucketSize, 0));
      }
    }
  }

  predicate NoneEmpty(weights: seq<Weight>) {
    forall i :: 0 <= i < |weights| ==> weights[i].bytes != []
  }

  lemma NoneEmptySnoc(weights: seq<Weight>)
    requires weights != []
    ensures NoneEmpty(weights) <==> NoneEmpty(weights[..|weights| - 1]) && weights[|weights| - 1].bytes != []
  {
    var front := weights[..|weights| - 1];
    forall i | 0 <= i < |front| ensures front[i] == weights[i] {}
  }

  lemma {:induction false} NonEmptyLength(weights: seq<Weight>)
    ensures NoneEmpty(weights) ==> NonEmpty(weights) == weights
    ensures |NonEmpty(weights)| <= |weights| && (!NoneEmpty(weights) ==> |NonEmpty(weights)| < |weights|)
  {
    hide NoneEmpty;
    if weights == [] {
      NoneAtAll();
    } else {
      var front, last := weights[..|weights| - 1], weights[|weights| - 1];
      NonEmptyLength(front);
      NoneEmptySnoc(weights);
      assert NonEmpty(weights) == NonEmpty(front) + if last.bytes == [] then [] else [last];
      assert weights == front + [last];
    }
  }

  lemma NoneAtAll()
    ensures NoneEmpty([])
  {
  }

  /** The transfer is the identity exactly when no weight is empty. */
  lemma RoundTripExact(weights: seq<Weight>, bucketSize: nat)
    requires 0 < bucketSize && forall w :: w in weights ==> ValidWeight(w)
    ensures Merge(Idle, Split(weights, bucketSize), bucketSize) == Ok((Idle, weights)) <==> NoneEmpty(weights)
  {
    hide Merge, Split, NonEmpty, NoneEmpty;
    MergeAfterSplit(weights, bucketSize);
    NonEmptyLength(weights);
  }
}
