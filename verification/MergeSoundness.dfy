/** What a stream must look like for the merger to accept it, and what it then makes of it. */
module MergeSoundness {
  import opened Shapes
  import opened WeightChunks

  // ---------------------------------------------------------------- sizes

  /** The byte size of a tensor: the product of its dimensions and of its element size. */
  lemma BytesOfForm(k: nat, shape: seq<nat>, itemsize: nat)
    ensures Nbytes(Form([], itemsize)) == itemsize
    ensures Nbytes(Form([k] + shape, itemsize)) == k * Nbytes(Form(shape, itemsize))
  {
    assert ([k] + shape)[1..] == shape;
    var n := Numel(shape);
    assert k * n * itemsize == k * (n * itemsize);
  }

  /** Slice assignment, byte by byte: the slice, clipped to the buffer, takes the bytes or the one byte repeated;
      nothing else changes. */
  lemma PasteCells(buffer: seq<Byte>, at: nat, size: nat, bytes: seq<Byte>)
    ensures var inside := (if at + size <= |buffer| then at + size else |buffer|) - (if at <= |buffer| then at else |buffer|);
            Paste(buffer, at, size, bytes).Ok? <==> |bytes| == inside || |bytes| == 1
    ensures Paste(buffer, at, size, bytes).Ok? ==>
              var r := Paste(buffer, at, size, bytes).value;
              && |r| == |buffer|
              && forall k :: 0 <= k < |buffer| ==>
                   r[k] == if at <= k < at + size then (if |bytes| == 1 then bytes[0] else bytes[k - at]) else buffer[k]
  {
  }

  // ---------------------------------------------------------------- accepted streams

  function Bytes(chunks: seq<Chunk>): seq<Byte> {
    if chunks == [] then [] else Bytes(chunks[..|chunks| - 1]) + chunks[|chunks| - 1].bytes
  }

  /** Chunks have the announced size, and a name always comes with the same form. */
  ghost predicate Sized(chunks: seq<Chunk>) {
    && (forall i :: 0 <= i < |chunks| ==> |chunks[i].bytes| == chunks[i].meta.chunkSize)
    && forall i, j :: 0 <= i < |chunks| && 0 <= j < |chunks| && chunks[i].meta.name == chunks[j].meta.name ==>
         chunks[i].meta.form == chunks[j].meta.form
  }

  /** The chunks a .. b belong to one weight, and follow each other from its first byte on. */
  ghost predicate Consecutive(chunks: seq<Chunk>, a: nat, b: nat, name: string, form: Form) {
    && a <= b <= |chunks|
    && forall i :: a <= i < b ==>
         && chunks[i].meta.name == name && chunks[i].meta.form == form
         && chunks[i].meta.chunkOffset == |Bytes(chunks[a..i])|
  }

  /** The chunks a .. b are exactly the weight: one chunk if it fits a bucket, otherwise consecutive ones. */
  ghost predicate IsWeight(chunks: seq<Chunk>, a: nat, b: nat, w: Weight, bucketSize: nat) {
    && a < b <= |chunks| && w.bytes == Bytes(chunks[a..b]) && |w.bytes| == Nbytes(w.form)
    && (forall i :: a <= i < b ==> chunks[i].meta.name == w.name && chunks[i].meta.form == w.form)
    && if Nbytes(w.form) <= bucketSize then b == a + 1 else Consecutive(chunks, a, b, w.name, w.form)
  }

  /** The cuts divide the stream into the weights. */
  ghost predicate CutInto(chunks: seq<Chunk>, cuts: seq<nat>, weights: seq<Weight>, bucketSize: nat) {
    && |cuts| == |weights| + 1 && cuts[0] == 0
    && forall w :: 0 <= w < |weights| ==> IsWeight(chunks, cuts[w], cuts[w + 1], weights[w], bucketSize)
  }

  /** The merger has received the chunks from a on, and not yet all of their weight. */
  ghost predicate Pending(chunks: seq<Chunk>, a: nat, m: Merger, bucketSize: nat) {
    && a <= |chunks|
    && match m
       case Idle => a == |chunks|
       case Merging(name, form, buffer, offset) =>
         && a < |chunks| && Consecutive(chunks, a, |chunks|, name, form)
         && bucketSize < Nbytes(form) == |buffer| && offset == |Bytes(chunks[a..])| < |buffer|
         && buffer[..offset] == Bytes(chunks[a..])
  }

  lemma BytesSnoc(chunks: seq<Chunk>, c: Chunk)
    ensures Bytes(chunks + [c]) == Bytes(chunks) + c.bytes
  {
    assert (chunks + [c])[..|chunks|] == chunks;
  }

  lemma SliceFront(chunks: seq<Chunk>, c: Chunk, a: nat, b: nat)
    requires a <= b <= |chunks|
    ensures (chunks + [c])[a..b] == chunks[a..b]
  {
  }

  lemma ConsecutiveLater(chunks: seq<Chunk>, c: Chunk, a: nat, b: nat, name: string, form: Form)
    requires Consecutive(chunks, a, b, name, form)
    ensures Consecutive(chunks + [c], a, b, name, form)
  {
    forall i | a <= i < b ensures (chunks + [c])[a..i] == chunks[a..i] && (chunks + [c])[i] == chunks[i] {}
  }

  lemma WeightLater(chunks: seq<Chunk>, c: Chunk, a: nat, b: nat, w: Weight, bucketSize: nat)
    requires IsWeight(chunks, a, b, w, bucketSize)
    ensures IsWeight(chunks + [c], a, b, w, bucketSize)
  {
    hide Consecutive, Nbytes, Bytes;
    SliceFront(chunks, c, a, b);
    forall i | a <= i < b ensures (chunks + [c])[i] == chunks[i] {}
    if bucketSize < Nbytes(w.form) { ConsecutiveLater(chunks, c, a, b, w.name, w.form); }
  }

  /** One more chunk of the pending weight. */
  lemma ConsecutiveNext(chunks: seq<Chunk>, c: Chunk, a: nat, name: string, form: Form)
    requires Consecutive(chunks, a, |chunks|, name, form)
    requires c.meta.name == name && c.meta.form == form && c.meta.chunkOffset == |Bytes(chunks[a..])|
    ensures Consecutive(chunks + [c], a, |chunks| + 1, name, form)
    ensures Bytes((chunks + [c])[a..]) == Bytes(chunks[a..]) + c.bytes
  {
    ConsecutiveLater(chunks, c, a, |chunks|, name, form);
    assert (chunks + [c])[a..] == chunks[a..] + [c] && (chunks + [c])[a..|chunks|] == chunks[a..];
    BytesSnoc(chunks[a..], c);
  }

  /** Pasting at the end of what is written. */
  lemma PasteEnd(buffer: seq<Byte>, offset: nat, bytes: seq<Byte>)
    requires offset < |buffer| && Paste(buffer, offset, |bytes|, bytes).Ok?
    ensures offset + |bytes| <= |buffer|
    ensures var r := Paste(buffer, offset, |bytes|, bytes).value;
            |r| == |buffer| && r[..offset + |bytes|] == buffer[..offset] + bytes
  {
  }

  lemma Ends(chunks: seq<Chunk>, a: nat, name: string, form: Form, buffer: seq<Byte>, bucketSize: nat)
    requires a < |chunks| && Consecutive(chunks, a, |chunks|, name, form) && bucketSize < Nbytes(form) == |buffer|
    requires |Bytes(chunks[a..])| == |buffer| && buffer[..|buffer|] == Bytes(chunks[a..])
    ensures IsWeight(chunks, a, |chunks|, Weight(name, form, buffer), bucketSize)
  {
    hide Nbytes, Bytes;
    assert chunks[a..] == chunks[a..|chunks|] && buffer[..|buffer|] == buffer;
  }

  /** What the merger is about to paste into, where, and for which weight. */
  predicate Target(m: Merger, c: Chunk, buffer: seq<Byte>, offset: nat) {
    match m
    case Idle => buffer == Zeros(Nbytes(c.meta.form)) && offset == 0 == c.meta.chunkOffset
    case Merging(name, form, b, o) => buffer == b && offset == o == c.meta.chunkOffset && name == c.meta.name
  }

  lemma LargeResult(m: Merger, c: Chunk, bucketSize: nat, buffer: seq<Byte>, offset: nat)
    requires bucketSize < Nbytes(c.meta.form) && |c.bytes| == c.meta.chunkSize && MergeStep(m, c, bucketSize).Ok?
    requires m.Merging? ==> m.form == c.meta.form && buffer == m.buffer && offset == m.offset
    requires m.Idle? ==> buffer == Zeros(Nbytes(c.meta.form)) && offset == 0
    ensures Target(m, c, buffer, offset) && Paste(buffer, offset, |c.bytes|, c.bytes).Ok?
    ensures var r, next := Paste(buffer, offset, |c.bytes|, c.bytes).value, offset + |c.bytes|;
            MergeStep(m, c, bucketSize).value ==
              if next == Nbytes(c.meta.form) then (Idle, [Weight(c.meta.name, c.meta.form, r)])
              else (Merging(c.meta.name, c.meta.form, r, next), [])
  {
    hide Paste, Nbytes;
  }

  /** A chunk of a large weight that the merger accepts continues the pending weight, or starts one. */
  lemma LargeStep(chunks: seq<Chunk>, c: Chunk, a: nat, m: Merger, bucketSize: nat)
    requires Sized(chunks + [c]) && Pending(chunks, a, m, bucketSize)
    requires bucketSize < Nbytes(c.meta.form) && MergeStep(m, c, bucketSize).Ok?
    ensures var (m', out) := MergeStep(m, c, bucketSize).value;
            if m'.Idle? then |out| == 1 && IsWeight(chunks + [c], a, |chunks| + 1, out[0], bucketSize)
            else out == [] && Pending(chunks + [c], a, m', bucketSize)
  {
    hide Paste, Nbytes, MergeStep, IsWeight;
    var n, all := |chunks|, chunks + [c];
    var name, form := c.meta.name, c.meta.form;
    assert all[n] == c && all[..n] == chunks;
    var buffer := if m.Idle? then Zeros(Nbytes(form)) else m.buffer;
    var offset := if m.Idle? then 0 else m.offset;
    if m.Idle? {
      assert chunks[a..] == [];
    } else {
      SameForm(chunks, c, a, m, bucketSize);
    }
    hide Sized;
    LargeResult(m, c, bucketSize, buffer, offset);
    ConsecutiveNext(chunks, c, a, name, form);
    PasteEnd(buffer, offset, c.bytes);
    hide Consecutive;
    if offset + |c.bytes| == Nbytes(form) {
      Ends(all, a, name, form, Paste(buffer, offset, |c.bytes|, c.bytes).value, bucketSize);
    }
  }

  lemma SameForm(chunks: seq<Chunk>, c: Chunk, a: nat, m: Merger, bucketSize: nat)
    requires Sized(chunks + [c]) && Pending(chunks, a, m, bucketSize) && m.Merging?
    requires bucketSize < Nbytes(c.meta.form) && MergeStep(m, c, bucketSize).Ok?
    ensures c.meta.name == m.name && c.meta.form == m.form
  {
    hide Paste, Nbytes;
    assert (chunks + [c])[a] == chunks[a] && (chunks + [c])[|chunks|] == c;
  }

  /** A chunk of a small weight is passed on, and only between weights. */
  lemma SmallStep(chunks: seq<Chunk>, c: Chunk, a: nat, m: Merger, bucketSize: nat)
    requires Pending(chunks, a, m, bucketSize) && Nbytes(c.meta.form) <= bucketSize && MergeStep(m, c, bucketSize).Ok?
    ensures MergeStep(m, c, bucketSize).value.0 == Idle && m == Idle && a == |chunks|
    ensures |MergeStep(m, c, bucketSize).value.1| == 1
    ensures IsWeight(chunks + [c], a, a + 1, MergeStep(m, c, bucketSize).value.1[0], bucketSize)
  {
    hide Nbytes, Consecutive, Paste, Bytes;
    assert m.Idle?;
    BytesOne(c);
    LastOne(chunks, c);
  }

  lemma BytesOne(c: Chunk)
    ensures Bytes([c]) == c.bytes
  {
    assert [] + [c] == [c];
    BytesSnoc([], c);
  }

  lemma LastOne(chunks: seq<Chunk>, c: Chunk)
    ensures (chunks + [c])[|chunks|..|chunks| + 1] == [c] && (chunks + [c])[|chunks|] == c
  {
  }

  lemma SizedPrefix(chunks: seq<Chunk>)
    requires Sized(chunks) && chunks != []
    ensures Sized(chunks[..|chunks| - 1])
  {
    var front := chunks[..|chunks| - 1];
    forall i | 0 <= i < |front| ensures front[i] == chunks[i] {}
  }

  lemma CutLater(chunks: seq<Chunk>, c: Chunk, cuts: seq<nat>, weights: seq<Weight>, bucketSize: nat)
    requires CutInto(chunks, cuts, weights, bucketSize)
    ensures CutInto(chunks + [c], cuts, weights, bucketSize)
  {
    hide IsWeight;
    forall w | 0 <= w < |weights| ensures IsWeight(chunks + [c], cuts[w], cuts[w + 1], weights[w], bucketSize) {
      WeightLater(chunks, c, cuts[w], cuts[w + 1], weights[w], bucketSize);
    }
  }

  lemma CutMore(chunks: seq<Chunk>, cuts: seq<nat>, weights: seq<Weight>, w: Weight, b: nat, bucketSize: nat)
    requires CutInto(chunks, cuts, weights, bucketSize) && IsWeight(chunks, cuts[|weights|], b, w, bucketSize)
    ensures CutInto(chunks, cuts + [b], weights + [w], bucketSize)
  {
    hide IsWeight;
  }

  /** Whatever the merger accepts is a sequence of weights: every weight it yields is made of chunks of its own name
      that follow each other without gap from its first byte to its last, and no chunk is left out. */
  lemma {:induction false} MergeSound(chunks: seq<Chunk>, bucketSize: nat) returns (cuts: seq<nat>)
    requires Sized(chunks) && Merge(Idle, chunks, bucketSize).Ok?
    ensures var (m, weights) := Merge(Idle, chunks, bucketSize).value;
            CutInto(chunks, cuts, weights, bucketSize) && Pending(chunks, cuts[|weights|], m, bucketSize)
  {
    hide Sized, MergeStep, Pending, IsWeight;
    if chunks == [] {
      cuts := [0];
      NothingCut(bucketSize);
    } else {
      var n := |chunks| - 1;
      var front, c := chunks[..n], chunks[n];
      SizedPrefix(chunks);
      assert chunks == front + [c];
      cuts := MergeSound(front, bucketSize);
      var (m, weights) := Merge(Idle, front, bucketSize).value;
      cuts := NextCut(front, c, cuts, weights, m, bucketSize);
    }
  }

  lemma NothingCut(bucketSize: nat)
    ensures CutInto([], [0], [], bucketSize) && Pending([], 0, Idle, bucketSize)
  {
  }

  lemma NextCut(front: seq<Chunk>, c: Chunk, cuts: seq<nat>, weights: seq<Weight>, m: Merger, bucketSize: nat)
    returns (next: seq<nat>)
    requires Sized(front + [c]) && CutInto(front, cuts, weights, bucketSize)
    requires |cuts| == |weights| + 1 && Pending(front, cuts[|weights|], m, bucketSize) && MergeStep(m, c, bucketSize).Ok?
    ensures var (m', out) := MergeStep(m, c, bucketSize).value;
            && CutInto(front + [c], next, weights + out, bucketSize)
            && |next| == |weights + out| + 1 && Pending(front + [c], next[|weights + out|], m', bucketSize)
  {
    hide Sized, MergeStep, IsWeight, Consecutive, Nbytes;
    var a := cuts[|weights|];
    var (m', out) := MergeStep(m, c, bucketSize).value;
    CutLater(front, c, cuts, weights, bucketSize);
    if Nbytes(c.meta.form) <= bucketSize {
      SmallStep(front, c, a, m, bucketSize);
    } else {
      LargeStep(front, c, a, m, bucketSize);
    }
    if m'.Idle? {
      CutMore(front + [c], cuts, weights, out[0], |front| + 1, bucketSize);
      next := cuts + [|front| + 1];
      assert weights + out == weights + [out[0]];
    } else {
      next := cuts;
      assert weights + out == weights;
    }
  }
}
