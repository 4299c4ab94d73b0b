/** The NCCL engine's sender and receiver loops over two swapped buffers. */
module NcclEngine {
  import opened Outcomes
  import opened Streams
  import opened WeightChunks
  import opened BucketPacking
  import opened BucketTransfer

  /** One broadcast: the bucket's table, whether it is the last, and the buffer's contents. */
  datatype Message = Message(table: seq<TensorMeta>, last: bool, image: Buffer)

  predicate AllGood(buckets: seq<Bucket>, size: nat) {
    forall i :: 0 <= i < |buckets| ==> GoodBucket(buckets[i], size)
  }

  /** The i-th broadcast of a list of buckets. */
  function MessageOf(buckets: seq<Bucket>, size: nat, i: nat): Message
    requires FitAll(buckets, size) && i < |buckets|
  {
    Message(Metas(buckets[i]), i == |buckets| - 1, Image(buckets, size, i))
  }

  /** The send buffer before bucket i is written to it. */
  function Leftover(buckets: seq<Bucket>, size: nat, i: nat): Buffer
    requires FitAll(buckets, size) && i < |buckets| + 2
  {
    if i < 2 then Zeros(size) else Image(buckets, size, i - 2)
  }

  /** An image depends only on the buckets up to its own. */
  lemma {:induction false} ImagePrefix(a: seq<Bucket>, b: seq<Bucket>, size: nat, i: nat)
    requires FitAll(a, size) && FitAll(b, size) && i < |a| && a <= b
    ensures Image(a, size, i) == Image(b, size, i)
  {
    if 2 <= i { ImagePrefix(a, b, size, i - 2); }
  }

  /** What is known when the buckets `sent` are out and `p` is being filled. */
  ghost predicate Sending(sent: seq<Bucket>, p: Packer, size: nat, table: seq<TensorMeta>, offset: nat,
                          sendBuf: Buffer, recvBuf: Buffer, messages: seq<Message>)
  {
    && AllGood(sent, size) && FitAll(sent, size) && GoodBucket(p.bucket, size) && Fits(p.bucket, size)
    && |sendBuf| == |recvBuf| == size && p.offset == Used(p.bucket)
    && table == Metas(p.bucket) && offset == p.offset
    && sendBuf == Overlay(Leftover(sent, size, |sent|), p.bucket)
    && recvBuf == Leftover(sent, size, |sent| + 1)
    && |messages| == |sent|
    && forall i :: 0 <= i < |sent| ==> messages[i] == Message(Metas(sent[i]), false, Image(sent, size, i))
  }

  lemma ImagesKept(sent: seq<Bucket>, b: Bucket, size: nat)
    requires FitAll(sent, size) && Fits(b, size)
    ensures FitAll(sent + [b], size)
    ensures forall i :: 0 <= i < |sent| ==> Image(sent + [b], size, i) == Image(sent, size, i)
    ensures Image(sent + [b], size, |sent|) == Overlay(Leftover(sent, size, |sent|), b)
  {
    forall i | 0 <= i < |sent| ensures Image(sent + [b], size, i) == Image(sent, size, i) {
      ImagePrefix(sent, sent + [b], size, i);
    }
    assert (sent + [b])[|sent|] == b;
  }

  lemma MessagesGrow(sent: seq<Bucket>, b: Bucket, size: nat, messages: seq<Message>, image: Buffer)
    requires FitAll(sent, size) && Fits(b, size) && |messages| == |sent|
    requires image == Overlay(Leftover(sent, size, |sent|), b)
    requires forall i :: 0 <= i < |sent| ==> messages[i] == Message(Metas(sent[i]), false, Image(sent, size, i))
    ensures FitAll(sent + [b], size)
    ensures forall i :: 0 <= i < |sent| + 1 ==>
              (messages + [Message(Metas(b), false, image)])[i] == Message(Metas((sent + [b])[i]), false, Image(sent + [b], size, i))
  {
    ImagesKept(sent, b, size);
    hide Image, Overlay, Leftover, Metas;
    forall i | 0 <= i < |sent| + 1
      ensures (messages + [Message(Metas(b), false, image)])[i] == Message(Metas((sent + [b])[i]), false, Image(sent + [b], size, i))
    {
      if i < |sent| { assert (sent + [b])[i] == sent[i]; }
    }
  }

  /** Broadcasting the full bucket and swapping the buffers. */
  lemma SendBucket(sent: seq<Bucket>, p: Packer, size: nat, table: seq<TensorMeta>, offset: nat,
                   sendBuf: Buffer, recvBuf: Buffer, messages: seq<Message>)
    requires Sending(sent, p, size, table, offset, sendBuf, recvBuf, messages)
    ensures Sending(sent + [p.bucket], Packer([], 0), size, [], 0, recvBuf, sendBuf,
                    messages + [Message(table, false, sendBuf)])
  {
    MessagesGrow(sent, p.bucket, size, messages, sendBuf);
    ImagesKept(sent, p.bucket, size);
    hide Image, GoodBucket, Metas;
    assert Leftover(sent + [p.bucket], size, |sent| + 1) == recvBuf;
    assert Overlay(recvBuf, []) == recvBuf;
    EmptyIsGood(size);
  }

  lemma EmptyIsGood(size: nat)
    ensures GoodBucket([], size) && Fits([], size) && Metas([]) == [] && Used([]) == 0
  {
  }

  lemma OffsetOf(sent: seq<Bucket>, p: Packer, size: nat, table: seq<TensorMeta>, offset: nat,
                 sendBuf: Buffer, recvBuf: Buffer, messages: seq<Message>)
    requires Sending(sent, p, size, table, offset, sendBuf, recvBuf, messages)
    ensures offset == p.offset
  {
  }

  lemma SendingStart(size: nat)
    ensures Sending([], Packer([], 0), size, [], 0, Zeros(size), Zeros(size), [])
  {
    EmptyIsGood(size);
  }

  /** Placing a chunk in the current bucket. */
  lemma SendChunk(sent: seq<Bucket>, p: Packer, size: nat, table: seq<TensorMeta>, offset: nat,
                  sendBuf: Buffer, recvBuf: Buffer, messages: seq<Message>, c: Chunk)
    requires Sending(sent, p, size, table, offset, sendBuf, recvBuf, messages)
    requires GoodChunk(c, size) && offset + c.meta.chunkSize <= size && !HasName(p.bucket, c.meta.name)
    ensures var d := Placed(c, offset);
            Sending(sent, Packer(p.bucket + [d], offset + c.meta.chunkSize), size, table + [d.meta],
                    offset + c.meta.chunkSize, Write(sendBuf, offset, c.bytes), recvBuf, messages)
  {
    var d := Placed(c, offset);
    var b := p.bucket + [d];
    PlaceGood(p.bucket, c, size);
    UsedSnoc(p.bucket, d);
    GoodFits(b, size);
    assert b[..|b| - 1] == p.bucket;
    assert Metas(b) == table + [d.meta];
  }

  /** Copy a chunk to its place in a buffer. */
  method CopyChunk(buffer: array<Byte>, at: nat, bytes: seq<Byte>)
    requires at + |bytes| <= buffer.Length
    modifies buffer
    ensures buffer[..] == Write(old(buffer[..]), at, bytes)
  {
    WriteSlice(buffer, at, bytes);
    assert buffer[..] == buffer[..at] + buffer[at..at + |bytes|] + buffer[at + |bytes|..];
  }

  /** If the chunk does not fit, broadcast the bucket and continue in the other buffer. */
  method MakeRoom(c: Chunk, bucketSize: nat, sendBuf: array<Byte>, recvBuf: array<Byte>, table: seq<TensorMeta>,
                  offset: nat, messages: seq<Message>, ghost p: Packer, ghost sent: seq<Bucket>)
    returns (sendBuf': array<Byte>, recvBuf': array<Byte>, table': seq<TensorMeta>, offset': nat,
             messages': seq<Message>, ghost p': Packer, ghost sent': seq<Bucket>)
    requires Sending(sent, p, bucketSize, table, offset, sendBuf[..], recvBuf[..], messages)
    requires PackStep(p, c, bucketSize).Ok?
    ensures (sendBuf' == sendBuf && recvBuf' == recvBuf) || (sendBuf' == recvBuf && recvBuf' == sendBuf)
    ensures Sending(sent', p', bucketSize, table', offset', sendBuf'[..], recvBuf'[..], messages')
    ensures offset' + c.meta.chunkSize <= bucketSize && !HasName(p'.bucket, c.meta.name)
    ensures PackStep(p, c, bucketSize).value.0 == Packer(p'.bucket + [Placed(c, offset')], offset' + c.meta.chunkSize)
    ensures sent' == sent + PackStep(p, c, bucketSize).value.1
  {
    OffsetOf(sent, p, bucketSize, table, offset, sendBuf[..], recvBuf[..], messages);
    sendBuf', recvBuf', table', offset', messages', p', sent' := sendBuf, recvBuf, table, offset, messages, p, sent;
    if offset + c.meta.chunkSize > bucketSize {
      SendBucket(sent, p, bucketSize, table, offset, sendBuf[..], recvBuf[..], messages);
      messages' := messages + [Message(table, false, sendBuf[..])];
      sendBuf', recvBuf' := recvBuf, sendBuf;
      table', offset' := [], 0;
      sent', p' := sent + [p.bucket], Packer([], 0);
    }
    hide Sending;
  }

  /** The loop body of the sender: make room if need be, then place the chunk. */
  method PackChunk(c: Chunk, bucketSize: nat, sendBuf: array<Byte>, recvBuf: array<Byte>, table: seq<TensorMeta>,
                   offset: nat, messages: seq<Message>, ghost p: Packer, ghost sent: seq<Bucket>)
    returns (sendBuf': array<Byte>, recvBuf': array<Byte>, table': seq<TensorMeta>, offset': nat, messages': seq<Message>)
    requires sendBuf != recvBuf && sendBuf.Length == recvBuf.Length == bucketSize && GoodChunk(c, bucketSize)
    requires Sending(sent, p, bucketSize, table, offset, sendBuf[..], recvBuf[..], messages)
    requires PackStep(p, c, bucketSize).Ok?
    modifies sendBuf, recvBuf
    ensures (sendBuf' == sendBuf && recvBuf' == recvBuf) || (sendBuf' == recvBuf && recvBuf' == sendBuf)
    ensures var (p', out) := PackStep(p, c, bucketSize).value;
            Sending(sent + out, p', bucketSize, table', offset', sendBuf'[..], recvBuf'[..], messages')
  {
    hide Sending, Write, HasName, PackStep;
    ghost var p1, sent1;
    sendBuf', recvBuf', table', offset', messages', p1, sent1 :=
      MakeRoom(c, bucketSize, sendBuf, recvBuf, table, offset, messages, p, sent);
    SendChunk(sent1, p1, bucketSize, table', offset', sendBuf'[..], recvBuf'[..], messages', c);
    table' := table' + [c.meta.(offset := Some(offset'))];
    CopyChunk(sendBuf', offset', c.bytes);
    offset' := offset' + c.meta.chunkSize;
  }

  /** The sender's loop: fill the send buffer chunk by chunk, broadcast when the next chunk does not fit,
      swap, and broadcast the last bucket. */
  method SendChunks(chunks: seq<Chunk>, bucketSize: nat) returns (messages: seq<Message>)
    requires GoodStream(chunks, bucketSize) && Pack(chunks, bucketSize).Ok?
    ensures var buckets := Pack(chunks, bucketSize).value;
            && FitAll(buckets, bucketSize) && |messages| == |buckets|
            && forall i :: 0 <= i < |buckets| ==> messages[i] == MessageOf(buckets, bucketSize, i)
  {
    var sendBuf, recvBuf := new Byte[bucketSize](_ => 0), new Byte[bucketSize](_ => 0);
    var table: seq<TensorMeta>, offset: nat := [], 0;
    messages := [];
    ghost var p, sent: seq<Bucket> := Packer([], 0), [];
    assert sendBuf[..] == Zeros(bucketSize) && recvBuf[..] == Zeros(bucketSize);
    SendingStart(bucketSize);
    assert Feed(PackWith(bucketSize), Packer([], 0), chunks[..0]) == Ok((Packer([], 0), []));
    hide Sending, GoodStream, Zeros, PackStep;
    for i := 0 to |chunks|
      invariant sendBuf != recvBuf && sendBuf.Length == recvBuf.Length == bucketSize && fresh(sendBuf) && fresh(recvBuf)
      invariant Feed(PackWith(bucketSize), Packer([], 0), chunks[..i]) == Ok((p, sent))
      invariant Sending(sent, p, bucketSize, table, offset, sendBuf[..], recvBuf[..], messages)
    {
      GoodAt(chunks, bucketSize, i);
      FeedNext(PackWith(bucketSize), Packer([], 0), chunks, i);
      ghost var (p', out) := PackStep(p, chunks[i], bucketSize).value;
      sendBuf, recvBuf, table, offset, messages :=
        PackChunk(chunks[i], bucketSize, sendBuf, recvBuf, table, offset, messages, p, sent);
      p, sent := p', sent + out;
    }
    assert chunks[..|chunks|] == chunks;
    SendLast(sent, p, bucketSize, table, offset, sendBuf[..], recvBuf[..], messages);
    messages := messages + [Message(table, true, sendBuf[..])];
  }

  /** The whole sender: the broadcasts carry exactly the packed buckets of the weights. */
  method SendWeights(weights: seq<Weight>, bucketSize: nat) returns (messages: seq<Message>)
    requires 0 < bucketSize && DistinctWeights(weights)
    ensures Pack(Split(weights, bucketSize), bucketSize).Ok?
    ensures var buckets := Pack(Split(weights, bucketSize), bucketSize).value;
            && FitAll(buckets, bucketSize) && |messages| == |buckets|
            && forall i :: 0 <= i < |buckets| ==> messages[i] == MessageOf(buckets, bucketSize, i)
  {
    var chunks := SplitWeightChunks(weights, bucketSize);
    SplitIsGood(weights, bucketSize);
    PackWorks(chunks, bucketSize);
    messages := SendChunks(chunks, bucketSize);
  }

  /** Broadcasting the last bucket completes the messages of all buckets. */
  lemma SendLast(sent: seq<Bucket>, p: Packer, size: nat, table: seq<TensorMeta>, offset: nat,
                 sendBuf: Buffer, recvBuf: Buffer, messages: seq<Message>)
    requires Sending(sent, p, size, table, offset, sendBuf, recvBuf, messages)
    ensures var buckets, all := sent + [p.bucket], messages + [Message(table, true, sendBuf)];
            && FitAll(buckets, size) && |all| == |buckets|
            && forall i :: 0 <= i < |buckets| ==> all[i] == MessageOf(buckets, size, i)
  {
    var buckets, all := sent + [p.bucket], messages + [Message(table, true, sendBuf)];
    MessagesGrow(sent, p.bucket, size, messages, sendBuf);
    var unmarked := messages + [Message(table, false, sendBuf)];
    hide Image, GoodBucket, Metas;
    forall i | 0 <= i < |buckets| ensures all[i] == MessageOf(buckets, size, i) {
      assert unmarked[i] == Message(Metas(buckets[i]), false, Image(buckets, size, i));
    }
  }

  lemma GoodAt(chunks: seq<Chunk>, bucketSize: nat, i: nat)
    requires GoodStream(chunks, bucketSize) && i < |chunks|
    ensures GoodChunk(chunks[i], bucketSize)
  {
  }

  /** What a receiver yields for a list of broadcasts. */
  function Yielded(messages: seq<Message>): seq<Chunk> {
    if messages == [] then [] else
    var m := messages[|messages| - 1];
    Yielded(messages[..|messages| - 1]) + Unpack(m.image, m.table)
  }

  predicate OnlyLastMarked(messages: seq<Message>) {
    messages != [] && forall i :: 0 <= i < |messages| ==> (messages[i].last <==> i == |messages| - 1)
  }

  /** The receiver loop: each broadcast lands in the receive buffer, the buffers are swapped, and views of the
      send buffer are yielded entry by entry until the bucket marked last. */
  method ReceiveWeightChunks(messages: seq<Message>, bucketSize: nat) returns (chunks: seq<Chunk>)
    requires OnlyLastMarked(messages) && forall i :: 0 <= i < |messages| ==> |messages[i].image| == bucketSize
    ensures chunks == Yielded(messages)
  {
    chunks := [];
    var sendBuf, recvBuf := new Byte[bucketSize], new Byte[bucketSize];
    Receive(recvBuf, messages[0].image);
    var metadata, next := messages[0], 1;
    sendBuf, recvBuf := recvBuf, sendBuf;
    while !metadata.last
      invariant fresh(sendBuf) && fresh(recvBuf) && sendBuf != recvBuf
      invariant sendBuf.Length == recvBuf.Length == bucketSize
      invariant 1 <= next <= |messages| && metadata == messages[next - 1] && sendBuf[..] == metadata.image
      invariant chunks == Yielded(messages[..next - 1])
      decreases |messages| - next
    {
      Receive(recvBuf, messages[next].image);
      var views := YieldViews(sendBuf, metadata.table);
      assert messages[..next][..next - 1] == messages[..next - 1];
      chunks := chunks + views;
      metadata, next := messages[next], next + 1;
      sendBuf, recvBuf := recvBuf, sendBuf;
    }
    var views := YieldViews(sendBuf, metadata.table);
    assert messages[..next] == messages;
    chunks := chunks + views;
  }

  /** A broadcast overwrites the whole receive buffer. */
  method Receive(buffer: array<Byte>, image: Buffer)
    requires |image| == buffer.Length
    modifies buffer
    ensures buffer[..] == image
  {
    WriteSlice(buffer, 0, image);
    assert buffer[..] == buffer[0..|image|];
  }

  method YieldViews(buffer: array<Byte>, table: seq<TensorMeta>) returns (views: seq<Chunk>)
    ensures views == Unpack(buffer[..], table)
  {
    views := [];
    for i := 0 to |table|
      invariant views == Unpack(buffer[..], table)[..i]
    {
      views := views + [Chunk(table[i], Slice(buffer[..], table[i]))];
    }
  }

  lemma {:induction false} YieldedIsReceived(buckets: seq<Bucket>, size: nat, messages: seq<Message>, k: nat)
    requires FitAll(buckets, size) && |messages| == |buckets| && k <= |buckets|
    requires forall i :: 0 <= i < |buckets| ==> messages[i] == MessageOf(buckets, size, i)
    ensures Yielded(messages[..k]) == Received(buckets, size, k)
  {
    if k > 0 {
      YieldedIsReceived(buckets, size, messages, k - 1);
      assert messages[..k][..k - 1] == messages[..k - 1];
    }
  }

  /** The program of both ends, composed: the receiver ends up with the sender's non-empty weights. */
  method Transfer(weights: seq<Weight>, bucketSize: nat) returns (received: Outcome<seq<Weight>>)
    requires 0 < bucketSize && DistinctWeights(weights) && forall w :: w in weights ==> ValidWeight(w)
    ensures received == Ok(NonEmpty(weights))
  {
    var messages := SendWeights(weights, bucketSize);
    TransferIsIdentity(weights, bucketSize);
    ghost var buckets := Pack(Split(weights, bucketSize), bucketSize).value;
    YieldedIsReceived(buckets, bucketSize, messages, |messages|);
    assert messages[..|messages|] == messages;
    var chunks := ReceiveWeightChunks(messages, bucketSize);
    received := MergeWeightChunks(chunks, bucketSize);
  }
}
