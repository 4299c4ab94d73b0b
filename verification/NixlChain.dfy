/** The store-and-forward chain of the NIXL engine: rank 0 fills buckets, every other rank reads a
    bucket from its predecessor, announces it to its successor and hands it to its local consumer.
    Ranks interleave freely, and a remote read copies the source buffer cell by cell. */
module NixlChain {
  import opened WeightChunks
  import opened BucketTransfer
  import opened TransferPlan
  import opened Chains

  /** The message of a readable operation: its notify key, the buffer to read, and the metadata. */
  datatype Note = Note(key: nat, buf: nat, meta: Meta)

  /** A notification: which agent sent it, and the notify key it carries. */
  datatype Ack = Ack(from: nat, key: int)

  /** A remote read in flight: which buffer is read, where it goes, and the cells copied so far. */
  datatype Read = NoRead | Reading(src: nat, dst: nat, key: nat, copied: set<nat>, done: bool)

  /** Where a rank is in `send_weights` (Fill, Drain) or `_receive_weight_chunks` (the others). */
  datatype Stage =
    | Fill(chunks: nat)   // the first `chunks` chunks of the bucket are in the send buffer
    | Drain               // the last bucket is announced
    | FirstMeta           // waiting for the first bucket's metadata
    | FirstRead           // reading the first bucket
    | Offer               // about to announce the bucket it holds
    | NextMeta            // waiting for the next bucket's metadata
    | Yield(chunk: nat)   // handing out views of the bucket it holds
    | AwaitAck            // waiting for the successor's read
    | AwaitRead           // waiting for its own read
    | Done

  /** One rank. `bucket` counts its buffer swaps; `posted` its readable operations (their notify keys);
      `out` is everything its consumer has been handed. */
  datatype Node = Node(
    stage: Stage,
    bucket: nat,
    bufs: seq<Buffer>,
    send: nat,
    meta: Meta,
    next: Meta,
    read: Read,
    posted: nat,
    pending: bool,
    mailbox: seq<Note>,
    acks: seq<Ack>,
    out: seq<Chunk>)

  type State = seq<Node>

  function InitNode(plan: Plan, rank: nat): Node {
    Node(if rank == 0 then Fill(0) else FirstMeta, 0, [Zeros(plan.size), Zeros(plan.size)], 0, NO_META, NO_META, NoRead,
         0, false, [], [], [])
  }

  function Init(plan: Plan): State {
    seq(plan.ranks, rank requires 0 <= rank => InitNode(plan, rank))
  }

  // ---------------------------------------------------------------- steps

  datatype Kind =
    | FillChunk | Post | TakeAck | GetMeta | CopyCell(cell: nat) | CompleteRead | FinishRead | Hand | EndYield

  datatype Action = Action(rank: nat, kind: Kind)

  predicate HasNext(plan: Plan, rank: nat) {
    rank + 1 < plan.ranks
  }

  predicate WellFormed(plan: Plan, n: Node) {
    && |n.bufs| == 2 && |n.bufs[0]| == plan.size && |n.bufs[1]| == plan.size && n.send < 2
    && n.bucket < |plan.buckets|
    && (n.read.Reading? ==> n.read.src < 2 && n.read.dst < 2)
  }

  predicate WellFormedState(plan: Plan, s: State) {
    |s| == plan.ranks && forall r :: 0 <= r < |s| ==> WellFormed(plan, s[r])
  }

  /** The guard of each step at one rank. */
  predicate Ready(plan: Plan, rank: nat, n: Node, kind: Kind)
    requires ValidPlan(plan) && WellFormed(plan, n)
  {
    match kind
    case FillChunk => n.stage.Fill? && n.stage.chunks < |plan.buckets[n.bucket]|
    case Post => n.stage.Offer? || (n.stage.Fill? && n.stage.chunks == |plan.buckets[n.bucket]| && !n.pending)
    case TakeAck =>
      && n.acks != []
      && (n.stage.AwaitAck? || n.stage.Drain? ||
          (n.stage.Fill? && n.stage.chunks == |plan.buckets[n.bucket]| && n.pending))
    case GetMeta => (n.stage.FirstMeta? || n.stage.NextMeta?) && n.mailbox != []
    case CopyCell(k) => 0 < rank && n.read.Reading? && !n.read.done && k < plan.size && k !in n.read.copied
    case CompleteRead =>
      0 < rank && n.read.Reading? && !n.read.done && forall k: nat :: k < plan.size ==> k in n.read.copied
    case FinishRead => (n.stage.FirstRead? || n.stage.AwaitRead?) && n.read.Reading? && n.read.done
    case Hand => n.stage.Yield? && n.stage.chunk < |n.meta.table|
    case EndYield => n.stage.Yield? && n.stage.chunk == |n.meta.table|
  }

  predicate Enabled(plan: Plan, s: State, a: Action)
    requires ValidPlan(plan) && WellFormedState(plan, s)
  {
    a.rank < plan.ranks && Ready(plan, a.rank, s[a.rank], a.kind)
  }

  function FilledChunk(plan: Plan, n: Node): Node
    requires ValidPlan(plan) && WellFormed(plan, n) && n.stage.Fill? && n.stage.chunks < |plan.buckets[n.bucket]|
  {
    var c := plan.buckets[n.bucket][n.stage.chunks];
    n.(bufs := n.bufs[n.send := Write(n.bufs[n.send], c.meta.offset.value, c.bytes)], stage := Fill(n.stage.chunks + 1))
  }

  /** The message announcing the bucket in the send buffer. */
  function Announcement(plan: Plan, n: Node): Note
    requires n.bucket < |plan.buckets|
  {
    Note(n.posted, n.send, if n.stage.Fill? then MetaOf(plan, n.bucket) else n.meta)
  }

  function AfterPost(plan: Plan, rank: nat, n: Node): Node
    requires n.send < 2
  {
    if n.stage.Fill? then
      if n.bucket + 1 == |plan.buckets| then n.(posted := n.posted + 1, pending := true, stage := Drain)
      else n.(posted := n.posted + 1, pending := true, stage := Fill(0), bucket := n.bucket + 1, send := 1 - n.send)
    else
      var n1 := if HasNext(plan, rank) then n.(posted := n.posted + 1, pending := true) else n;
      n1.(stage := if n.meta.last then Yield(0) else NextMeta)
  }

  function AfterAck(n: Node): Node
    requires n.acks != []
  {
    n.(acks := n.acks[1..], pending := false,
       stage := match n.stage
                case Fill(_) => n.stage
                case Drain => Done
                case _ => if n.meta.last then Done else AwaitRead)
  }

  function AfterMeta(n: Node): Node
    requires n.mailbox != [] && n.send < 2
  {
    var note := n.mailbox[0];
    n.(mailbox := n.mailbox[1..], next := note.meta, read := Reading(note.buf, 1 - n.send, note.key, {}, false),
       stage := if n.stage.FirstMeta? then FirstRead else Yield(0))
  }

  function AfterCopy(plan: Plan, prev: Node, n: Node, k: nat): Node
    requires WellFormed(plan, prev) && WellFormed(plan, n) && n.read.Reading? && k < plan.size
  {
    var dst := n.read.dst;
    n.(bufs := n.bufs[dst := n.bufs[dst][k := prev.bufs[n.read.src][k]]],
       read := n.read.(copied := n.read.copied + {k}))
  }

  function AfterFinish(n: Node): Node
    requires n.send < 2
  {
    n.(read := NoRead, send := 1 - n.send, meta := n.next, stage := Offer,
       bucket := if n.stage.FirstRead? then n.bucket else n.bucket + 1)
  }

  function AfterHand(n: Node): Node
    requires n.send < |n.bufs| && n.stage.Yield? && n.stage.chunk < |n.meta.table|
  {
    var meta := n.meta.table[n.stage.chunk];
    n.(out := n.out + [Chunk(meta, Slice(n.bufs[n.send], meta))], stage := Yield(n.stage.chunk + 1))
  }

  function AfterYield(n: Node): Node {
    n.(stage := if n.pending then AwaitAck else if n.meta.last then Done else AwaitRead)
  }

  function Apply(plan: Plan, s: State, a: Action): State
    requires ValidPlan(plan) && WellFormedState(plan, s) && Enabled(plan, s, a)
  {
    var r, n := a.rank, s[a.rank];
    match a.kind
    case FillChunk => s[r := FilledChunk(plan, n)]
    case Post =>
      var s1 := s[r := AfterPost(plan, r, n)];
      if HasNext(plan, r) then s1[r + 1 := s[r + 1].(mailbox := s[r + 1].mailbox + [Announcement(plan, n)])] else s1
    case TakeAck => s[r := AfterAck(n)]
    case GetMeta => s[r := AfterMeta(n)]
    case CopyCell(k) => s[r := AfterCopy(plan, s[r - 1], n, k)]
    case CompleteRead =>
      s[r - 1 := s[r - 1].(acks := s[r - 1].acks + [Ack(r, n.read.key)])][r := n.(read := n.read.(done := true))]
    case FinishRead => s[r := AfterFinish(n)]
    case Hand => s[r := AfterHand(n)]
    case EndYield => s[r := AfterYield(n)]
  }

  predicate Finished(s: State) {
    forall r :: 0 <= r < |s| ==> s[r].stage.Done?
  }

  // ---------------------------------------------------------------- the invariant

  /** Which of its two buffers a rank uses for bucket i. */
  function Slot(rank: nat, i: nat): nat {
    if rank == 0 then i % 2 else (i + 1) % 2
  }

  ghost predicate SenderInv(plan: Plan, n: Node)
    requires ValidPlan(plan)
  {
    && WellFormed(plan, n) && n.read == NoRead && n.send == Slot(0, n.bucket)
    && match n.stage
       case Fill(j) =>
         && n.posted == n.bucket && j <= |plan.buckets[n.bucket]| && (n.pending ==> 0 < n.bucket)
         && n.bufs[n.send] == Overlay(Base(plan, n.bucket), plan.buckets[n.bucket][..j])
         && n.bufs[1 - n.send] == if n.bucket == 0 then Zeros(plan.size) else Img(plan, n.bucket - 1)
       case Drain =>
         && n.bucket + 1 == |plan.buckets| == n.posted && n.pending && n.bufs[n.send] == Img(plan, n.bucket)
       case Done => n.bucket + 1 == |plan.buckets| == n.posted && !n.pending
       case _ => false
  }

  predicate First(n: Node) {
    n.stage.FirstMeta? || n.stage.FirstRead?
  }

  /** The successor has been told about the bucket this rank holds, and has not yet acknowledged it. */
  predicate Announced(n: Node) {
    n.stage.NextMeta? || n.stage.Yield? || n.stage.AwaitAck?
  }

  predicate ReadsNext(n: Node) {
    (n.stage.Yield? || n.stage.AwaitAck? || n.stage.AwaitRead?) && !n.meta.last
  }

  ghost predicate ReadInv(plan: Plan, rank: nat, n: Node, i: nat)
    requires ValidPlan(plan) && WellFormed(plan, n) && 0 < rank
  {
    && i < |plan.buckets| && n.read.Reading? && n.next == MetaOf(plan, i)
    && n.read.src == Slot(rank - 1, i) && n.read.dst == 1 - n.send && n.read.key == i
    && (forall k :: k in n.read.copied ==> k < plan.size && n.bufs[n.read.dst][k] == Img(plan, i)[k])
    && (n.read.done ==> forall k: nat :: k < plan.size ==> k in n.read.copied)
  }

  ghost predicate ReceiverInv(plan: Plan, rank: nat, n: Node)
    requires ValidPlan(plan) && 0 < rank
  {
    && WellFormed(plan, n) && !n.stage.Fill? && !n.stage.Drain?
    && (First(n) ==> n.bucket == 0 && n.send == 0)
    && (!First(n) ==>
          n.send == Slot(rank, n.bucket) && n.meta == MetaOf(plan, n.bucket) && n.bufs[n.send] == Img(plan, n.bucket))
    && (n.stage.NextMeta? || n.stage.AwaitRead? ==> !n.meta.last)
    && (n.stage.Done? ==> n.meta.last)
    && (n.stage.AwaitAck? ==> n.pending)
    && (if n.stage.FirstRead? then ReadInv(plan, rank, n, 0)
        else if ReadsNext(n) then ReadInv(plan, rank, n, n.bucket + 1)
        else n.read == NoRead)
    && (n.pending <==> HasNext(plan, rank) && Announced(n))
    && n.posted == (if !HasNext(plan, rank) then 0 else if First(n) || n.stage.Offer? then n.bucket else n.bucket + 1)
    && (n.stage.Yield? ==> n.stage.chunk <= |plan.buckets[n.bucket]|)
    && n.out == HandedOut(plan, n.bucket,
                          if n.stage.Yield? && n.stage.chunk <= |plan.buckets[n.bucket]| then n.stage.chunk
                          else if n.stage.AwaitAck? || n.stage.AwaitRead? || n.stage.Done? then |plan.buckets[n.bucket]|
                          else 0)
  }

  ghost predicate NodeInv(plan: Plan, rank: nat, n: Node)
    requires ValidPlan(plan)
  {
    if rank == 0 then SenderInv(plan, n) else ReceiverInv(plan, rank, n)
  }

  /** How many announcements the rank has taken from its mailbox. */
  function Gotten(n: Node): nat {
    if n.stage.FirstMeta? then 0
    else if n.stage.FirstRead? then 1
    else if ReadsNext(n) then n.bucket + 2
    else n.bucket + 1
  }

  /** How many remote reads the rank has completed. */
  function Completed(n: Node): int {
    Gotten(n) - if n.read.Reading? && !n.read.done then 1 else 0
  }

  function Acked(n: Node): int {
    n.posted - if n.pending then 1 else 0
  }

  /** A link carries at most one operation: its announcement is in the mailbox, being read, or acknowledged. */
  ghost predicate LinkInv(plan: Plan, rank: nat, a: Node, b: Node)
    requires ValidPlan(plan)
  {
    && Acked(a) <= Completed(b) && Gotten(b) <= a.posted <= |plan.buckets|
    && b.mailbox == (if Gotten(b) < a.posted
                     then [Note(a.posted - 1, Slot(rank, a.posted - 1), MetaOf(plan, a.posted - 1))] else [])
    && a.acks == (if Acked(a) < Completed(b) then [Ack(rank + 1, a.posted - 1)] else [])
  }

  ghost function Nodes(plan: Plan): (nat, Node) -> bool
    requires ValidPlan(plan)
  {
    (rank: nat, n: Node) => NodeInv(plan, rank, n) && (rank == 0 ==> n.mailbox == []) && (rank == plan.ranks - 1 ==> n.acks == [])
  }

  ghost function Links(plan: Plan): (nat, Node, Node) -> bool
    requires ValidPlan(plan)
  {
    (rank: nat, a: Node, b: Node) => LinkInv(plan, rank, a, b)
  }

  ghost predicate Inv(plan: Plan, s: State) {
    ValidPlan(plan) && |s| == plan.ranks && Chained(Nodes(plan), Links(plan), s)
  }
}
