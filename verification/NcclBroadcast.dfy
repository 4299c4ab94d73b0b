/** The NCCL engine's overlap of filling, broadcasting and yielding: one sender, any number of receivers,
    each broadcast running in its own thread and moving data cell by cell. */
module NcclBroadcast {
  import opened Outcomes
  import opened WeightChunks
  import opened BucketPacking
  import opened BucketTransfer
  import opened TransferPlan

  /** The sender's broadcast thread: which bucket it sends, from which buffer, whether the metadata is out,
      and which cells have left for which receiver. */
  datatype Broadcast = NotStarted | Running(index: nat, buf: nat, published: bool, sent: set<(nat, nat)>) | Complete

  datatype SenderStage = Filling(chunks: nat) | Closing | Closed

  datatype Sender = Sender(stage: SenderStage, bucket: nat, bufs: seq<Buffer>, send: nat, op: Broadcast)

  /** A receiver's broadcast thread: where data lands, the metadata once it has arrived, the cells in place. */
  datatype Landing = Shut | Open(dst: nat, meta: Option<Meta>, copied: set<nat>)

  datatype ReceiverStage = Starting | Yielding(chunk: nat) | Waiting | Over

  /** `started` counts the receiver's broadcasts; `wire` holds cells in transit, by bucket and position. */
  datatype Receiver = Receiver(stage: ReceiverStage, bucket: nat, bufs: seq<Buffer>, send: nat, meta: Meta, op: Landing,
                               started: nat, inbox: seq<Meta>, wire: map<(nat, nat), Byte>, out: seq<Chunk>)

  datatype World = World(sender: Sender, receivers: seq<Receiver>)

  function InitWorld(plan: Plan): World {
    var bufs := [Zeros(plan.size), Zeros(plan.size)];
    World(Sender(Filling(0), 0, bufs, 0, NotStarted),
          seq(if plan.ranks == 0 then 0 else plan.ranks - 1,
              _ => Receiver(Starting, 0, bufs, 0, NO_META, Open(1, None, {}), 1, [], map[], [])))
  }

  predicate Bufs(plan: Plan, bufs: seq<Buffer>, send: nat) {
    |bufs| == 2 && |bufs[0]| == plan.size && |bufs[1]| == plan.size && send < 2
  }

  predicate SenderShape(plan: Plan, s: Sender) {
    && Bufs(plan, s.bufs, s.send) && s.bucket < |plan.buckets|
    && (s.op.Running? ==> s.op.buf < 2 && s.op.index < |plan.buckets|)
  }

  predicate ReceiverShape(plan: Plan, r: Receiver) {
    Bufs(plan, r.bufs, r.send) && r.bucket < |plan.buckets| && (r.op.Open? ==> r.op.dst < 2) && 0 < r.started
  }

  predicate Shape(plan: Plan, w: World) {
    && ValidPlan(plan) && |w.receivers| == plan.ranks - 1 && SenderShape(plan, w.sender)
    && forall r :: 0 <= r < |w.receivers| ==> ReceiverShape(plan, w.receivers[r])
  }

  // ---------------------------------------------------------------- steps

  datatype SenderMove = PutChunk | Start | Publish | SendCell(receiver: nat, cell: nat) | Finish | Close

  datatype ReceiverMove = TakeMeta | Land(cell: nat) | Swap | YieldOne | StopYield

  datatype Move = SenderMoves(s: SenderMove) | ReceiverMoves(receiver: nat, r: ReceiverMove)

  predicate SenderCan(plan: Plan, s: Sender, m: SenderMove)
    requires ValidPlan(plan) && SenderShape(plan, s)
  {
    match m
    case PutChunk => s.stage.Filling? && s.stage.chunks < |plan.buckets[s.bucket]|
    case Start => s.stage.Filling? && s.stage.chunks == |plan.buckets[s.bucket]| && !s.op.Running?
    case Publish => s.op.Running? && !s.op.published
    case SendCell(r, k) =>
      s.op.Running? && s.op.published && r < plan.ranks - 1 && k < plan.size && (r, k) !in s.op.sent
    case Finish =>
      && s.op.Running? && s.op.published
      && forall r: nat, k: nat :: r < plan.ranks - 1 && k < plan.size ==> (r, k) in s.op.sent
    case Close => s.stage.Closing? && s.op.Complete?
  }

  function SenderAfter(plan: Plan, s: Sender, m: SenderMove): Sender
    requires ValidPlan(plan) && SenderShape(plan, s) && SenderCan(plan, s, m)
  {
    match m
    case PutChunk =>
      var c := plan.buckets[s.bucket][s.stage.chunks];
      s.(bufs := s.bufs[s.send := Write(s.bufs[s.send], c.meta.offset.value, c.bytes)], stage := Filling(s.stage.chunks + 1))
    case Start =>
      var started := s.(op := Running(s.bucket, s.send, false, {}));
      if s.bucket + 1 == |plan.buckets| then started.(stage := Closing)
      else started.(stage := Filling(0), bucket := s.bucket + 1, send := 1 - s.send)
    case Publish => s.(op := s.op.(published := true))
    case SendCell(r, k) => s.(op := s.op.(sent := s.op.sent + {(r, k)}))
    case Finish => s.(op := Complete)
    case Close => s.(stage := Closed)
  }

  predicate ReceiverCan(plan: Plan, r: Receiver, m: ReceiverMove)
    requires ReceiverShape(plan, r)
  {
    match m
    case TakeMeta => r.op.Open? && r.op.meta.None? && r.inbox != []
    case Land(k) => r.op.Open? && r.op.meta.Some? && k < plan.size && k !in r.op.copied && (r.started - 1, k) in r.wire
    case Swap =>
      && (r.stage.Starting? || r.stage.Waiting?) && r.op.Open? && r.op.meta.Some?
      && forall k: nat :: k < plan.size ==> k in r.op.copied
    case YieldOne => r.stage.Yielding? && r.stage.chunk < |r.meta.table|
    case StopYield => r.stage.Yielding? && r.stage.chunk == |r.meta.table|
  }

  function ReceiverAfter(plan: Plan, r: Receiver, m: ReceiverMove): Receiver
    requires ReceiverShape(plan, r) && ReceiverCan(plan, r, m)
  {
    match m
    case TakeMeta => r.(inbox := r.inbox[1..], op := r.op.(meta := Some(r.inbox[0])))
    case Land(k) =>
      r.(bufs := r.bufs[r.op.dst := r.bufs[r.op.dst][k := r.wire[(r.started - 1, k)]]],
         op := r.op.(copied := r.op.copied + {k}))
    case Swap =>
      var last := r.op.meta.value.last;
      r.(send := 1 - r.send, meta := r.op.meta.value, bucket := if r.stage.Starting? then r.bucket else r.bucket + 1,
         stage := Yielding(0), op := if last then Shut else Open(r.send, None, {}),
         started := if last then r.started else r.started + 1)
    case YieldOne =>
      var meta := r.meta.table[r.stage.chunk];
      r.(out := r.out + [Chunk(meta, Slice(r.bufs[r.send], meta))], stage := Yielding(r.stage.chunk + 1))
    case StopYield => r.(stage := if r.meta.last then Over else Waiting)
  }

  predicate Can(plan: Plan, w: World, m: Move)
    requires Shape(plan, w)
  {
    match m
    case SenderMoves(s) => SenderCan(plan, w.sender, s)
    case ReceiverMoves(r, k) => r < |w.receivers| && ReceiverCan(plan, w.receivers[r], k)
  }

  function Next(plan: Plan, w: World, m: Move): World
    requires Shape(plan, w) && Can(plan, w, m)
  {
    match m
    case ReceiverMoves(r, k) => w.(receivers := w.receivers[r := ReceiverAfter(plan, w.receivers[r], k)])
    case SenderMoves(s) =>
      var sender := SenderAfter(plan, w.sender, s);
      match s
      case Publish =>
        var meta := MetaOf(plan, w.sender.op.index);
        World(sender, seq(|w.receivers|, r requires 0 <= r < |w.receivers| =>
                            w.receivers[r].(inbox := w.receivers[r].inbox + [meta])))
      case SendCell(r, k) =>
        var i, there := w.sender.op.index, w.receivers[r];
        World(sender, w.receivers[r := there.(wire := there.wire[(i, k) := w.sender.bufs[w.sender.op.buf][k]])])
      case _ => w.(sender := sender)
  }

  // ---------------------------------------------------------------- the invariant

  ghost predicate SenderOk(plan: Plan, s: Sender)
    requires ValidPlan(plan)
  {
    && SenderShape(plan, s) && s.send == s.bucket % 2
    && match s.stage
       case Filling(j) =>
         && j <= |plan.buckets[s.bucket]|
         && s.bufs[s.send] == Overlay(Base(plan, s.bucket), plan.buckets[s.bucket][..j])
         && s.bufs[1 - s.send] == (if s.bucket == 0 then Zeros(plan.size) else Img(plan, s.bucket - 1))
         && (s.bucket == 0 <==> s.op.NotStarted?)
         && (s.op.Running? ==> s.op.index == s.bucket - 1 && s.op.buf == 1 - s.send)
       case Closing =>
         && s.bucket + 1 == |plan.buckets| && s.bufs[s.send] == Img(plan, s.bucket) && !s.op.NotStarted?
         && (s.op.Running? ==> s.op.index == s.bucket && s.op.buf == s.send)
       case Closed => s.bucket + 1 == |plan.buckets| && s.op.Complete?
  }

  /** How many buckets' metadata have been published. */
  function PublishedCount(s: Sender): int {
    (if s.stage.Filling? then s.bucket else s.bucket + 1) - if s.op.Running? && !s.op.published then 1 else 0
  }

  function Taken(r: Receiver): int {
    r.started - if r.op.Open? && r.op.meta.None? then 1 else 0
  }

  ghost predicate InboxOk(plan: Plan, r: Receiver, published: int)
    requires ValidPlan(plan)
  {
    && 0 <= Taken(r) <= published <= |plan.buckets| && |r.inbox| == published - Taken(r)
    && forall x :: 0 <= x < |r.inbox| ==> r.inbox[x] == MetaOf(plan, Taken(r) + x)
  }

  ghost predicate WireOk(plan: Plan, r: Receiver)
    requires ValidPlan(plan)
  {
    forall i: nat, k: nat :: (i, k) in r.wire ==> i < |plan.buckets| && k < plan.size && r.wire[(i, k)] == Img(plan, i)[k]
  }

  ghost predicate LandingOk(plan: Plan, r: Receiver, i: nat)
    requires ValidPlan(plan) && ReceiverShape(plan, r)
  {
    && i < |plan.buckets| && r.started == i + 1 && r.op.Open? && r.op.dst == 1 - r.send
    && (r.op.meta.Some? ==> r.op.meta.value == MetaOf(plan, i))
    && forall k :: k in r.op.copied ==> k < plan.size && r.bufs[r.op.dst][k] == Img(plan, i)[k]
  }

  ghost predicate ReceiverOk(plan: Plan, r: Receiver)
    requires ValidPlan(plan)
  {
    && ReceiverShape(plan, r) && WireOk(plan, r)
    && if r.stage.Starting? then r.bucket == 0 && LandingOk(plan, r, 0) && r.out == HandedOut(plan, 0, 0)
       else
         && r.meta == MetaOf(plan, r.bucket) && r.bufs[r.send] == Img(plan, r.bucket)
         && (if r.meta.last then r.op == Shut && r.started == r.bucket + 1 else LandingOk(plan, r, r.bucket + 1))
         && (r.stage.Waiting? ==> !r.meta.last) && (r.stage.Over? ==> r.meta.last)
         && (r.stage.Yielding? ==> r.stage.chunk <= |plan.buckets[r.bucket]|)
         && r.out == HandedOut(plan, r.bucket, if r.stage.Yielding? then r.stage.chunk else |plan.buckets[r.bucket]|)
  }

  ghost predicate Safe(plan: Plan, w: World) {
    && ValidPlan(plan) && |w.receivers| == plan.ranks - 1 && SenderOk(plan, w.sender)
    && forall r {:trigger w.receivers[r]} :: 0 <= r < |w.receivers| ==>
         ReceiverOk(plan, w.receivers[r]) && InboxOk(plan, w.receivers[r], PublishedCount(w.sender))
  }

  lemma SafeInit(plan: Plan)
    requires ValidPlan(plan)
    ensures Safe(plan, InitWorld(plan))
  {
    assert plan.buckets[0][..0] == [];
    assert HandedOut(plan, 0, 0) == [];
  }

  // ---------------------------------------------------------------- every step keeps it

  lemma FillStep(plan: Plan, s: Sender)
    requires ValidPlan(plan) && SenderOk(plan, s) && SenderCan(plan, s, PutChunk)
    ensures SenderOk(plan, SenderAfter(plan, s, PutChunk))
  {
    hide Img, Base, Overlay, Write;
    OverlayNext(Base(plan, s.bucket), plan.buckets[s.bucket], s.stage.chunks);
  }

  lemma StartStep(plan: Plan, s: Sender)
    requires ValidPlan(plan) && SenderOk(plan, s) && SenderCan(plan, s, Start)
    ensures SenderOk(plan, SenderAfter(plan, s, Start))
  {
    hide Img, Base, Overlay;
    var b := plan.buckets[s.bucket];
    ImageIs(plan, s.bucket);
    OverlayEnds(Base(plan, s.bucket), b);
    if s.bucket + 1 < |plan.buckets| {
      ImageIs(plan, s.bucket + 1);
      OverlayEnds(Base(plan, s.bucket + 1), plan.buckets[s.bucket + 1]);
    }
  }

  lemma SenderStep(plan: Plan, s: Sender, m: SenderMove)
    requires ValidPlan(plan) && SenderOk(plan, s) && SenderCan(plan, s, m)
    ensures SenderOk(plan, SenderAfter(plan, s, m))
    ensures PublishedCount(SenderAfter(plan, s, m)) == PublishedCount(s) + if m.Publish? then 1 else 0
  {
    hide Img, Base, Overlay, Write;
    match m
    case PutChunk => FillStep(plan, s);
    case Start => StartStep(plan, s);
    case _ =>
  }

  /** The buffer of a running broadcast holds exactly the bucket being sent. */
  lemma BroadcastHolds(plan: Plan, s: Sender)
    requires ValidPlan(plan) && SenderOk(plan, s) && s.op.Running?
    ensures s.bufs[s.op.buf] == Img(plan, s.op.index)
    ensures PublishedCount(s) == s.op.index + if s.op.published then 1 else 0
  {
  }

  lemma ReceiverStep(plan: Plan, r: Receiver, m: ReceiverMove, published: int)
    requires ValidPlan(plan) && ReceiverOk(plan, r) && InboxOk(plan, r, published) && ReceiverCan(plan, r, m)
    ensures ReceiverOk(plan, ReceiverAfter(plan, r, m)) && InboxOk(plan, ReceiverAfter(plan, r, m), published)
  {
    InboxStep(plan, r, m, published);
    match m
    case TakeMeta => TakeOk(plan, r, published);
    case Land(k) => LandOk(plan, r, k);
    case Swap => SwapOk(plan, r);
    case YieldOne => HandOk(plan, r);
    case StopYield => EndOk(plan, r);
  }

  lemma InboxStep(plan: Plan, r: Receiver, m: ReceiverMove, published: int)
    requires ValidPlan(plan) && ReceiverOk(plan, r) && InboxOk(plan, r, published) && ReceiverCan(plan, r, m)
    ensures InboxOk(plan, ReceiverAfter(plan, r, m), published)
  {
    hide WireOk, HandedOut, Img, MetaOf, Slice;
  }

  lemma TakeOk(plan: Plan, r: Receiver, published: int)
    requires ValidPlan(plan) && ReceiverOk(plan, r) && InboxOk(plan, r, published) && ReceiverCan(plan, r, TakeMeta)
    ensures ReceiverOk(plan, ReceiverAfter(plan, r, TakeMeta))
  {
    hide WireOk, HandedOut, Img;
    WireFrame(plan, r, ReceiverAfter(plan, r, TakeMeta));
  }

  lemma WireFrame(plan: Plan, r: Receiver, r': Receiver)
    requires ValidPlan(plan) && WireOk(plan, r) && r'.wire == r.wire
    ensures WireOk(plan, r')
  {
  }

  lemma LandOk(plan: Plan, r: Receiver, k: nat)
    requires ValidPlan(plan) && ReceiverOk(plan, r) && ReceiverCan(plan, r, Land(k))
    ensures ReceiverOk(plan, ReceiverAfter(plan, r, Land(k)))
  {
    hide WireOk, HandedOut, MetaOf, Img;
    WireAt(plan, r, r.started - 1, k);
    WireFrame(plan, r, ReceiverAfter(plan, r, Land(k)));
  }

  lemma WireAt(plan: Plan, r: Receiver, i: nat, k: nat)
    requires ValidPlan(plan) && WireOk(plan, r) && (i, k) in r.wire
    ensures i < |plan.buckets| && |Img(plan, i)| == plan.size && k < plan.size && r.wire[(i, k)] == Img(plan, i)[k]
  {
  }

  lemma HandOk(plan: Plan, r: Receiver)
    requires ValidPlan(plan) && ReceiverOk(plan, r) && ReceiverCan(plan, r, YieldOne)
    ensures ReceiverOk(plan, ReceiverAfter(plan, r, YieldOne))
  {
    var all := Unpack(Img(plan, r.bucket), Metas(plan.buckets[r.bucket]));
    var j := r.stage.chunk;
    assert all[..j + 1] == all[..j] + [all[j]];
    assert HandedOut(plan, r.bucket, j + 1) == HandedOut(plan, r.bucket, j) + [all[j]];
    WireFrame(plan, r, ReceiverAfter(plan, r, YieldOne));
    hide WireOk;
  }

  lemma EndOk(plan: Plan, r: Receiver)
    requires ValidPlan(plan) && ReceiverOk(plan, r) && ReceiverCan(plan, r, StopYield)
    ensures ReceiverOk(plan, ReceiverAfter(plan, r, StopYield))
  {
    WireFrame(plan, r, ReceiverAfter(plan, r, StopYield));
    hide WireOk, HandedOut, Img;
  }

  lemma SwapOk(plan: Plan, r: Receiver)
    requires ValidPlan(plan) && ReceiverOk(plan, r) && ReceiverCan(plan, r, Swap)
    ensures ReceiverOk(plan, ReceiverAfter(plan, r, Swap))
  {
    hide HandedOut, Img, MetaOf, WireOk;
    var i := if r.stage.Starting? then 0 else r.bucket + 1;
    LandedAll(plan, r, i);
    if r.stage.Waiting? {
      HandedAll(plan, r.bucket);
    }
    WireFrame(plan, r, ReceiverAfter(plan, r, Swap));
    MarkedLast(plan, i);
  }

  lemma LandedAll(plan: Plan, r: Receiver, i: nat)
    requires ValidPlan(plan) && ReceiverShape(plan, r) && LandingOk(plan, r, i)
    requires forall k: nat :: k < plan.size ==> k in r.op.copied
    ensures r.bufs[r.op.dst] == Img(plan, i)
  {
    hide MetaOf;
    ImageIs(plan, i);
    hide Img, Base, Overlay;
  }

  lemma MarkedLast(plan: Plan, i: nat)
    requires ValidPlan(plan) && i < |plan.buckets|
    ensures MetaOf(plan, i).last <==> i + 1 == |plan.buckets|
  {
  }

  /** Any step of any thread, in any order, keeps the invariant. */
  lemma StepSafe(plan: Plan, w: World, m: Move)
    requires Safe(plan, w) && Shape(plan, w) && Can(plan, w, m)
    ensures Safe(plan, Next(plan, w, m))
  {
    match m
    case ReceiverMoves(r, k) =>
      hide SenderOk, ReceiverOk, InboxOk;
      ReceiverStep(plan, w.receivers[r], k, PublishedCount(w.sender));
    case SenderMoves(s) =>
      SenderStep(plan, w.sender, s);
      SenderMoveSafe(plan, w, s);
  }

  lemma SenderMoveSafe(plan: Plan, w: World, s: SenderMove)
    requires Safe(plan, w) && Shape(plan, w) && SenderCan(plan, w.sender, s)
    requires SenderOk(plan, SenderAfter(plan, w.sender, s))
    requires PublishedCount(SenderAfter(plan, w.sender, s)) == PublishedCount(w.sender) + if s.Publish? then 1 else 0
    ensures Safe(plan, Next(plan, w, SenderMoves(s)))
  {
    hide SenderOk, ReceiverOk, InboxOk, MetaOf, Img;
    var w' := Next(plan, w, SenderMoves(s));
    if s.Publish? || s.SendCell? { BroadcastHolds(plan, w.sender); }
    match s
    case Publish =>
      forall r | 0 <= r < |w'.receivers|
        ensures ReceiverOk(plan, w'.receivers[r]) && InboxOk(plan, w'.receivers[r], PublishedCount(w'.sender))
      {
        Delivered(plan, w.receivers[r], PublishedCount(w.sender));
      }
    case SendCell(r, k) =>
      Wired(plan, w.receivers[r], PublishedCount(w.sender), w.sender.op.index, k);
    case _ =>
  }

  lemma Delivered(plan: Plan, r: Receiver, published: int)
    requires ValidPlan(plan) && ReceiverOk(plan, r) && InboxOk(plan, r, published) && published < |plan.buckets|
    ensures var r' := r.(inbox := r.inbox + [MetaOf(plan, published)]);
            ReceiverOk(plan, r') && InboxOk(plan, r', published + 1)
  {
    hide HandedOut, Img, MetaOf, WireOk;
    WireFrame(plan, r, r.(inbox := r.inbox + [MetaOf(plan, published)]));
  }

  lemma Wired(plan: Plan, r: Receiver, published: int, i: nat, k: nat)
    requires ValidPlan(plan) && ReceiverOk(plan, r) && InboxOk(plan, r, published)
    requires i < |plan.buckets| && k < plan.size
    ensures var r' := r.(wire := r.wire[(i, k) := Img(plan, i)[k]]); ReceiverOk(plan, r') && InboxOk(plan, r', published)
  {
    hide HandedOut, MetaOf;
    ImgSize(plan, i);
    hide Img;
  }

  // ---------------------------------------------------------------- what it means

  ghost predicate IsHistory(plan: Plan, w: World, moves: seq<Move>)
    decreases |moves|
  {
    moves == [] || (Shape(plan, w) && Can(plan, w, moves[0]) && IsHistory(plan, Next(plan, w, moves[0]), moves[1..]))
  }

  ghost function Reached(plan: Plan, w: World, moves: seq<Move>): World
    requires IsHistory(plan, w, moves)
    decreases |moves|
  {
    if moves == [] then w else Reached(plan, Next(plan, w, moves[0]), moves[1..])
  }

  lemma {:induction false} HistorySafe(plan: Plan, w: World, moves: seq<Move>)
    requires Safe(plan, w) && IsHistory(plan, w, moves)
    ensures Safe(plan, Reached(plan, w, moves))
    decreases |moves|
  {
    if moves != [] {
      StepSafe(plan, w, moves[0]);
      HistorySafe(plan, Next(plan, w, moves[0]), moves[1..]);
    }
  }

  /** In every interleaving: while the sender fills a buffer, a running broadcast reads from the other one, and
      that one holds exactly the bucket being broadcast. */
  lemma FillingAvoidsBroadcast(plan: Plan, moves: seq<Move>)
    requires GoodPlan(plan) && IsHistory(plan, InitWorld(plan), moves)
    ensures var s := Reached(plan, InitWorld(plan), moves).sender;
            s.stage.Filling? && s.op.Running? ==>
              && s.op.index < |plan.buckets| && |s.bufs| == 2 && s.op.buf < 2
              && s.send != s.op.buf && s.bufs[s.op.buf] == Img(plan, s.op.index)
  {
    hide ReceiverOk, InboxOk, IsHistory, Reached, Img, Base, Overlay;
    SafeInit(plan);
    HistorySafe(plan, InitWorld(plan), moves);
    var s := Reached(plan, InitWorld(plan), moves).sender;
    if s.op.Running? { BroadcastHolds(plan, s); }
  }

  /** In every interleaving: a broadcast that is landing at a receiver never targets the buffer whose views the
      receiver is yielding, and that buffer holds exactly the sender's bucket. */
  lemma LandingAvoidsViews(plan: Plan, moves: seq<Move>, r: nat)
    requires GoodPlan(plan) && IsHistory(plan, InitWorld(plan), moves) && r < plan.ranks - 1
    ensures var w := Reached(plan, InitWorld(plan), moves);
            && r < |w.receivers|
            && (w.receivers[r].stage.Yielding? ==>
                  var here := w.receivers[r];
                  && here.bucket < |plan.buckets| && here.send < |here.bufs|
                  && (here.op.Open? ==> here.op.dst != here.send) && here.bufs[here.send] == Img(plan, here.bucket))
  {
    hide SenderOk, InboxOk, IsHistory, Reached, HandedOut, WireOk;
    SafeInit(plan);
    HistorySafe(plan, InitWorld(plan), moves);
    assert ReceiverOk(plan, Reached(plan, InitWorld(plan), moves).receivers[r]);
  }

  /** The sender goes on filling as soon as a broadcast has started. */
  lemma FillingOverlaps(plan: Plan, w: World)
    requires Safe(plan, w) && Shape(plan, w) && Can(plan, w, SenderMoves(Start))
    requires w.sender.bucket + 1 < |plan.buckets| && plan.buckets[w.sender.bucket + 1] != []
    ensures var w' := Next(plan, w, SenderMoves(Start));
            w'.sender.op.Running? && Shape(plan, w') && Can(plan, w', SenderMoves(PutChunk))
  {
    hide ReceiverOk, InboxOk, Img, Base, Overlay;
  }

  /** A receiver yields views while its next broadcast, already begun, can land. */
  lemma YieldingOverlaps(plan: Plan, w: World, r: nat)
    requires Safe(plan, w) && Shape(plan, w) && r < |w.receivers| && Can(plan, w, ReceiverMoves(r, Swap))
    ensures var w' := Next(plan, w, ReceiverMoves(r, Swap));
            var here := w'.receivers[r];
            && Shape(plan, w') && here.stage.Yielding? && (here.op.Open? <==> !here.meta.last)
            && (here.meta.table != [] ==> Can(plan, w', ReceiverMoves(r, YieldOne)))
  {
    hide SenderOk, InboxOk, Img, HandedOut, WireOk;
    assert ReceiverOk(plan, w.receivers[r]);
  }

  /** In every interleaving every receiver has yielded a prefix of the sender's stream, and all of it when over. */
  lemma BroadcastDelivers(plan: Plan, moves: seq<Move>, r: nat)
    requires GoodPlan(plan) && IsHistory(plan, InitWorld(plan), moves) && r < plan.ranks - 1
    ensures Safe(plan, Reached(plan, InitWorld(plan), moves))
    ensures var here := Reached(plan, InitWorld(plan), moves).receivers[r];
            here.out <= Flatten(plan.buckets) && (here.stage.Over? ==> here.out == Flatten(plan.buckets))
  {
    SafeInit(plan);
    HistorySafe(plan, InitWorld(plan), moves);
    var here := Reached(plan, InitWorld(plan), moves).receivers[r];
    assert ReceiverOk(plan, here);
    OutOf(plan, here);
  }

  lemma OutOf(plan: Plan, r: Receiver)
    requires GoodPlan(plan) && ReceiverOk(plan, r)
    ensures r.out <= Flatten(plan.buckets) && (r.stage.Over? ==> r.out == Flatten(plan.buckets))
  {
    hide HandedOut, Flatten, GoodBucket, Received, Img, WireOk, LandingOk;
    var j :| 0 <= j <= |plan.buckets[r.bucket]| && r.out == HandedOut(plan, r.bucket, j);
    ReceivedPrefix(plan, r.bucket, j, |plan.buckets|);
    ReceivedIsSent(plan.buckets, plan.size, |plan.buckets|);
    assert plan.buckets[..|plan.buckets|] == plan.buckets;
    HandedWhole(plan);
  }
}
