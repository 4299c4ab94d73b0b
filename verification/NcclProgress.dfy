/** The broadcasts never deadlock and always end, also over a transport that moves a cell only when sender and
    receiver are both at it. */
module NcclProgress {
  import opened Outcomes
  import opened IntMath
  import opened WeightChunks
  import opened BucketPacking
  import opened BucketTransfer
  import opened TransferPlan
  import opened NcclBroadcast

  // ---------------------------------------------------------------- what is in transit

  /** How many broadcasts the sender has completed. */
  function Sent(s: Sender): int {
    match s.op
    case NotStarted => 0
    case Running(i, _, _, _) => i
    case Complete => if s.stage.Filling? then s.bucket else s.bucket + 1
  }

  /** How many buckets a receiver has received completely. */
  function Passed(r: Receiver): int {
    if r.op.Open? then r.started - 1 else r.started
  }

  ghost predicate OnWire(plan: Plan, s: Sender, rank: nat, i: nat, k: nat) {
    k < plan.size && (i < Sent(s) || (s.op.Running? && i == s.op.index && (rank, k) in s.op.sent))
  }

  /** Exactly what was sent has arrived, and nothing was received that was not sent. */
  ghost predicate Carried(plan: Plan, s: Sender, rank: nat, r: Receiver) {
    && (forall i: nat, k: nat :: (i, k) in r.wire <==> OnWire(plan, s, rank, i, k))
    && (forall i: nat, k: nat :: i < Passed(r) && k < plan.size ==> (i, k) in r.wire)
    && (r.op.Open? && 0 < r.started ==> forall k :: k in r.op.copied ==> (r.started - 1, k) in r.wire)
  }

  /** All cells of bucket i have arrived. */
  ghost predicate AllThere(plan: Plan, r: Receiver, i: nat) {
    forall k: nat :: k < plan.size ==> (i, k) in r.wire
  }

  ghost predicate SentOk(plan: Plan, s: Sender) {
    s.op.Running? ==> forall p :: p in s.op.sent ==> p.0 < plan.ranks - 1 && p.1 < plan.size
  }

  ghost predicate Live(plan: Plan, w: World) {
    && Safe(plan, w) && SentOk(plan, w.sender)
    && forall r :: 0 <= r < |w.receivers| ==> Carried(plan, w.sender, r, w.receivers[r])
  }

  lemma LiveInit(plan: Plan)
    requires ValidPlan(plan)
    ensures Live(plan, InitWorld(plan))
  {
    SafeInit(plan);
    hide Safe, ValidPlan;
  }

  lemma ShapeOf(plan: Plan, w: World)
    requires Safe(plan, w)
    ensures Shape(plan, w)
  {
    hide HandedOut, Img, WireOk, LandingOk, Overlay;
    forall r | 0 <= r < |w.receivers| ensures ReceiverShape(plan, w.receivers[r]) {
      assert ReceiverOk(plan, w.receivers[r]);
    }
  }

  lemma ReceiverCarries(plan: Plan, s: Sender, rank: nat, r: Receiver, m: ReceiverMove)
    requires ReceiverShape(plan, r) && Carried(plan, s, rank, r) && ReceiverCan(plan, r, m)
    ensures Carried(plan, s, rank, ReceiverAfter(plan, r, m))
  {
    hide OnWire;
    if m.Swap? {
      var r' := ReceiverAfter(plan, r, m);
      forall i: nat, k: nat | i < Passed(r') && k < plan.size ensures (i, k) in r'.wire {
        assert k in r.op.copied;
      }
    }
  }

  /** Only sending a cell, and only to its receiver, changes what is in transit. */
  lemma SenderKeepsWire(plan: Plan, s: Sender, m: SenderMove, rank: nat, i: nat, k: nat)
    requires ValidPlan(plan) && SenderOk(plan, s) && SenderCan(plan, s, m) && rank < plan.ranks - 1
    ensures OnWire(plan, SenderAfter(plan, s, m), rank, i, k) <==>
              OnWire(plan, s, rank, i, k) || (m == SendCell(rank, k) && i == s.op.index)
  {
    hide Overlay, Img, Base, Write;
  }

  lemma SenderCarries(plan: Plan, s: Sender, m: SenderMove, rank: nat, r: Receiver, r': Receiver)
    requires ValidPlan(plan) && SenderOk(plan, s) && SenderCan(plan, s, m) && rank < plan.ranks - 1
    requires SenderShape(plan, s) && Carried(plan, s, rank, r) && r' == r.(inbox := r'.inbox, wire := r'.wire)
    requires forall i: nat, k: nat ::
               (i, k) in r'.wire <==> (i, k) in r.wire || (m == SendCell(rank, k) && i == s.op.index)
    ensures Carried(plan, SenderAfter(plan, s, m), rank, r')
  {
    hide OnWire, SenderOk, SenderCan, SenderAfter;
    forall i: nat, k: nat ensures (i, k) in r'.wire <==> OnWire(plan, SenderAfter(plan, s, m), rank, i, k) {
      SenderKeepsWire(plan, s, m, rank, i, k);
    }
  }

  lemma SentKept(plan: Plan, s: Sender, m: SenderMove)
    requires ValidPlan(plan) && SenderOk(plan, s) && SentOk(plan, s) && SenderCan(plan, s, m)
    ensures SentOk(plan, SenderAfter(plan, s, m))
  {
    hide Overlay, Img, Base, Write;
  }

  /** What a sender's step does to a receiver. */
  lemma SenderTouches(plan: Plan, w: World, m: SenderMove, r: nat)
    requires Shape(plan, w) && SenderCan(plan, w.sender, m) && r < |w.receivers|
    ensures var w' := Next(plan, w, SenderMoves(m));
            && w'.sender == SenderAfter(plan, w.sender, m) && |w'.receivers| == |w.receivers|
            && w'.receivers[r] == w.receivers[r].(inbox := w'.receivers[r].inbox, wire := w'.receivers[r].wire)
            && forall i: nat, k: nat ::
                 (i, k) in w'.receivers[r].wire <==>
                   (i, k) in w.receivers[r].wire || (m == SendCell(r, k) && i == w.sender.op.index)
  {
    hide SenderAfter, MetaOf;
  }

  lemma LiveStep(plan: Plan, w: World, m: Move)
    requires Live(plan, w) && Shape(plan, w) && Can(plan, w, m)
    ensures Live(plan, Next(plan, w, m))
  {
    hide Safe, Carried, SentOk, SenderOk;
    StepSafe(plan, w, m);
    match m
    case ReceiverMoves(r, k) => ReceiverCarries(plan, w.sender, r, w.receivers[r], k);
    case SenderMoves(k) =>
      SenderIsOk(plan, w);
      SentKept(plan, w.sender, k);
      var w' := Next(plan, w, m);
      forall r | 0 <= r < |w'.receivers| ensures Carried(plan, w'.sender, r, w'.receivers[r]) {
        SenderTouches(plan, w, k, r);
        SenderCarries(plan, w.sender, k, r, w.receivers[r], w'.receivers[r]);
      }
  }

  lemma SenderIsOk(plan: Plan, w: World)
    requires Safe(plan, w)
    ensures ValidPlan(plan) && |w.receivers| == plan.ranks - 1 && SenderOk(plan, w.sender)
  {
  }

  lemma ReceiverIsOk(plan: Plan, w: World, r: nat)
    requires Safe(plan, w) && r < |w.receivers|
    ensures ValidPlan(plan) && ReceiverOk(plan, w.receivers[r]) && ReceiverShape(plan, w.receivers[r])
    ensures InboxOk(plan, w.receivers[r], PublishedCount(w.sender))
  {
    hide SenderOk, InboxOk;
  }

  // ---------------------------------------------------------------- no deadlock

  predicate AllOver(w: World) {
    w.sender.stage.Closed? && forall r :: 0 <= r < |w.receivers| ==> w.receivers[r].stage.Over?
  }

  /** A cell moves while its receiver waits for it, so no transport need store it in between. */
  predicate Together(w: World, m: Move) {
    m.SenderMoves? && m.s.SendCell? && w.sender.op.Running? ==>
      && m.s.receiver < |w.receivers|
      && w.receivers[m.s.receiver].op.Open? && w.receivers[m.s.receiver].op.meta.Some?
      && w.receivers[m.s.receiver].started - 1 == w.sender.op.index
  }

  /** A receiver that has its metadata and its cells can step. */
  lemma ReceiverCanStep(plan: Plan, r: Receiver, published: int) returns (m: ReceiverMove)
    requires ValidPlan(plan) && ReceiverShape(plan, r) && ReceiverOk(plan, r) && InboxOk(plan, r, published) && !r.stage.Over?
    requires r.op.Open? && r.op.meta.None? ==> r.started - 1 < published
    requires r.op.Open? && r.op.meta.Some? ==> AllThere(plan, r, r.started - 1)
    ensures ReceiverCan(plan, r, m)
  {
    hide WireOk, HandedOut, Img;
    if r.op.Open? && r.op.meta.None? {
      m := TakeMeta;
    } else if k: nat :| r.op.Open? && k < plan.size && k !in r.op.copied {
      m := Land(k);
    } else if r.stage.Starting? || r.stage.Waiting? {
      m := Swap;
    } else if r.stage.chunk < |r.meta.table| {
      m := YieldOne;
    } else {
      TableLength(plan, r.bucket);
      m := StopYield;
    }
  }

  /** A receiver that lacks a cell of the running broadcast has not passed that broadcast. */
  lemma NotPassed(plan: Plan, s: Sender, rank: nat, r: Receiver, k: nat)
    requires ValidPlan(plan) && ReceiverShape(plan, r) && ReceiverOk(plan, r) && Carried(plan, s, rank, r)
    requires s.op.Running? && s.op.index < |plan.buckets| && k < plan.size && (rank, k) !in s.op.sent
    ensures r.op.Open? && r.started - 1 <= s.op.index
  {
    hide WireOk, HandedOut, Img, LandingOk;
    assert !OnWire(plan, s, rank, s.op.index, k);
    if !r.op.Open? {
      ShutIsLast(plan, r);
    }
  }

  lemma ShutIsLast(plan: Plan, r: Receiver)
    requires ValidPlan(plan) && ReceiverOk(plan, r) && !r.op.Open?
    ensures r.started == |plan.buckets|
  {
    hide WireOk, HandedOut, Img;
  }

  lemma OpenIsEarly(plan: Plan, r: Receiver)
    requires ValidPlan(plan) && ReceiverOk(plan, r) && r.op.Open?
    ensures r.started <= |plan.buckets|
  {
    hide WireOk, HandedOut, Img;
  }

  /** Everything of a completed broadcast is in transit or in place. */
  lemma CompleteIsThere(plan: Plan, s: Sender, rank: nat, r: Receiver, i: nat)
    requires Carried(plan, s, rank, r) && i < Sent(s)
    ensures AllThere(plan, r, i)
  {
    forall k: nat | k < plan.size ensures (i, k) in r.wire {
      assert OnWire(plan, s, rank, i, k);
    }
  }

  /** While a broadcast lacks a cell, that cell can move or its receiver can step. */
  lemma MissingCellMoves(plan: Plan, w: World, r: nat, k: nat) returns (m: Move)
    requires Live(plan, w) && Shape(plan, w) && r < |w.receivers| && k < plan.size
    requires w.sender.op.Running? && w.sender.op.published && (r, k) !in w.sender.op.sent
    ensures Can(plan, w, m) && Together(w, m)
  {
    hide Safe, SenderOk, ReceiverOk, InboxOk, Carried;
    var s, here := w.sender, w.receivers[r];
    SenderIsOk(plan, w);
    ReceiverIsOk(plan, w, r);
    assert Carried(plan, s, r, here);
    RunningCounts(plan, s);
    NotPassed(plan, s, r, here, k);
    if here.started - 1 == s.op.index && here.op.meta.Some? {
      m := SenderMoves(SendCell(r, k));
    } else {
      if here.started - 1 < s.op.index {
        CompleteIsThere(plan, s, r, here, here.started - 1);
      }
      OpenIsNotOver(plan, here);
      var n := ReceiverCanStep(plan, here, PublishedCount(s));
      m := ReceiverMoves(r, n);
    }
  }

  lemma OpenIsNotOver(plan: Plan, r: Receiver)
    requires ValidPlan(plan) && ReceiverOk(plan, r) && r.op.Open?
    ensures !r.stage.Over?
  {
    hide WireOk, HandedOut, Img, MetaOf;
  }

  lemma RunningCounts(plan: Plan, s: Sender)
    requires ValidPlan(plan) && SenderOk(plan, s) && s.op.Running?
    ensures s.op.index < |plan.buckets| && Sent(s) == s.op.index
    ensures PublishedCount(s) == s.op.index + if s.op.published then 1 else 0
  {
    hide Overlay, Img, Base;
  }

  /** A sender that is not done can step, or waits for a cell of its running broadcast. */
  lemma SenderCanStep(plan: Plan, s: Sender) returns (m: SenderMove)
    requires ValidPlan(plan) && SenderShape(plan, s) && SenderOk(plan, s) && !s.stage.Closed?
    requires s.op.Running? && s.op.published ==>
               forall r: nat, k: nat :: r < plan.ranks - 1 && k < plan.size ==> (r, k) in s.op.sent
    ensures SenderCan(plan, s, m) && !m.SendCell?
  {
    hide Overlay, Img, Base;
    if s.op.Running? && !s.op.published {
      m := Publish;
    } else if s.op.Running? {
      m := Finish;
    } else if s.stage.Closing? {
      m := Close;
    } else if s.stage.chunks < |plan.buckets[s.bucket]| {
      m := PutChunk;
    } else {
      m := Start;
    }
  }

  lemma ClosedCounts(plan: Plan, s: Sender)
    requires ValidPlan(plan) && SenderOk(plan, s) && s.stage.Closed?
    ensures Sent(s) == PublishedCount(s) == |plan.buckets|
  {
  }

  lemma ReceiverFinishes(plan: Plan, w: World, r: nat) returns (m: Move)
    requires Live(plan, w) && Shape(plan, w) && r < |w.receivers| && w.sender.stage.Closed? && !w.receivers[r].stage.Over?
    ensures Can(plan, w, m) && Together(w, m)
  {
    hide Safe, SenderOk, ReceiverOk, InboxOk, Carried;
    var s, here := w.sender, w.receivers[r];
    SenderIsOk(plan, w);
    ReceiverIsOk(plan, w, r);
    assert Carried(plan, s, r, here);
    ClosedCounts(plan, s);
    if here.op.Open? {
      OpenIsEarly(plan, here);
      CompleteIsThere(plan, s, r, here, here.started - 1);
    }
    var n := ReceiverCanStep(plan, here, PublishedCount(s));
    m := ReceiverMoves(r, n);
  }

  /** No deadlock: unless the sender is closed and every receiver is over, some step is possible, and it needs no
      storage in the transport. */
  lemma SomeoneSteps(plan: Plan, w: World) returns (m: Move)
    requires Live(plan, w) && Shape(plan, w) && !AllOver(w)
    ensures Can(plan, w, m) && Together(w, m)
  {
    hide Safe, SenderOk, Carried;
    SenderIsOk(plan, w);
    var s := w.sender;
    if s.stage.Closed? {
      var r :| 0 <= r < |w.receivers| && !w.receivers[r].stage.Over?;
      m := ReceiverFinishes(plan, w, r);
    } else if r: nat, k: nat :|
        s.op.Running? && s.op.published && r < plan.ranks - 1 && k < plan.size && (r, k) !in s.op.sent {
      m := MissingCellMoves(plan, w, r, k);
    } else {
      var n := SenderCanStep(plan, s);
      m := SenderMoves(n);
    }
  }

  // ---------------------------------------------------------------- every run ends

  /** Upper bounds on the steps spent on one bucket: filling, broadcasting, landing and yielding it. */
  function FillSteps(plan: Plan): nat { MaxChunks(plan.buckets) + 1 }

  function CastSteps(plan: Plan): nat { 3 + if plan.ranks == 0 then 0 else Mul(plan.ranks - 1, plan.size) }

  function LandSteps(plan: Plan): nat { plan.size + 2 }

  function YieldSteps(plan: Plan): nat { MaxChunks(plan.buckets) + 3 }

  /** How much the sender's two threads have done. */
  function FillWork(plan: Plan, s: Sender): nat {
    match s.stage
    case Filling(j) => Mul(s.bucket, FillSteps(plan)) + j
    case Closing => Mul(|plan.buckets|, FillSteps(plan))
    case Closed => Mul(|plan.buckets|, FillSteps(plan)) + 1
  }

  function CastWork(plan: Plan, s: Sender): nat {
    match s.op
    case NotStarted => 0
    case Running(i, _, published, sent) => Mul(i, CastSteps(plan)) + 1 + (if published then 1 else 0) + |sent|
    case Complete => Mul(Sent(s), CastSteps(plan))
  }

  /** How much a receiver's two threads have done. */
  function LandWork(plan: Plan, r: Receiver): nat
    requires 0 < r.started
  {
    match r.op
    case Shut => Mul(r.started, LandSteps(plan))
    case Open(_, meta, copied) => Mul(r.started - 1, LandSteps(plan)) + (if meta.Some? then 1 else 0) + |copied|
  }

  function YieldWork(plan: Plan, r: Receiver): nat {
    match r.stage
    case Starting => 0
    case Yielding(j) => Mul(r.bucket, YieldSteps(plan)) + 1 + j
    case _ => Mul(r.bucket, YieldSteps(plan)) + 2 + |r.meta.table|
  }

  function SenderBound(plan: Plan): nat {
    Mul(|plan.buckets|, FillSteps(plan)) + 1 + Mul(|plan.buckets|, CastSteps(plan))
  }

  function ReceiverBound(plan: Plan): nat {
    Mul(|plan.buckets|, LandSteps(plan)) + Mul(|plan.buckets|, YieldSteps(plan))
  }

  lemma MulAhead(i: nat, j: nat, k: nat)
    requires i < j
    ensures Mul(i + 1, k) == Mul(i, k) + k && Mul(i + 1, k) <= Mul(j, k)
  {
    hide Mul;
    MulNext(i, k);
    MulMonotone(i + 1, j, k);
  }

  lemma {:induction false} Pairs(s: set<(nat, nat)>, a: nat, b: nat)
    requires forall p :: p in s ==> p.0 < a && p.1 < b
    ensures |s| <= Mul(a, b)
    decreases a
  {
    if a == 0 {
      assert s == {};
    } else {
      var row := set p | p in s && p.0 == a - 1;
      var rest := s - row;
      Pairs(rest, a - 1, b);
      PairRow(row, a - 1, b);
      MulNext(a - 1, b);
      assert s == rest + row && rest !! row;
    }
  }

  lemma {:induction false} PairRow(row: set<(nat, nat)>, a: nat, b: nat)
    requires forall p :: p in row ==> p.0 == a && p.1 < b
    ensures |row| <= b
    decreases b
  {
    if b == 0 {
      assert row == {};
    } else {
      PairRow(row - {(a, b - 1)}, a, b - 1);
      if (a, b - 1) in row { assert |row| == |row - {(a, b - 1)}| + 1; } else { assert row - {(a, b - 1)} == row; }
    }
  }

  lemma FillBound(plan: Plan, s: Sender)
    requires ValidPlan(plan) && SenderOk(plan, s)
    ensures FillWork(plan, s) <= Mul(|plan.buckets|, FillSteps(plan)) + 1
    ensures s.stage.Filling? ==> s.stage.chunks < FillSteps(plan)
  {
    hide Mul, Overlay, Img, Base, MaxChunks;
    MaxChunksBounds(plan.buckets, s.bucket);
    MulAhead(s.bucket, |plan.buckets|, FillSteps(plan));
  }

  lemma CastBound(plan: Plan, s: Sender)
    requires ValidPlan(plan) && SenderOk(plan, s) && SentOk(plan, s)
    ensures CastWork(plan, s) <= Mul(|plan.buckets|, CastSteps(plan))
    ensures s.op.Running? ==> |s.op.sent| + 3 <= CastSteps(plan)
  {
    hide Mul, Overlay, Img, Base;
    match s.op
    case NotStarted =>
    case Running(i, _, _, sent) =>
      Pairs(sent, plan.ranks - 1, plan.size);
      MulAhead(i, |plan.buckets|, CastSteps(plan));
    case Complete => MulMonotone(Sent(s), |plan.buckets|, CastSteps(plan));
  }

  lemma LandBound(plan: Plan, r: Receiver)
    requires ValidPlan(plan) && ReceiverShape(plan, r) && ReceiverOk(plan, r)
    ensures LandWork(plan, r) <= Mul(|plan.buckets|, LandSteps(plan))
    ensures r.op.Open? ==> |r.op.copied| <= plan.size
  {
    hide Mul, WireOk, HandedOut, Img;
    if r.op.Open? {
      OpenIsEarly(plan, r);
      Cells(r.op.copied, plan.size);
      MulAhead(r.started - 1, |plan.buckets|, LandSteps(plan));
    } else {
      ShutIsLast(plan, r);
    }
  }

  lemma YieldBound(plan: Plan, r: Receiver)
    requires ValidPlan(plan) && ReceiverShape(plan, r) && ReceiverOk(plan, r)
    ensures YieldWork(plan, r) <= Mul(|plan.buckets|, YieldSteps(plan))
    ensures !r.stage.Starting? ==> |r.meta.table| <= MaxChunks(plan.buckets)
    ensures r.stage.Yielding? ==> r.stage.chunk <= |r.meta.table|
  {
    hide Mul, WireOk, HandedOut, Img, LandingOk, MaxChunks, MetaOf;
    MaxChunksBounds(plan.buckets, r.bucket);
    TableLength(plan, r.bucket);
    MulAhead(r.bucket, |plan.buckets|, YieldSteps(plan));
  }

  function SenderWork(plan: Plan, s: Sender): nat { FillWork(plan, s) + CastWork(plan, s) }

  function ReceiverWork(plan: Plan, r: Receiver): nat
    requires 0 < r.started
  {
    LandWork(plan, r) + YieldWork(plan, r)
  }

  lemma SenderGrows(plan: Plan, s: Sender, m: SenderMove)
    requires ValidPlan(plan) && SenderShape(plan, s) && SenderOk(plan, s) && SentOk(plan, s) && SenderCan(plan, s, m)
    ensures SenderWork(plan, SenderAfter(plan, s, m)) > SenderWork(plan, s)
  {
    hide Mul, Overlay, Img, Base, MaxChunks, Write, FillSteps, CastSteps;
    FillBound(plan, s);
    CastBound(plan, s);
    MulAhead(s.bucket, |plan.buckets|, FillSteps(plan));
    if s.op.Running? { MulAhead(s.op.index, |plan.buckets|, CastSteps(plan)); }
  }

  lemma SwapGrows(plan: Plan, r: Receiver)
    requires ValidPlan(plan) && ReceiverShape(plan, r) && ReceiverOk(plan, r) && ReceiverCan(plan, r, Swap)
    ensures ReceiverWork(plan, ReceiverAfter(plan, r, Swap)) > ReceiverWork(plan, r)
  {
    hide Mul, WireOk, HandedOut, Img, MaxChunks, MetaOf;
    LandBound(plan, r);
    YieldBound(plan, r);
    OpenIsEarly(plan, r);
    MulAhead(r.started - 1, |plan.buckets|, LandSteps(plan));
    MulAhead(r.bucket, |plan.buckets|, YieldSteps(plan));
  }

  lemma ReceiverGrows(plan: Plan, r: Receiver, m: ReceiverMove)
    requires ValidPlan(plan) && ReceiverShape(plan, r) && ReceiverOk(plan, r) && ReceiverCan(plan, r, m)
    ensures 0 < ReceiverAfter(plan, r, m).started
    ensures ReceiverWork(plan, ReceiverAfter(plan, r, m)) > ReceiverWork(plan, r)
  {
    if m.Swap? {
      SwapGrows(plan, r);
    } else {
      YieldBound(plan, r);
      QuietGrows(plan, r, m);
    }
  }

  /** Steps that do not change the bucket. */
  lemma QuietGrows(plan: Plan, r: Receiver, m: ReceiverMove)
    requires ReceiverShape(plan, r) && ReceiverCan(plan, r, m) && !m.Swap?
    requires r.stage.Yielding? ==> r.stage.chunk <= |r.meta.table|
    ensures ReceiverAfter(plan, r, m).started == r.started
    ensures ReceiverWork(plan, ReceiverAfter(plan, r, m)) > ReceiverWork(plan, r)
  {
    hide Mul, MaxChunks, YieldSteps, LandSteps, Slice;
  }

  /** What is left to do: for the sender, and for the first k receivers. */
  ghost function ReceiversLeft(plan: Plan, rs: seq<Receiver>, k: nat): int
    requires k <= |rs| && forall r :: 0 <= r < |rs| ==> 0 < rs[r].started
  {
    if k == 0 then 0 else ReceiversLeft(plan, rs, k - 1) + ReceiverBound(plan) - ReceiverWork(plan, rs[k - 1])
  }

  ghost predicate Started(w: World) {
    forall r :: 0 <= r < |w.receivers| ==> 0 < w.receivers[r].started
  }

  ghost function StepsLeft(plan: Plan, w: World): int
    requires Started(w)
  {
    SenderBound(plan) - SenderWork(plan, w.sender) + ReceiversLeft(plan, w.receivers, |w.receivers|)
  }

  lemma {:induction false} ReceiversLeftSame(plan: Plan, a: seq<Receiver>, b: seq<Receiver>, k: nat)
    requires |a| == |b| && k <= |a| && forall r :: 0 <= r < |a| ==> 0 < a[r].started && 0 < b[r].started
    requires forall r :: 0 <= r < k ==> ReceiverWork(plan, a[r]) == ReceiverWork(plan, b[r])
    ensures ReceiversLeft(plan, a, k) == ReceiversLeft(plan, b, k)
  {
    hide ReceiverWork, ReceiverBound;
    if k > 0 { ReceiversLeftSame(plan, a, b, k - 1); }
  }

  lemma {:induction false} ReceiversLeftShrink(plan: Plan, a: seq<Receiver>, b: seq<Receiver>, r: nat, k: nat)
    requires |a| == |b| && r < k <= |a| && forall x :: 0 <= x < |a| ==> 0 < a[x].started && 0 < b[x].started
    requires forall x :: 0 <= x < |a| && x != r ==> a[x] == b[x]
    requires ReceiverWork(plan, b[r]) > ReceiverWork(plan, a[r])
    ensures ReceiversLeft(plan, b, k) < ReceiversLeft(plan, a, k)
  {
    hide ReceiverWork, ReceiverBound;
    if r < k - 1 {
      ReceiversLeftShrink(plan, a, b, r, k - 1);
    } else {
      ReceiversLeftSame(plan, a, b, k - 1);
    }
  }

  lemma {:induction false} ReceiversLeftBound(plan: Plan, w: World, k: nat)
    requires Safe(plan, w) && Started(w) && k <= |w.receivers|
    ensures 0 <= ReceiversLeft(plan, w.receivers, k) <= Mul(k, ReceiverBound(plan))
  {
    hide Safe, ReceiverOk, InboxOk, Mul, LandWork, YieldWork;
    if k > 0 {
      ReceiversLeftBound(plan, w, k - 1);
      ReceiverIsOk(plan, w, k - 1);
      LandBound(plan, w.receivers[k - 1]);
      YieldBound(plan, w.receivers[k - 1]);
      MulNext(k - 1, ReceiverBound(plan));
    }
  }

  lemma AllStarted(plan: Plan, w: World)
    requires Safe(plan, w)
    ensures Started(w)
  {
    hide Safe, ReceiverOk, InboxOk;
    forall r | 0 <= r < |w.receivers| ensures 0 < w.receivers[r].started {
      ReceiverIsOk(plan, w, r);
    }
  }

  /** Every step of any thread leaves less to do. */
  lemma StepShrinks(plan: Plan, w: World, m: Move)
    requires Live(plan, w) && Shape(plan, w) && Can(plan, w, m)
    ensures Started(w) && Started(Next(plan, w, m)) && StepsLeft(plan, Next(plan, w, m)) < StepsLeft(plan, w)
  {
    hide Safe, ReceiverOk, InboxOk, SenderOk, Carried, SentOk, SenderBound, ReceiverBound, SenderWork, ReceiverWork;
    var w' := Next(plan, w, m);
    StepSafe(plan, w, m);
    AllStarted(plan, w);
    AllStarted(plan, w');
    SenderIsOk(plan, w);
    match m
    case ReceiverMoves(r, k) =>
      ReceiverIsOk(plan, w, r);
      ReceiverGrows(plan, w.receivers[r], k);
      ReceiversLeftShrink(plan, w.receivers, w'.receivers, r, |w.receivers|);
    case SenderMoves(k) =>
      SenderGrows(plan, w.sender, k);
      SenderLeavesReceivers(plan, w, k);
  }

  lemma SenderLeavesReceivers(plan: Plan, w: World, m: SenderMove)
    requires Shape(plan, w) && SenderCan(plan, w.sender, m) && Started(w) && Started(Next(plan, w, SenderMoves(m)))
    ensures var w' := Next(plan, w, SenderMoves(m));
            && |w'.receivers| == |w.receivers| && w'.sender == SenderAfter(plan, w.sender, m)
            && ReceiversLeft(plan, w'.receivers, |w.receivers|) == ReceiversLeft(plan, w.receivers, |w.receivers|)
  {
    hide Next, SenderCan, SenderAfter, Shape, ReceiversLeft;
    var w' := Next(plan, w, SenderMoves(m));
    NextCounts(plan, w, m);
    forall r | 0 <= r < |w.receivers| ensures ReceiverWork(plan, w'.receivers[r]) == ReceiverWork(plan, w.receivers[r]) {
      SenderTouches(plan, w, m, r);
    }
    ReceiversLeftSame(plan, w'.receivers, w.receivers, |w.receivers|);
  }

  lemma NextCounts(plan: Plan, w: World, m: SenderMove)
    requires Shape(plan, w) && SenderCan(plan, w.sender, m)
    ensures var w' := Next(plan, w, SenderMoves(m));
            |w'.receivers| == |w.receivers| && w'.sender == SenderAfter(plan, w.sender, m)
  {
    hide SenderAfter;
  }

  lemma StepsLeftBound(plan: Plan, w: World)
    requires Live(plan, w)
    ensures Started(w) && 0 <= StepsLeft(plan, w) <= SenderBound(plan) + Mul(|w.receivers|, ReceiverBound(plan))
  {
    hide Safe, SenderOk, SentOk, Carried, FillWork, CastWork, Mul;
    AllStarted(plan, w);
    SenderIsOk(plan, w);
    FillBound(plan, w.sender);
    CastBound(plan, w.sender);
    ReceiversLeftBound(plan, w, |w.receivers|);
  }

  lemma {:induction false} HistoryIsShort(plan: Plan, w: World, moves: seq<Move>)
    requires Live(plan, w) && IsHistory(plan, w, moves)
    ensures Live(plan, Reached(plan, w, moves)) && Started(w) && |moves| <= StepsLeft(plan, w)
    decreases |moves|
  {
    hide Live, Next, Can, Shape, StepsLeft, Started;
    StepsLeftBound(plan, w);
    if moves != [] {
      LiveStep(plan, w, moves[0]);
      StepShrinks(plan, w, moves[0]);
      HistoryIsShort(plan, Next(plan, w, moves[0]), moves[1..]);
    }
  }

  /** No further step is possible, not even over a transport that stores nothing. */
  ghost predicate Stuck(plan: Plan, w: World)
    requires Shape(plan, w)
  {
    forall m :: !(Can(plan, w, m) && Together(w, m))
  }

  /** Every interleaving is bounded by a number fixed by the plan; where it can go no further, the sender is closed
      and every receiver is over, with the whole stream yielded. */
  lemma EveryBroadcastDelivers(plan: Plan, moves: seq<Move>)
    requires GoodPlan(plan) && IsHistory(plan, InitWorld(plan), moves)
    ensures |moves| <= SenderBound(plan) + Mul(plan.ranks - 1, ReceiverBound(plan))
    ensures var w := Reached(plan, InitWorld(plan), moves);
            && Shape(plan, w)
            && (Stuck(plan, w) ==> AllOver(w) && forall r :: 0 <= r < |w.receivers| ==> w.receivers[r].out == Flatten(plan.buckets))
  {
    hide Live, Next, Can, StepsLeft, IsHistory, Reached, GoodBucket, Safe;
    LiveInit(plan);
    StepsLeftBound(plan, InitWorld(plan));
    HistoryIsShort(plan, InitWorld(plan), moves);
    var w := Reached(plan, InitWorld(plan), moves);
    LiveIsSafe(plan, w);
    ShapeOf(plan, w);
    if Stuck(plan, w) {
      if !AllOver(w) {
        var m := SomeoneSteps(plan, w);
      }
      forall r | 0 <= r < |w.receivers| ensures w.receivers[r].out == Flatten(plan.buckets) {
        BroadcastDelivers(plan, moves, r);
      }
    }
  }

  lemma LiveIsSafe(plan: Plan, w: World)
    requires Live(plan, w)
    ensures Safe(plan, w)
  {
  }

  /** End to end: when no step is left, merging what any receiver yielded gives the non-empty weights back. */
  lemma BroadcastTransfersWeights(weights: seq<Weight>, bucketSize: nat, ranks: nat, moves: seq<Move>)
    requires 0 < bucketSize && 2 <= ranks && DistinctWeights(weights) && forall w :: w in weights ==> ValidWeight(w)
    ensures Pack(Split(weights, bucketSize), bucketSize).Ok?
    ensures var plan := PlanFor(weights, bucketSize, ranks);
            && GoodPlan(plan)
            && (IsHistory(plan, InitWorld(plan), moves) ==>
                  var w := Reached(plan, InitWorld(plan), moves);
                  && Shape(plan, w)
                  && (Stuck(plan, w) ==> forall r :: 0 <= r < |w.receivers| ==>
                        Merge(Idle, w.receivers[r].out, bucketSize) == Ok((Idle, NonEmpty(weights)))))
  {
    hide Pack, Split, Merge, GoodBucket, Flatten, ValidWeight, NonEmpty, IsHistory, Reached, Shape, Stuck;
    PlanDelivers(weights, bucketSize, ranks);
    var plan := PlanFor(weights, bucketSize, ranks);
    if IsHistory(plan, InitWorld(plan), moves) {
      EveryBroadcastDelivers(plan, moves);
    }
  }
}
