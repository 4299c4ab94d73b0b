/** Safety, progress and delivery of the chain, for every interleaving of any number of ranks. */
module NixlTheorems {
  import opened Outcomes
  import opened IntMath
  import opened WeightChunks
  import opened BucketPacking
  import opened BucketTransfer
  import opened TransferPlan
  import opened Chains
  import opened NixlAgent
  import opened NixlChain
  import opened NixlProof

  // ---------------------------------------------------------------- runs

  ghost predicate IsRun(plan: Plan, s: State, run: seq<Action>)
    requires ValidPlan(plan)
    decreases |run|
  {
    run == [] ||
    (WellFormedState(plan, s) && Enabled(plan, s, run[0]) && IsRun(plan, Apply(plan, s, run[0]), run[1..]))
  }

  ghost function After(plan: Plan, s: State, run: seq<Action>): State
    requires ValidPlan(plan) && IsRun(plan, s, run)
    decreases |run|
  {
    if run == [] then s else After(plan, Apply(plan, s, run[0]), run[1..])
  }

  lemma {:induction false} RunInv(plan: Plan, s: State, run: seq<Action>)
    requires Inv(plan, s) && IsRun(plan, s, run)
    ensures Inv(plan, After(plan, s, run))
    decreases |run|
  {
    if run != [] {
      StepInv(plan, s, run[0]);
      RunInv(plan, Apply(plan, s, run[0]), run[1..]);
    }
  }

  // ---------------------------------------------------------------- safety

  /** A buffer somebody still depends on: it is announced and unacknowledged, being read remotely,
      or its views are being handed to the local consumer. */
  predicate InUse(plan: Plan, s: State, r: nat, buf: nat)
    requires r < |s|
  {
    || (s[r].pending && 0 < s[r].posted && buf == Slot(r, s[r].posted - 1))
    || (r + 1 < |s| && s[r + 1].read.Reading? && !s[r + 1].read.done && buf == s[r + 1].read.src)
    || (s[r].stage.Yield? && buf == s[r].send)
  }

  lemma WrittenBuffer(plan: Plan, s: State, a: Action, r: nat, buf: nat)
    requires Inv(plan, s) && WellFormedState(plan, s) && Enabled(plan, s, a) && r < |s| && buf < 2
    requires WellFormedState(plan, Apply(plan, s, a)) && Apply(plan, s, a)[r].bufs[buf] != s[r].bufs[buf]
    ensures a.rank == r
    ensures (a.kind.FillChunk? && buf == s[r].send) || (a.kind.CopyCell? && s[r].read.Reading? && buf == s[r].read.dst)
  {
    hide Inv;
  }

  /** No step writes to a buffer in use: not the sender's filling, and not a read into the receive buffer. */
  lemma NoOverwrite(plan: Plan, s: State, a: Action, r: nat, buf: nat)
    requires Inv(plan, s) && WellFormedState(plan, s) && Enabled(plan, s, a) && r < |s| && buf < 2
    requires InUse(plan, s, r, buf)
    ensures WellFormedState(plan, Apply(plan, s, a)) && Apply(plan, s, a)[r].bufs[buf] == s[r].bufs[buf]
  {
    StepInv(plan, s, a);
    if Apply(plan, s, a)[r].bufs[buf] != s[r].bufs[buf] {
      WrittenBuffer(plan, s, a, r, buf);
      At(plan, s, r);
      NotInUse(plan, s, a, r, buf);
    }
  }

  lemma NotInUse(plan: Plan, s: State, a: Action, r: nat, buf: nat)
    requires Inv(plan, s) && WellFormedState(plan, s) && Enabled(plan, s, a) && a.rank == r < |s| && buf < 2
    requires (a.kind.FillChunk? && buf == s[r].send) || (a.kind.CopyCell? && s[r].read.Reading? && buf == s[r].read.dst)
    ensures !InUse(plan, s, r, buf)
  {
    hide NodeInv, LinkInv, Slot, Ready, Chained;
    At(plan, s, r);
    var n := s[r];
    RankOf(plan, r, n, a.kind);
    if r + 1 < |s| && s[r + 1].read.Reading? && !s[r + 1].read.done {
      ReadingWhich(plan, r + 1, s[r + 1]);
      MustBePending(plan, r, n, s[r + 1], s[r + 1].read.key);
    }
    OutgoingElsewhere(plan, r, n, a.kind, buf);
  }

  lemma OutgoingElsewhere(plan: Plan, rank: nat, n: Node, kind: Kind, buf: nat)
    requires ValidPlan(plan) && NodeInv(plan, rank, n) && WellFormed(plan, n) && Ready(plan, rank, n, kind)
    requires (kind.FillChunk? && buf == n.send) || (kind.CopyCell? && n.read.Reading? && buf == n.read.dst)
    ensures !(n.stage.Yield? && buf == n.send)
    ensures n.pending ==> 0 < n.posted && buf != Slot(rank, n.posted - 1)
  {
    RankOf(plan, rank, n, kind);
    if kind.CopyCell? {
      ReadingWhich(plan, rank, n);
    } else if 0 < n.bucket {
      SlotFlips(0, n.bucket - 1);
    }
  }

  /** Each link has at most one unacknowledged operation, and the notification a rank waits for carries
      that operation's key. */
  lemma NotifyKeyMatches(plan: Plan, s: State, r: nat)
    requires Inv(plan, s) && r < |s| && WellFormed(plan, s[r])
    ensures |s[r].mailbox| <= 1 && |s[r].acks| <= 1 && forall x :: x in s[r].acks ==> x.from == r + 1
    ensures Ready(plan, r, s[r], TakeAck) ==> s[r].pending && s[r].acks[0] == Ack(r + 1, s[r].posted - 1)
  {
    hide Chained, NodeInv, LinkInv, Ready;
    At(plan, s, r);
    if 0 < r { LinkQueues(plan, r - 1, s[r - 1], s[r]); }
    if r + 1 < |s| {
      LinkQueues(plan, r, s[r], s[r + 1]);
      if Ready(plan, r, s[r], TakeAck) { AckKey(plan, r, s[r], s[r + 1]); }
    } else {
      NoAckNoStep(plan, r, s[r]);
    }
  }

  lemma LinkQueues(plan: Plan, rank: nat, a: Node, b: Node)
    requires ValidPlan(plan) && LinkInv(plan, rank, a, b)
    ensures |b.mailbox| <= 1 && |a.acks| <= 1 && forall x :: x in a.acks ==> x.from == rank + 1
  {
    hide MetaOf, Slot, Gotten, Completed, Acked;
  }

  lemma NoAckNoStep(plan: Plan, rank: nat, n: Node)
    requires ValidPlan(plan) && WellFormed(plan, n) && n.acks == []
    ensures !Ready(plan, rank, n, TakeAck)
  {
  }

  /** After every run of any number of ranks, whatever step a comes next: a buffer in use keeps its contents,
      a rank is notified by its successor only, and a notification that is taken carries the key of the one
      operation it acknowledges. */
  lemma EveryRunIsSafe(plan: Plan, run: seq<Action>, a: Action, r: nat, buf: nat)
    requires ValidPlan(plan) && IsRun(plan, Init(plan), run) && r < plan.ranks && buf < 2
    ensures var s := After(plan, Init(plan), run);
            && WellFormedState(plan, s)
            && |s[r].mailbox| <= 1 && |s[r].acks| <= 1
            && (forall x :: x in s[r].acks ==> x.from == r + 1)
            && (Ready(plan, r, s[r], TakeAck) ==> s[r].acks[0].key == s[r].posted - 1)
            && (Enabled(plan, s, a) && InUse(plan, s, r, buf) ==>
                  WellFormedState(plan, Apply(plan, s, a)) && Apply(plan, s, a)[r].bufs[buf] == s[r].bufs[buf])
  {
    hide IsRun, After, Init, Ready, Apply, InUse, Enabled;
    InvInit(plan);
    RunInv(plan, Init(plan), run);
    var s := After(plan, Init(plan), run);
    InvIsWellFormed(plan, s);
    NotifyKeyMatches(plan, s, r);
    if Enabled(plan, s, a) && InUse(plan, s, r, buf) {
      NoOverwrite(plan, s, a, r, buf);
    }
  }

  /** The agents listed in a poll are senders of notifications that wait at the rank. */
  ghost predicate PolledAt(s: State, r: nat, poll: Poll<nat, int>) {
    r < |s| && forall j :: 0 <= j < |poll| ==> exists x :: x in s[r].acks && x.from == poll[j].0
  }

  lemma PolledSender(s: State, r: nat, poll: Poll<nat, int>, j: nat) returns (x: Ack)
    requires PolledAt(s, r, poll) && j < |poll|
    ensures x in s[r].acks && x.from == poll[j].0
  {
    var sender := poll[j].0;
    x :| x in s[r].acks && x.from == sender;
  }

  /** Whatever a rank polls in the course of a run comes from its successor, so waiting for the successor's
      notification returns just that, although the wait forgets whom it was asked for. */
  lemma NotifiedBySuccessor(plan: Plan, runs: seq<seq<Action>>, queues: Queues<nat, int>, polls: seq<Poll<nat, int>>, r: nat)
    requires ValidPlan(plan) && r < plan.ranks && |runs| == |polls|
    requires forall i :: 0 <= i < |runs| ==>
               IsRun(plan, Init(plan), runs[i]) && PolledAt(After(plan, Init(plan), runs[i]), r, polls[i])
    ensures OnlyFrom(polls, r + 1)
    ensures match Fetch(queues, polls, r + 1)
            case None => FetchFrom(queues, polls, r + 1).None?
            case Some((agent, key, rest)) => agent == r + 1 && FetchFrom(queues, polls, r + 1) == Some((key, rest))
  {
    hide IsRun, After, Init, Fetch, FetchFrom;
    forall i, j | 0 <= i < |polls| && 0 <= j < |polls[i]| ensures polls[i][j].0 == r + 1 {
      EveryRunIsSafe(plan, runs[i], Action(0, Post), r, 0);
      var s := After(plan, Init(plan), runs[i]);
      assert PolledAt(s, r, polls[i]);
      var x := PolledSender(s, r, polls[i], j);
    }
    OneSenderIsHarmless(queues, polls, r + 1);
  }

  /** The trainer fills the next bucket as soon as one is announced, while it is still being read. */
  lemma FillingOverlaps(plan: Plan, n: Node)
    requires ValidPlan(plan) && NodeInv(plan, 0, n) && WellFormed(plan, n) && n.stage.Fill? && Ready(plan, 0, n, Post)
    requires n.bucket + 1 < |plan.buckets| && plan.buckets[n.bucket + 1] != []
    ensures var n' := AfterPost(plan, 0, n); n'.pending && WellFormed(plan, n') && Ready(plan, 0, n', FillChunk)
  {
    hide Img, Base, Overlay;
  }

  /** A rank that holds a bucket hands it out while it reads the next one and its successor reads this one. */
  lemma HandingOverlaps(plan: Plan, rank: nat, n: Node)
    requires ValidPlan(plan) && 0 < rank && NodeInv(plan, rank, n) && WellFormed(plan, n)
    requires n.stage.NextMeta? && Ready(plan, rank, n, GetMeta) && n.mailbox[0].buf < 2
    ensures var n' := AfterMeta(n);
            && n'.read.Reading? && n'.pending == n.pending == HasNext(plan, rank) && WellFormed(plan, n')
            && (n'.meta.table != [] ==> Ready(plan, rank, n', Hand))
            && (0 < plan.size ==> Ready(plan, rank, n', CopyCell(0)))
  {
    hide Img, HandedOut, MetaOf;
  }

  // ---------------------------------------------------------------- delivery

  lemma HandedSome(plan: Plan, rank: nat, n: Node) returns (j: nat)
    requires ValidPlan(plan) && NodeInv(plan, rank, n) && 0 < rank
    ensures n.bucket < |plan.buckets| && j <= |plan.buckets[n.bucket]| && n.out == HandedOut(plan, n.bucket, j)
  {
    hide HandedOut, Img, MetaOf, Slot;
    j :| 0 <= j <= |plan.buckets[n.bucket]| && n.out == HandedOut(plan, n.bucket, j);
  }

  /** At every point of every run each receiving rank has handed out a prefix of the sender's chunk stream. */
  lemma OutIsPrefix(plan: Plan, s: State, r: nat)
    requires GoodPlan(plan) && Inv(plan, s) && 0 < r < |s|
    ensures s[r].out <= Flatten(plan.buckets)
  {
    hide HandedOut, Flatten, Inv, NodeInv, LinkInv, GoodBucket, Received;
    At(plan, s, r);
    var n := s[r];
    var j := HandedSome(plan, r, n);
    ReceivedPrefix(plan, n.bucket, j, |plan.buckets|);
    ReceivedIsSent(plan.buckets, plan.size, |plan.buckets|);
    assert plan.buckets[..|plan.buckets|] == plan.buckets;
  }

  lemma LastBucket(plan: Plan, rank: nat, n: Node)
    requires ValidPlan(plan) && NodeInv(plan, rank, n) && 0 < rank && n.stage.Done?
    ensures n.bucket == |plan.buckets| - 1 && n.out == HandedOut(plan, n.bucket, |plan.buckets[n.bucket]|)
  {
    hide HandedOut, Img;
  }

  /** A rank that is done has handed out the whole stream. */
  lemma DoneIsAll(plan: Plan, s: State, r: nat)
    requires GoodPlan(plan) && Inv(plan, s) && 0 < r < |s| && s[r].stage.Done?
    ensures s[r].out == Flatten(plan.buckets)
  {
    hide HandedOut, Img, Flatten, Inv, LinkInv, GoodBucket, Overlay;
    At(plan, s, r);
    HandedWhole(plan);
    LastBucket(plan, r, s[r]);
  }

  // ---------------------------------------------------------------- progress

  /** The step a rank can take, unless it is done, waits for an announcement, or waits for a notification. */
  lemma OwnMove(plan: Plan, rank: nat, n: Node) returns (kind: Kind)
    requires ValidPlan(plan) && NodeInv(plan, rank, n) && WellFormed(plan, n) && !n.stage.Done?
    requires n.pending ==> n.acks != []
    requires n.stage.FirstMeta? || n.stage.NextMeta? ==> n.mailbox != []
    ensures Ready(plan, rank, n, kind)
  {
    match n.stage {
      case Fill(j) => kind := if j < |plan.buckets[n.bucket]| then FillChunk else if n.pending then TakeAck else Post;
      case Drain => kind := TakeAck;
      case FirstMeta => kind := GetMeta;
      case NextMeta => kind := GetMeta;
      case Offer => kind := Post;
      case Yield(j) => kind := if j < |n.meta.table| then Hand else EndYield;
      case AwaitAck => kind := TakeAck;
      case FirstRead => kind := ReadMove(plan, rank, n);
      case AwaitRead => kind := ReadMove(plan, rank, n);
    }
  }

  lemma ReadMove(plan: Plan, rank: nat, n: Node) returns (kind: Kind)
    requires ValidPlan(plan) && WellFormed(plan, n) && 0 < rank && n.read.Reading?
    requires n.stage.FirstRead? || n.stage.AwaitRead?
    ensures Ready(plan, rank, n, kind)
  {
    if n.read.done {
      kind := FinishRead;
    } else if k :| 0 <= k < plan.size && k !in n.read.copied {
      kind := CopyCell(k);
    } else {
      kind := CompleteRead;
    }
  }

  /** When a rank waits for an announcement, its predecessor is not done, and is not waiting for it. */
  lemma UpstreamOwes(plan: Plan, rank: nat, prev: Node, n: Node)
    requires ValidPlan(plan) && HasNext(plan, rank) && NodeInv(plan, rank, prev) && NodeInv(plan, rank + 1, n)
    requires LinkInv(plan, rank, prev, n) && (n.stage.FirstMeta? || n.stage.NextMeta?) && n.mailbox == []
    ensures !prev.stage.Done? && (prev.pending ==> prev.acks != [])
  {
  }

  /** Some rank up to r can step, unless r is done or waits for its successor. */
  lemma {:induction false} CanMove(plan: Plan, s: State, r: nat) returns (a: Action)
    requires Inv(plan, s) && WellFormedState(plan, s) && r < |s| && !s[r].stage.Done?
    requires s[r].pending ==> s[r].acks != []
    ensures Enabled(plan, s, a)
    decreases r
  {
    hide NodeInv, LinkInv;
    At(plan, s, r);
    if (s[r].stage.FirstMeta? || s[r].stage.NextMeta?) && s[r].mailbox == [] {
      WaitsAreReceivers(plan, r, s[r]);
      UpstreamOwes(plan, r - 1, s[r - 1], s[r]);
      a := CanMove(plan, s, r - 1);
    } else {
      var kind := OwnMove(plan, r, s[r]);
      a := Action(r, kind);
    }
  }

  lemma WaitsAreReceivers(plan: Plan, rank: nat, n: Node)
    requires ValidPlan(plan) && NodeInv(plan, rank, n) && (n.stage.FirstMeta? || n.stage.NextMeta?)
    ensures 0 < rank
  {
  }

  /** A rank whose successor is done has its last operation acknowledged. */
  lemma DownstreamDone(plan: Plan, rank: nat, n: Node, b: Node)
    requires ValidPlan(plan) && HasNext(plan, rank) && NodeInv(plan, rank, n) && NodeInv(plan, rank + 1, b)
    requires LinkInv(plan, rank, n, b) && b.stage.Done? && n.pending
    ensures n.acks != []
  {
  }

  /** No deadlock: whenever some rank is not done, some step is enabled. */
  lemma Progress(plan: Plan, s: State)
    requires Inv(plan, s) && WellFormedState(plan, s) && !Finished(s)
    ensures exists a :: Enabled(plan, s, a)
  {
    hide NodeInv, LinkInv;
    var r := |s| - 1;
    while s[r].stage.Done?
      invariant 0 <= r < |s| && forall x :: r < x < |s| ==> s[x].stage.Done?
      decreases r
    {
      r := r - 1;
    }
    At(plan, s, r);
    if r + 1 < |s| && s[r].pending {
      DownstreamDone(plan, r, s[r], s[r + 1]);
    } else if s[r].pending {
      LastNeverPends(plan, r, s[r]);
    }
    var a := CanMove(plan, s, r);
  }

  lemma LastNeverPends(plan: Plan, rank: nat, n: Node)
    requires ValidPlan(plan) && NodeInv(plan, rank, n) && rank == plan.ranks - 1
    ensures !n.pending
  {
  }

  // ---------------------------------------------------------------- every run ends

  /** An upper bound on the steps a rank spends on one bucket. */
  function PerBucket(plan: Plan): nat {
    plan.size + MaxChunks(plan.buckets) + 6
  }

  /** The same for i buckets. */
  function Steps(plan: Plan, i: nat): nat {
    Mul(i, PerBucket(plan))
  }

  function ReadWork(n: Node): nat {
    if n.read.Reading? then |n.read.copied| + (if n.read.done then 1 else 0) else 0
  }

  /** How far a rank is within its current bucket. */
  function StageWork(n: Node): nat {
    match n.stage
    case Fill(j) => j + if n.pending then 0 else 1
    case Yield(j) => 2 + j + ReadWork(n)
    case NextMeta => 1
    case AwaitAck => 3 + |n.meta.table| + ReadWork(n)
    case AwaitRead => 4 + |n.meta.table| + ReadWork(n)
    case _ => 0
  }

  /** How much a rank has done altogether: it grows with each of its own steps. */
  function Work(plan: Plan, rank: nat, n: Node): nat {
    match n.stage
    case FirstMeta => 0
    case FirstRead => 1 + ReadWork(n)
    case Drain => Steps(plan, |plan.buckets|)
    case Done =>
      if rank == 0 then Steps(plan, |plan.buckets|) + 1
      else plan.size + 3 + Steps(plan, n.bucket) + 5 + |n.meta.table|
    case _ => (if rank == 0 then 0 else plan.size + 3) + Steps(plan, n.bucket) + StageWork(n)
  }

  function WorkBound(plan: Plan): nat {
    plan.size + 3 + Steps(plan, |plan.buckets| + 1)
  }

  lemma StepsGrow(plan: Plan, i: nat, j: nat)
    requires i < j
    ensures Steps(plan, i + 1) == Steps(plan, i) + PerBucket(plan) && Steps(plan, i + 1) <= Steps(plan, j)
  {
    hide PerBucket;
    MulNext(i, PerBucket(plan));
    MulMonotone(i + 1, j, PerBucket(plan));
  }

  /** A rank never exceeds what fits in its bucket. */
  lemma StageBound(plan: Plan, rank: nat, n: Node)
    requires ValidPlan(plan) && NodeInv(plan, rank, n)
    ensures ReadWork(n) <= plan.size + 1 && StageWork(n) < PerBucket(plan)
    ensures !First(n) && 0 < rank ==> |n.meta.table| <= MaxChunks(plan.buckets)
  {
    MaxChunksBounds(plan.buckets, n.bucket);
    if 0 < rank && n.read.Reading? {
      ReadingWhich(plan, rank, n);
      Cells(n.read.copied, plan.size);
    }
  }

  lemma WorkBounded(plan: Plan, rank: nat, n: Node)
    requires ValidPlan(plan) && NodeInv(plan, rank, n)
    ensures Work(plan, rank, n) <= WorkBound(plan)
  {
    hide NodeInv, Steps, StageWork, ReadWork, MaxChunks;
    StageBound(plan, rank, n);
    NodeIsWellFormed(plan, rank, n);
    StepsGrow(plan, |plan.buckets|, |plan.buckets| + 1);
    StepsGrow(plan, n.bucket, |plan.buckets|);
    FirstIsNot(n);
  }

  lemma FirstIsNot(n: Node)
    ensures !First(n) ==> !n.stage.FirstMeta? && !n.stage.FirstRead?
    ensures First(n) ==> n.stage.FirstMeta? || n.stage.FirstRead?
  {
  }

  /** Steps that neither move data nor change bucket. */
  lemma StageGrows(plan: Plan, rank: nat, n: Node, kind: Kind)
    requires ValidPlan(plan) && NodeInv(plan, rank, n) && WellFormed(plan, n) && Ready(plan, rank, n, kind)
    ensures kind.FillChunk? ==> Work(plan, rank, FilledChunk(plan, n)) > Work(plan, rank, n)
    ensures kind.TakeAck? ==> Work(plan, rank, AfterAck(n)) > Work(plan, rank, n)
    ensures kind.GetMeta? ==> Work(plan, rank, AfterMeta(n)) > Work(plan, rank, n)
    ensures kind.Hand? ==> Work(plan, rank, AfterHand(n)) > Work(plan, rank, n)
    ensures kind.EndYield? ==> Work(plan, rank, AfterYield(n)) > Work(plan, rank, n)
  {
    hide Steps, HandedOut, Img, Base, MetaOf, Overlay;
    RankOf(plan, rank, n, kind);
  }

  lemma PostGrows(plan: Plan, rank: nat, n: Node)
    requires ValidPlan(plan) && NodeInv(plan, rank, n) && WellFormed(plan, n) && Ready(plan, rank, n, Post)
    ensures Work(plan, rank, AfterPost(plan, rank, n)) > Work(plan, rank, n)
  {
    hide Steps, PerBucket, HandedOut, Img, Base, MetaOf, Overlay;
    StageBound(plan, rank, n);
    StepsGrow(plan, n.bucket, |plan.buckets|);
  }

  lemma FinishGrows(plan: Plan, rank: nat, n: Node)
    requires ValidPlan(plan) && NodeInv(plan, rank, n) && WellFormed(plan, n) && Ready(plan, rank, n, FinishRead)
    ensures Work(plan, rank, AfterFinish(n)) > Work(plan, rank, n)
  {
    RankOf(plan, rank, n, FinishRead);
    hide Steps, PerBucket, HandedOut, Img, Base, MetaOf, Overlay;
    StageBound(plan, rank, n);
    StepsGrow(plan, n.bucket, |plan.buckets|);
  }

  lemma ReadGrows(plan: Plan, rank: nat, prev: Node, n: Node, k: nat)
    requires ValidPlan(plan) && NodeInv(plan, rank, n) && WellFormed(plan, n) && WellFormed(plan, prev)
    ensures Ready(plan, rank, n, CopyCell(k)) ==> Work(plan, rank, AfterCopy(plan, prev, n, k)) > Work(plan, rank, n)
    ensures Ready(plan, rank, n, CompleteRead) ==>
              Work(plan, rank, n.(read := n.read.(done := true))) > Work(plan, rank, n)
  {
    hide Steps, PerBucket, HandedOut, Img, Base, MetaOf, Overlay;
  }

  /** A step touches only the queues of the other ranks. */
  lemma OthersKeep(plan: Plan, s: State, a: Action, r: nat)
    requires ValidPlan(plan) && WellFormedState(plan, s) && Enabled(plan, s, a) && r < |s| && r != a.rank
    ensures var s' := Apply(plan, s, a);
            |s'| == |s| && s'[r] == s[r].(mailbox := s'[r].mailbox, acks := s'[r].acks)
    ensures Work(plan, r, Apply(plan, s, a)[r]) == Work(plan, r, s[r])
  {
    hide Steps, PerBucket, FilledChunk, AfterPost, AfterAck, AfterMeta, AfterCopy, AfterFinish, AfterHand, AfterYield;
  }

  /** The acting rank after its step. */
  function Own(plan: Plan, s: State, a: Action): Node
    requires ValidPlan(plan) && WellFormedState(plan, s) && Enabled(plan, s, a)
  {
    var r, n := a.rank, s[a.rank];
    match a.kind
    case FillChunk => FilledChunk(plan, n)
    case Post => AfterPost(plan, r, n)
    case TakeAck => AfterAck(n)
    case GetMeta => AfterMeta(n)
    case CopyCell(k) => AfterCopy(plan, s[r - 1], n, k)
    case CompleteRead => n.(read := n.read.(done := true))
    case FinishRead => AfterFinish(n)
    case Hand => AfterHand(n)
    case EndYield => AfterYield(n)
  }

  lemma OwnIs(plan: Plan, s: State, a: Action)
    requires ValidPlan(plan) && WellFormedState(plan, s) && Enabled(plan, s, a)
    ensures |Apply(plan, s, a)| == |s| && Apply(plan, s, a)[a.rank] == Own(plan, s, a)
  {
    hide FilledChunk, AfterPost, AfterAck, AfterMeta, AfterCopy, AfterFinish, AfterHand, AfterYield;
  }

  lemma OwnGrows(plan: Plan, s: State, a: Action)
    requires Inv(plan, s) && WellFormedState(plan, s) && Enabled(plan, s, a)
    ensures Work(plan, a.rank, Own(plan, s, a)) > Work(plan, a.rank, s[a.rank])
  {
    hide Chained, WellFormed, NodeInv, LinkInv, Work, FilledChunk, AfterPost, AfterAck, AfterMeta, AfterCopy, AfterFinish, AfterHand, AfterYield;
    At(plan, s, a.rank);
    var n := s[a.rank];
    match a.kind {
      case Post => PostGrows(plan, a.rank, n);
      case FinishRead => FinishGrows(plan, a.rank, n);
      case CopyCell(k) => ReadGrows(plan, a.rank, s[a.rank - 1], n, k);
      case CompleteRead => ReadGrows(plan, a.rank, s[a.rank - 1], n, 0);
      case _ => StageGrows(plan, a.rank, n, a.kind);
    }
  }

  /** Every step increases the work of the acting rank and leaves the others' as it is. */
  lemma StepGrows(plan: Plan, s: State, a: Action)
    requires Inv(plan, s) && WellFormedState(plan, s) && Enabled(plan, s, a)
    ensures var s' := Apply(plan, s, a);
            && |s'| == |s| && Work(plan, a.rank, s'[a.rank]) > Work(plan, a.rank, s[a.rank])
            && forall r :: 0 <= r < |s| && r != a.rank ==> Work(plan, r, s'[r]) == Work(plan, r, s[r])
  {
    OwnGrows(plan, s, a);
    OwnIs(plan, s, a);
    hide NodeInv, LinkInv, Apply, Own, Work;
    forall r | 0 <= r < |s| && r != a.rank ensures Work(plan, r, Apply(plan, s, a)[r]) == Work(plan, r, s[r]) {
      OthersKeep(plan, s, a, r);
    }
  }

  /** The steps left to the first k ranks. */
  ghost function Left(plan: Plan, s: State, k: nat): int
    requires k <= |s|
  {
    if k == 0 then 0 else Left(plan, s, k - 1) + WorkBound(plan) - Work(plan, k - 1, s[k - 1])
  }

  lemma {:induction false} LeftShrinks(plan: Plan, s: State, s': State, r: nat, k: nat)
    requires r < |s| == |s'| && k <= |s| && Work(plan, r, s'[r]) > Work(plan, r, s[r])
    requires forall x :: 0 <= x < |s| && x != r ==> Work(plan, x, s'[x]) == Work(plan, x, s[x])
    ensures if r < k then Left(plan, s', k) < Left(plan, s, k) else Left(plan, s', k) == Left(plan, s, k)
  {
    hide Work, WorkBound;
    if k > 0 { LeftShrinks(plan, s, s', r, k - 1); }
  }

  lemma WorkBoundedAt(plan: Plan, s: State, r: nat)
    requires Inv(plan, s) && r < |s|
    ensures Work(plan, r, s[r]) <= WorkBound(plan)
  {
    hide Work, WorkBound, NodeInv, LinkInv;
    At(plan, s, r);
    WorkBounded(plan, r, s[r]);
  }

  lemma {:induction false} LeftIsNat(plan: Plan, s: State, k: nat, bound: nat)
    requires Inv(plan, s) && k <= |s| && bound == WorkBound(plan)
    ensures 0 <= Left(plan, s, k) <= k * bound
  {
    hide Work, WorkBound, Inv;
    if k > 0 {
      LeftIsNat(plan, s, k - 1, bound);
      WorkBoundedAt(plan, s, k - 1);
      MulNext(k - 1, bound);
    }
  }

  lemma {:induction false} RunIsShort(plan: Plan, s: State, run: seq<Action>)
    requires Inv(plan, s) && IsRun(plan, s, run)
    ensures |run| <= Left(plan, s, |s|)
    decreases |run|
  {
    if run == [] {
      LeftIsNat(plan, s, |s|, WorkBound(plan));
    } else {
      var s' := Apply(plan, s, run[0]);
      StepInv(plan, s, run[0]);
      StepGrows(plan, s, run[0]);
      LeftShrinks(plan, s, s', run[0].rank, |s|);
      RunIsShort(plan, s', run[1..]);
    }
  }

  /** Every run from the start is bounded by a number fixed by the plan, so every run that is not cut
      short ends with every rank done; then every receiver has handed out the whole stream. */
  lemma EveryRunDelivers(plan: Plan, run: seq<Action>)
    requires GoodPlan(plan) && IsRun(plan, Init(plan), run)
    ensures |run| <= plan.ranks * WorkBound(plan)
    ensures WellFormedState(plan, After(plan, Init(plan), run))
    ensures var s := After(plan, Init(plan), run);
            && (forall r :: 0 < r < |s| ==> s[r].out <= Flatten(plan.buckets))
            && ((forall a :: !Enabled(plan, s, a)) ==>
                  Finished(s) && forall r :: 0 < r < |s| ==> s[r].out == Flatten(plan.buckets))
  {
    InvInit(plan);
    RunIsShort(plan, Init(plan), run);
    LeftIsNat(plan, Init(plan), plan.ranks, WorkBound(plan));
    RunInv(plan, Init(plan), run);
    var s := After(plan, Init(plan), run);
    InvIsWellFormed(plan, s);
    forall r | 0 < r < |s| ensures s[r].out <= Flatten(plan.buckets) { OutIsPrefix(plan, s, r); }
    if forall a :: !Enabled(plan, s, a) {
      if !Finished(s) { Progress(plan, s); }
      forall r | 0 < r < |s| ensures s[r].out == Flatten(plan.buckets) { DoneIsAll(plan, s, r); }
    }
  }

  /** End to end: when no rank can step any more, merging what any rank handed out gives the weights back. */
  lemma ChainTransfersWeights(weights: seq<Weight>, bucketSize: nat, ranks: nat, run: seq<Action>)
    requires 0 < bucketSize && 2 <= ranks && DistinctWeights(weights) && forall w :: w in weights ==> ValidWeight(w)
    ensures Pack(Split(weights, bucketSize), bucketSize).Ok?
    ensures var plan := PlanFor(weights, bucketSize, ranks);
            && GoodPlan(plan)
            && (IsRun(plan, Init(plan), run) ==>
                  var s := After(plan, Init(plan), run);
                  && WellFormedState(plan, s)
                  && ((forall a :: !Enabled(plan, s, a)) ==> forall r :: 0 < r < |s| ==>
                        Merge(Idle, s[r].out, bucketSize) == Ok((Idle, NonEmpty(weights)))))
  {
    hide Pack, Split, Merge, GoodBucket, Flatten, ValidWeight, NonEmpty, IsRun, After, WellFormedState, Enabled, Init;
    PlanDelivers(weights, bucketSize, ranks);
    var plan := PlanFor(weights, bucketSize, ranks);
    if IsRun(plan, Init(plan), run) {
      EveryRunDelivers(plan, run);
    }
  }
}
