/** Every step of the chain, by any rank in any order, keeps the invariant. */
module NixlProof {
  import opened BucketTransfer
  import opened TransferPlan
  import opened Chains
  import opened NixlChain

  // ---------------------------------------------------------------- one rank and its two links

  /** A link looks only at these fields of its ends. */
  lemma LinkFrame(plan: Plan, rank: nat, a: Node, b: Node, a': Node, b': Node)
    requires ValidPlan(plan) && LinkInv(plan, rank, a, b)
    requires a'.posted == a.posted && a'.pending == a.pending && a'.acks == a.acks
    requires Gotten(b') == Gotten(b) && Completed(b') == Completed(b) && b'.mailbox == b.mailbox
    ensures LinkInv(plan, rank, a', b')
  {
  }

  /** Which ranks take which steps. */
  lemma RankOf(plan: Plan, rank: nat, n: Node, kind: Kind)
    requires ValidPlan(plan) && NodeInv(plan, rank, n) && WellFormed(plan, n) && Ready(plan, rank, n, kind)
    ensures kind.FillChunk? ==> rank == 0
    ensures kind.GetMeta? || kind.FinishRead? || kind.Hand? || kind.EndYield? ==> 0 < rank
  {
  }

  lemma NodeIsWellFormed(plan: Plan, rank: nat, n: Node)
    requires ValidPlan(plan) && NodeInv(plan, rank, n)
    ensures WellFormed(plan, n)
  {
  }

  lemma FillOk(plan: Plan, n: Node)
    requires ValidPlan(plan) && NodeInv(plan, 0, n) && Ready(plan, 0, n, FillChunk)
    ensures NodeInv(plan, 0, FilledChunk(plan, n))
  {
    hide Img, Base, Overlay, Write;
    OverlayNext(Base(plan, n.bucket), plan.buckets[n.bucket], n.stage.chunks);
  }

  lemma SlotFlips(rank: nat, i: nat)
    ensures Slot(rank, i + 1) == 1 - Slot(rank, i)
  {
  }

  lemma SenderPostOk(plan: Plan, n: Node)
    requires ValidPlan(plan) && NodeInv(plan, 0, n) && Ready(plan, 0, n, Post)
    ensures NodeInv(plan, 0, AfterPost(plan, 0, n))
  {
    hide Img, Base, Overlay, Slot;
    var i := n.bucket;
    ImageIs(plan, i);
    OverlayEnds(Base(plan, i), plan.buckets[i]);
    SlotFlips(0, i);
    if i + 1 < |plan.buckets| {
      ImageIs(plan, i + 1);
      OverlayEnds(Base(plan, i + 1), plan.buckets[i + 1]);
    }
  }

  lemma SenderPostLink(plan: Plan, n: Node, b: Node)
    requires ValidPlan(plan) && NodeInv(plan, 0, n) && Ready(plan, 0, n, Post) && LinkInv(plan, 0, n, b)
    ensures LinkInv(plan, 0, AfterPost(plan, 0, n), b.(mailbox := b.mailbox + [Announcement(plan, n)]))
  {
    hide Img, HandedOut, MetaOf, Slot, ReadInv;
    assert [] + [Announcement(plan, n)] == [Announcement(plan, n)];
  }

  lemma ReceiverPostOk(plan: Plan, rank: nat, n: Node)
    requires ValidPlan(plan) && 0 < rank && NodeInv(plan, rank, n) && Ready(plan, rank, n, Post)
    ensures NodeInv(plan, rank, AfterPost(plan, rank, n))
    ensures Gotten(AfterPost(plan, rank, n)) == Gotten(n) && Completed(AfterPost(plan, rank, n)) == Completed(n)
    ensures AfterPost(plan, rank, n).mailbox == n.mailbox
  {
  }

  lemma PostLink(plan: Plan, rank: nat, n: Node, b: Node)
    requires ValidPlan(plan) && 0 < rank && NodeInv(plan, rank, n) && Ready(plan, rank, n, Post)
    requires HasNext(plan, rank) && LinkInv(plan, rank, n, b)
    ensures LinkInv(plan, rank, AfterPost(plan, rank, n), b.(mailbox := b.mailbox + [Announcement(plan, n)]))
  {
    hide Img, HandedOut, MetaOf, Slot, ReadInv;
    assert [] + [Announcement(plan, n)] == [Announcement(plan, n)];
  }

  /** The notification taken is the pending operation's own key. */
  lemma AckKey(plan: Plan, rank: nat, n: Node, b: Node)
    requires ValidPlan(plan) && NodeInv(plan, rank, n) && Ready(plan, rank, n, TakeAck) && LinkInv(plan, rank, n, b)
    ensures n.pending && n.acks == [Ack(rank + 1, n.posted - 1)]
  {
  }

  lemma AckLink(plan: Plan, rank: nat, n: Node, b: Node)
    requires ValidPlan(plan) && NodeInv(plan, rank, n) && Ready(plan, rank, n, TakeAck) && LinkInv(plan, rank, n, b)
    ensures LinkInv(plan, rank, AfterAck(n), b)
  {
    AckKey(plan, rank, n, b);
  }

  lemma AckOk(plan: Plan, rank: nat, n: Node)
    requires ValidPlan(plan) && NodeInv(plan, rank, n) && Ready(plan, rank, n, TakeAck)
    ensures NodeInv(plan, rank, AfterAck(n))
    ensures 0 < rank ==> Gotten(AfterAck(n)) == Gotten(n) && Completed(AfterAck(n)) == Completed(n)
  {
    hide Img, MetaOf, HandedOut, Slot;
  }

  lemma MetaOk(plan: Plan, rank: nat, prev: Node, n: Node)
    requires ValidPlan(plan) && 0 < rank && NodeInv(plan, rank, n) && Ready(plan, rank, n, GetMeta)
    requires LinkInv(plan, rank - 1, prev, n)
    ensures NodeInv(plan, rank, AfterMeta(n)) && LinkInv(plan, rank - 1, prev, AfterMeta(n))
  {
    hide Img, HandedOut, MetaOf;
    assert n.mailbox[1..] == [];
  }

  /** An unacknowledged operation: its buffer still holds the announced bucket. */
  lemma PendingHolds(plan: Plan, rank: nat, n: Node)
    requires ValidPlan(plan) && NodeInv(plan, rank, n) && n.pending
    ensures 0 < n.posted <= |plan.buckets| && WellFormed(plan, n)
    ensures n.bufs[Slot(rank, n.posted - 1)] == Img(plan, n.posted - 1)
  {
    hide Img, HandedOut, MetaOf, Base, Overlay;
    if n.stage.Fill? { SlotFlips(0, n.bucket - 1); }
  }

  lemma ReadingWhich(plan: Plan, rank: nat, n: Node)
    requires ValidPlan(plan) && 0 < rank && NodeInv(plan, rank, n) && n.read.Reading?
    ensures WellFormed(plan, n) && ReadInv(plan, rank, n, n.read.key) && Gotten(n) == n.read.key + 1
  {
  }

  lemma MustBePending(plan: Plan, rank: nat, prev: Node, n: Node, i: nat)
    requires ValidPlan(plan) && LinkInv(plan, rank, prev, n) && Gotten(n) == i + 1 && Completed(n) == i
    ensures prev.pending && prev.posted == i + 1
  {
  }

  /** While a read is in flight its source buffer holds exactly the announced bucket. */
  lemma SourceHolds(plan: Plan, rank: nat, prev: Node, n: Node)
    requires ValidPlan(plan) && 0 < rank
    requires NodeInv(plan, rank - 1, prev) && ReceiverInv(plan, rank, n) && LinkInv(plan, rank - 1, prev, n)
    requires n.read.Reading? && !n.read.done
    ensures prev.pending && prev.posted == n.read.key + 1 && n.read.key < |plan.buckets|
    ensures WellFormed(plan, prev) && WellFormed(plan, n) && prev.bufs[n.read.src] == Img(plan, n.read.key)
  {
    hide ReceiverInv, SenderInv, LinkInv, Img, MetaOf, Slot;
    ReadingWhich(plan, rank, n);
    MustBePending(plan, rank - 1, prev, n, n.read.key);
    PendingHolds(plan, rank - 1, prev);
  }

  lemma CopyRead(plan: Plan, rank: nat, prev: Node, n: Node, k: nat)
    requires ValidPlan(plan) && 0 < rank && WellFormed(plan, prev) && WellFormed(plan, n)
    requires n.read.Reading? && ReadInv(plan, rank, n, n.read.key) && !n.read.done && k < plan.size
    requires prev.bufs[n.read.src] == Img(plan, n.read.key)
    ensures WellFormed(plan, AfterCopy(plan, prev, n, k))
    ensures ReadInv(plan, rank, AfterCopy(plan, prev, n, k), n.read.key)
  {
  }

  /** A read writes only to the receive buffer. */
  lemma CopyKeeps(plan: Plan, rank: nat, prev: Node, n: Node, k: nat)
    requires ValidPlan(plan) && 0 < rank && ReceiverInv(plan, rank, n) && WellFormed(plan, prev)
    requires Ready(plan, rank, n, CopyCell(k))
    requires ReadInv(plan, rank, AfterCopy(plan, prev, n, k), n.read.key)
    ensures ReceiverInv(plan, rank, AfterCopy(plan, prev, n, k))
  {
    hide Img, HandedOut, MetaOf, Slot;
    ReadingWhich(plan, rank, n);
    assert AfterCopy(plan, prev, n, k).bufs[n.send] == n.bufs[n.send];
  }

  lemma CopyOk(plan: Plan, rank: nat, prev: Node, n: Node, k: nat)
    requires ValidPlan(plan) && 0 < rank
    requires NodeInv(plan, rank - 1, prev) && NodeInv(plan, rank, n) && LinkInv(plan, rank - 1, prev, n)
    requires Ready(plan, rank, n, CopyCell(k))
    ensures WellFormed(plan, prev) && NodeInv(plan, rank, AfterCopy(plan, prev, n, k))
    ensures Gotten(AfterCopy(plan, prev, n, k)) == Gotten(n) && Completed(AfterCopy(plan, prev, n, k)) == Completed(n)
  {
    SourceHolds(plan, rank, prev, n);
    ReadingWhich(plan, rank, n);
    CopyRead(plan, rank, prev, n, k);
    CopyKeeps(plan, rank, prev, n, k);
  }

  lemma CompleteOk(plan: Plan, rank: nat, n: Node)
    requires ValidPlan(plan) && 0 < rank && NodeInv(plan, rank, n) && Ready(plan, rank, n, CompleteRead)
    ensures NodeInv(plan, rank, n.(read := n.read.(done := true)))
  {
    hide Img, HandedOut, MetaOf, Slot;
    ReadingWhich(plan, rank, n);
  }

  lemma CompleteLink(plan: Plan, rank: nat, prev: Node, n: Node)
    requires ValidPlan(plan) && 0 < rank
    requires NodeInv(plan, rank - 1, prev) && NodeInv(plan, rank, n) && LinkInv(plan, rank - 1, prev, n)
    requires WellFormed(plan, n) && Ready(plan, rank, n, CompleteRead)
    ensures LinkInv(plan, rank - 1, prev.(acks := prev.acks + [Ack(rank, n.read.key)]), n.(read := n.read.(done := true)))
  {
    hide ReceiverInv, SenderInv, Img, MetaOf, Slot;
    SourceHolds(plan, rank, prev, n);
    ReadingWhich(plan, rank, n);
    hide NodeInv, ReadInv;
    assert [] + [Ack(rank, n.read.key)] == [Ack(rank, n.read.key)];
  }

  /** A completed read: the receive buffer holds the next bucket. */
  lemma ReadDone(plan: Plan, rank: nat, n: Node, i: nat)
    requires ValidPlan(plan) && 0 < rank && WellFormed(plan, n) && ReadInv(plan, rank, n, i) && n.read.done
    ensures n.bufs[1 - n.send] == Img(plan, i) && n.next == MetaOf(plan, i)
  {
    hide Img, MetaOf;
    assert |Img(plan, i)| == plan.size by { ImgSize(plan, i); }
  }

  lemma FinishOk(plan: Plan, rank: nat, n: Node)
    requires ValidPlan(plan) && 0 < rank && NodeInv(plan, rank, n) && Ready(plan, rank, n, FinishRead)
    ensures NodeInv(plan, rank, AfterFinish(n))
    ensures Gotten(AfterFinish(n)) == Gotten(n) && Completed(AfterFinish(n)) == Completed(n)
  {
    hide Img, MetaOf, HandedOut, Slot;
    var i := if n.stage.FirstRead? then 0 else n.bucket + 1;
    ReadDone(plan, rank, n, i);
    if n.stage.AwaitRead? { HandedAll(plan, n.bucket); SlotFlips(rank, n.bucket); }
    FirstSlot(rank);
  }

  lemma FirstSlot(rank: nat)
    ensures 0 < rank ==> Slot(rank, 0) == 1
  {
  }

  lemma HandOk(plan: Plan, rank: nat, n: Node)
    requires ValidPlan(plan) && 0 < rank && NodeInv(plan, rank, n) && Ready(plan, rank, n, Hand)
    ensures NodeInv(plan, rank, AfterHand(n))
    ensures Gotten(AfterHand(n)) == Gotten(n) && Completed(AfterHand(n)) == Completed(n)
  {
    hide Img, MetaOf, HandedOut, Slot, Slice;
    TableLength(plan, n.bucket);
    HandedOne(plan, n.bucket, n.stage.chunk);
  }

  lemma EndYieldOk(plan: Plan, rank: nat, n: Node)
    requires ValidPlan(plan) && 0 < rank && NodeInv(plan, rank, n) && Ready(plan, rank, n, EndYield)
    ensures NodeInv(plan, rank, AfterYield(n))
    ensures Gotten(AfterYield(n)) == Gotten(n) && Completed(AfterYield(n)) == Completed(n)
  {
    hide Img, MetaOf, HandedOut, Slot;
    TableLength(plan, n.bucket);
  }

  // ---------------------------------------------------------------- the whole chain

  lemma InvInit(plan: Plan)
    requires ValidPlan(plan)
    ensures Inv(plan, Init(plan))
  {
    var s := Init(plan);
    forall r: nat {:trigger s[r]} | r < |s| ensures Nodes(plan)(r, s[r]) {
      InitNodeInv(plan, r);
    }
    forall r: nat {:trigger s[r]} | r + 1 < |s| ensures Links(plan)(r, s[r], s[r + 1]) {
      assert LinkInv(plan, r, s[r], s[r + 1]);
    }
  }

  lemma InitNodeInv(plan: Plan, rank: nat)
    requires ValidPlan(plan)
    ensures NodeInv(plan, rank, InitNode(plan, rank))
  {
    assert plan.buckets[0][..0] == [];
    assert HandedOut(plan, 0, 0) == [];
  }

  /** A rank's own invariant does not look at its queues. */
  lemma NodeFrame(plan: Plan, rank: nat, n: Node, mailbox: seq<Note>, acks: seq<Ack>)
    requires ValidPlan(plan) && NodeInv(plan, rank, n)
    ensures var n' := n.(mailbox := mailbox, acks := acks);
            NodeInv(plan, rank, n') && Gotten(n') == Gotten(n) && Completed(n') == Completed(n)
  {
    hide Img, HandedOut, MetaOf, Slot, Base, Overlay;
  }

  /** A rank's invariant, and what it knows of its neighbours. */
  lemma At(plan: Plan, s: State, r: nat)
    requires Inv(plan, s) && r < |s|
    ensures NodeInv(plan, r, s[r]) && WellFormed(plan, s[r])
    ensures if r == 0 then s[r].mailbox == []
            else NodeInv(plan, r - 1, s[r - 1]) && LinkInv(plan, r - 1, s[r - 1], s[r])
    ensures if r + 1 == |s| then s[r].acks == []
            else NodeInv(plan, r + 1, s[r + 1]) && LinkInv(plan, r, s[r], s[r + 1])
  {
    hide NodeInv, LinkInv;
    ChainedAt(Nodes(plan), Links(plan), s, r);
    NodeIsWellFormed(plan, r, s[r]);
  }

  lemma InvIsWellFormed(plan: Plan, s: State)
    requires Inv(plan, s)
    ensures WellFormedState(plan, s)
  {
    hide NodeInv, LinkInv, Gotten, Completed, Acked;
    forall r | 0 <= r < |s| ensures WellFormed(plan, s[r]) {
      At(plan, s, r);
    }
  }

  /** A step that changes nothing its links look at. */
  lemma LocalStep(plan: Plan, s: State, r: nat, n: Node)
    requires Inv(plan, s) && r < |s| && NodeInv(plan, r, n)
    requires n.posted == s[r].posted && n.pending == s[r].pending && n.acks == s[r].acks && n.mailbox == s[r].mailbox
    requires 0 < r ==> Gotten(n) == Gotten(s[r]) && Completed(n) == Completed(s[r])
    ensures Inv(plan, s[r := n])
  {
    hide NodeInv, LinkInv, Gotten, Completed, Acked;
    ChainedAt(Nodes(plan), Links(plan), s, r);
    if 0 < r { LinkFrame(plan, r - 1, s[r - 1], s[r], s[r - 1], n); }
    if r + 1 < |s| { LinkFrame(plan, r, s[r], s[r + 1], n, s[r + 1]); }
    Replace(Nodes(plan), Links(plan), s, r, n);
  }

  lemma AckStep(plan: Plan, s: State, r: nat)
    requires Inv(plan, s) && r < |s| && WellFormed(plan, s[r]) && Ready(plan, r, s[r], TakeAck)
    ensures Inv(plan, s[r := AfterAck(s[r])])
  {
    hide NodeInv, LinkInv, Gotten, Completed, Acked;
    ChainedAt(Nodes(plan), Links(plan), s, r);
    AckOk(plan, r, s[r]);
    AckLink(plan, r, s[r], s[r + 1]);
    if 0 < r { LinkFrame(plan, r - 1, s[r - 1], s[r], s[r - 1], AfterAck(s[r])); }
    Replace(Nodes(plan), Links(plan), s, r, AfterAck(s[r]));
  }

  lemma MetaStep(plan: Plan, s: State, r: nat)
    requires Inv(plan, s) && r < |s| && WellFormed(plan, s[r]) && Ready(plan, r, s[r], GetMeta)
    ensures Inv(plan, s[r := AfterMeta(s[r])])
  {
    hide NodeInv, LinkInv, Gotten, Completed, Acked;
    ChainedAt(Nodes(plan), Links(plan), s, r);
    RankOf(plan, r, s[r], GetMeta);
    MetaOk(plan, r, s[r - 1], s[r]);
    if r + 1 < |s| { LinkFrame(plan, r, s[r], s[r + 1], AfterMeta(s[r]), s[r + 1]); }
    Replace(Nodes(plan), Links(plan), s, r, AfterMeta(s[r]));
  }

  /** What announcing does to the announcing rank. */
  lemma PostHere(plan: Plan, s: State, r: nat)
    requires Inv(plan, s) && r < |s| && WellFormed(plan, s[r]) && Ready(plan, r, s[r], Post)
    ensures Nodes(plan)(r, AfterPost(plan, r, s[r]))
    ensures 0 < r ==> Links(plan)(r - 1, s[r - 1], AfterPost(plan, r, s[r]))
  {
    hide NodeInv, LinkInv, Gotten, Completed, Acked;
    ChainedAt(Nodes(plan), Links(plan), s, r);
    if r == 0 {
      SenderPostOk(plan, s[r]);
    } else {
      ReceiverPostOk(plan, r, s[r]);
      LinkFrame(plan, r - 1, s[r - 1], s[r], s[r - 1], AfterPost(plan, r, s[r]));
    }
  }

  /** What announcing does to the successor. */
  lemma PostThere(plan: Plan, s: State, r: nat)
    requires Inv(plan, s) && r + 1 < |s| && WellFormed(plan, s[r]) && Ready(plan, r, s[r], Post)
    ensures var b := s[r + 1].(mailbox := s[r + 1].mailbox + [Announcement(plan, s[r])]);
            && Nodes(plan)(r + 1, b) && Links(plan)(r, AfterPost(plan, r, s[r]), b)
            && (r + 2 < |s| ==> Links(plan)(r + 1, b, s[r + 2]))
  {
    hide NodeInv, LinkInv, Gotten, Completed, Acked, AfterPost, Announcement, Ready, Chained;
    ChainedAt(Nodes(plan), Links(plan), s, r);
    ChainedAt(Nodes(plan), Links(plan), s, r + 1);
    var b := s[r + 1].(mailbox := s[r + 1].mailbox + [Announcement(plan, s[r])]);
    NodeFrame(plan, r + 1, s[r + 1], b.mailbox, b.acks);
    if r == 0 { SenderPostLink(plan, s[r], s[r + 1]); } else { PostLink(plan, r, s[r], s[r + 1]); }
    if r + 2 < |s| { LinkFrame(plan, r + 1, s[r + 1], s[r + 2], b, s[r + 2]); }
  }

  lemma PostStep(plan: Plan, s: State, r: nat)
    requires Inv(plan, s) && WellFormedState(plan, s) && Enabled(plan, s, Action(r, Post))
    ensures Inv(plan, Apply(plan, s, Action(r, Post)))
  {
    hide NodeInv, LinkInv, Gotten, Completed, Acked;
    PostHere(plan, s, r);
    var n := AfterPost(plan, r, s[r]);
    if r + 1 < |s| {
      PostThere(plan, s, r);
      var b := s[r + 1].(mailbox := s[r + 1].mailbox + [Announcement(plan, s[r])]);
      ReplaceTwo(Nodes(plan), Links(plan), s, r, n, b);
    } else {
      Replace(Nodes(plan), Links(plan), s, r, n);
    }
  }

  /** What completing a read does to the reader and to the rank it reads from. */
  lemma CompleteBoth(plan: Plan, s: State, r: nat)
    requires Inv(plan, s) && 0 < r < |s| && WellFormed(plan, s[r]) && Ready(plan, r, s[r], CompleteRead)
    ensures var prev := s[r - 1].(acks := s[r - 1].acks + [Ack(r, s[r].read.key)]);
            var n := s[r].(read := s[r].read.(done := true));
            && Nodes(plan)(r - 1, prev) && Nodes(plan)(r, n) && Links(plan)(r - 1, prev, n)
            && (r + 1 < |s| ==> Links(plan)(r, n, s[r + 1]))
  {
    hide NodeInv, LinkInv;
    ChainedAt(Nodes(plan), Links(plan), s, r);
    CompleteOk(plan, r, s[r]);
    CompleteLink(plan, r, s[r - 1], s[r]);
    NodeFrame(plan, r - 1, s[r - 1], s[r - 1].mailbox, s[r - 1].acks + [Ack(r, s[r].read.key)]);
    if r + 1 < |s| { LinkFrame(plan, r, s[r], s[r + 1], s[r].(read := s[r].read.(done := true)), s[r + 1]); }
  }

  lemma CompleteBefore(plan: Plan, s: State, r: nat, acks: seq<Ack>)
    requires Inv(plan, s) && 0 < r < |s|
    ensures Links(plan)(r - 1, s[r - 1], s[r].(acks := acks))
  {
    hide NodeInv, LinkInv, Gotten, Completed;
    ChainedAt(Nodes(plan), Links(plan), s, r);
    NodeFrame(plan, r, s[r], s[r].mailbox, acks);
    LinkFrame(plan, r - 1, s[r - 1], s[r], s[r - 1], s[r].(acks := acks));
  }

  lemma CompleteStep(plan: Plan, s: State, r: nat)
    requires Inv(plan, s) && WellFormedState(plan, s) && Enabled(plan, s, Action(r, CompleteRead))
    ensures Inv(plan, Apply(plan, s, Action(r, CompleteRead)))
  {
    hide Nodes, Links, NodeInv, LinkInv;
    var prev := s[r - 1].(acks := s[r - 1].acks + [Ack(r, s[r].read.key)]);
    var n := s[r].(read := s[r].read.(done := true));
    CompleteBoth(plan, s, r);
    if 1 < r { CompleteBefore(plan, s, r - 1, prev.acks); }
    ReplaceTwo(Nodes(plan), Links(plan), s, r - 1, prev, n);
  }

  lemma CopyStep(plan: Plan, s: State, r: nat, k: nat)
    requires ValidPlan(plan) && Inv(plan, s) && WellFormedState(plan, s) && Enabled(plan, s, Action(r, CopyCell(k)))
    ensures Inv(plan, Apply(plan, s, Action(r, CopyCell(k))))
  {
    hide NodeInv, LinkInv, Gotten, Completed, Inv;
    At(plan, s, r);
    CopyOk(plan, r, s[r - 1], s[r], k);
    LocalStep(plan, s, r, AfterCopy(plan, s[r - 1], s[r], k));
  }

  /** Any enabled step of any rank keeps the invariant. */
  lemma StepInv(plan: Plan, s: State, a: Action)
    requires Inv(plan, s) && WellFormedState(plan, s) && Enabled(plan, s, a)
    ensures Inv(plan, Apply(plan, s, a)) && WellFormedState(plan, Apply(plan, s, a))
  {
    hide NodeInv, LinkInv, Gotten, Completed, Acked;
    var r, n := a.rank, s[a.rank];
    At(plan, s, r);
    RankOf(plan, r, n, a.kind);
    match a.kind {
      case FillChunk => FillOk(plan, n); LocalStep(plan, s, r, FilledChunk(plan, n));
      case Post => PostStep(plan, s, r);
      case TakeAck => AckStep(plan, s, r);
      case GetMeta => MetaStep(plan, s, r);
      case CopyCell(k) => CopyStep(plan, s, r, k);
      case CompleteRead => CompleteStep(plan, s, r);
      case FinishRead => FinishOk(plan, r, n); LocalStep(plan, s, r, AfterFinish(n));
      case Hand => HandOk(plan, r, n); LocalStep(plan, s, r, AfterHand(n));
      case EndYield => EndYieldOk(plan, r, n); LocalStep(plan, s, r, AfterYield(n));
    }
    InvIsWellFormed(plan, Apply(plan, s, a));
  }
}
