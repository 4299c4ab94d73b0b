/** What the invariant of the asynchronous handler means for its users. */
module OffloadTheorems {
  import opened Outcomes
  import opened IntMath
  import opened OffloadModel
  import opened OffloadProof

  // ---------------------------------------------------------------- refinement

  ghost predicate SyncInv(led: Ledger, h: SyncHandler) {
    && h.cur == led.cur && h.count == led.count && h.state.Keys == led.live.Keys
    && forall tag :: tag in led.live ==>
         ValueOf(led.live[tag]) == match h.state[tag] case SyncHeld(t) => ValueOf(t) case OnHost(v) => v
  }

  lemma SyncStepSafe(cfg: Config, led: Ledger, h: SyncHandler, e: Event)
    requires OrderInv(cfg, led) && SyncInv(led, h) && Ordered(cfg, led, e)
    ensures SyncStep(cfg, h, e).Ok?
    ensures SyncInv(Record(led, e), SyncStep(cfg, h, e).value.0) && SyncStep(cfg, h, e).value.1 == Answered(led, e)
  {
    if e.PushEvent? { assert Tag(led.cur, led.count) !in led.live; }
  }

  /** The synchronous handler returns what was pushed in every run that respects the order of calls, whatever
      the tensors are. */
  lemma {:induction false} SyncRunSafe(cfg: Config, led: Ledger, h: SyncHandler, events: seq<Event>)
    requires OrderInv(cfg, led) && SyncInv(led, h) && OrderedRun(cfg, led, events)
    ensures SyncRun(cfg, h, events).Ok?
    ensures SyncRun(cfg, h, events).value.1 == Expected(led, events)
    decreases |events|
  {
    hide SyncInv, OrderInv, Ordered, SyncStep, Record, Answered;
    if events != [] {
      OrderStep(cfg, led, events[0]);
      SyncStepSafe(cfg, led, h, events[0]);
      SyncRunSafe(cfg, Record(led, events[0]), SyncStep(cfg, h, events[0]).value.0, events[1..]);
    }
  }

  lemma {:induction false} LegalIsOrdered(cfg: Config, led: Ledger, events: seq<Event>)
    requires LegalRun(cfg, led, events)
    ensures OrderedRun(cfg, led, events)
    decreases |events|
  {
    hide Ordered, Sound, Record;
    if events != [] { LegalIsOrdered(cfg, Record(led, events[0]), events[1..]); }
  }

  /** In every legal run over any number of iterations, the asynchronous handler fails nowhere and gives
      the client exactly the answers of the synchronous one: the same handles, the same tensors. */
  lemma AsyncRefinesSync(cfg: Config, events: seq<Event>)
    requires ValidConfig(cfg) && LegalRun(cfg, EMPTY, events)
    ensures Run(cfg, INITIAL, events).Ok? && SyncRun(cfg, SYNC_INITIAL, events).Ok?
    ensures Run(cfg, INITIAL, events).value.1 == SyncRun(cfg, SYNC_INITIAL, events).value.1
    ensures Run(cfg, INITIAL, events).value.1 == Expected(EMPTY, events)
  {
    InitInv(cfg);
    RunSafe(cfg, EMPTY, INITIAL, events);
    LegalIsOrdered(cfg, EMPTY, events);
    SyncRunSafe(cfg, EMPTY, SYNC_INITIAL, events);
  }

  /** Once every tensor has been popped and the backward pass is back at layer 0, all bookkeeping
      is as it was at the start. */
  lemma CleanAfterIteration(cfg: Config, events: seq<Event>)
    requires ValidConfig(cfg) && LegalRun(cfg, EMPTY, events)
    requires RecordAll(EMPTY, events).cur == 0 && RecordAll(EMPTY, events).live == map[]
    ensures Run(cfg, INITIAL, events).Ok?
    ensures var h := Run(cfg, INITIAL, events).value.0; h == INITIAL.(count := h.count)
  {
    InitInv(cfg);
    RunSafe(cfg, EMPTY, INITIAL, events);
    ReleasedFacts(cfg, 0);
    var led, h := RecordAll(EMPTY, events), Run(cfg, INITIAL, events).value.0;
    assert InvAt(cfg, led, 0, h);
    assert h.buf.Keys == {};
    assert forall g :: g !in h.table;
    assert h.table.Keys == {};
    assert h.state == map[] && h.buf == map[] && h.table == map[];
  }

  // ---------------------------------------------------------------- what a pop gives back

  lemma {:induction false} RecordSnoc(led: Ledger, events: seq<Event>, k: nat)
    requires k < |events|
    ensures RecordAll(led, events[..k + 1]) == Record(RecordAll(led, events[..k]), events[k])
    decreases |events|
  {
    hide Record;
    if k == 0 {
      assert events[..1] == [events[0]] && events[..0] == [];
      assert RecordAll(Record(led, events[0]), events[..1][1..]) == Record(led, events[0]);
    } else {
      RecordSnoc(Record(led, events[0]), events[1..], k - 1);
      assert events[..k + 1][1..] == events[1..][..k] && events[..k][1..] == events[1..][..k - 1];
    }
  }

  /** Every call of an ordered run respects the order, and is answered by what was recorded before it. */
  lemma {:induction false} CallAt(cfg: Config, led: Ledger, events: seq<Event>, k: nat)
    requires OrderedRun(cfg, led, events) && k < |events|
    ensures Ordered(cfg, RecordAll(led, events[..k]), events[k])
    ensures |Expected(led, events)| == |events| && Expected(led, events)[k] == Answered(RecordAll(led, events[..k]), events[k])
    decreases |events|
  {
    hide Record, Ordered, Answered;
    ExpectedLength(led, events);
    if k == 0 {
      assert events[..0] == [];
    } else {
      CallAt(cfg, Record(led, events[0]), events[1..], k - 1);
      assert events[..k][1..] == events[1..][..k - 1];
    }
  }

  lemma {:induction false} ExpectedLength(led: Ledger, events: seq<Event>)
    ensures |Expected(led, events)| == |events|
    decreases |events|
  {
    hide Record, Answered;
    if events != [] { ExpectedLength(Record(led, events[0]), events[1..]); }
  }

  /** Call j pushed a tensor, got the handle `tag`, and the handle has been neither given out again nor popped
      between j and i. */
  ghost predicate PushedAt(events: seq<Event>, answers: seq<Answer>, tag: Tag, j: nat, i: nat) {
    && j < i <= |events| == |answers| && events[j].PushEvent? && answers[j] == Handle(tag)
    && forall k :: j < k < i ==>
         && (events[k].PushEvent? ==> answers[k] != Handle(tag))
         && (events[k].PopEvent? ==> events[k].tag != tag)
  }

  /** Where a recorded tensor comes from. */
  lemma {:induction false} Origin(cfg: Config, events: seq<Event>, tag: Tag, i: nat) returns (j: nat)
    requires OrderedRun(cfg, EMPTY, events) && i <= |events| && tag in RecordAll(EMPTY, events[..i]).live
    ensures PushedAt(events, Expected(EMPTY, events), tag, j, i)
    ensures RecordAll(EMPTY, events[..i]).live[tag] == events[j].tensor
  {
    ExpectedLength(EMPTY, events);
    assert events[..0] == [];
    if 0 < i {
      RecordSnoc(EMPTY, events, i - 1);
      CallAt(cfg, EMPTY, events, i - 1);
      var led := RecordAll(EMPTY, events[..i - 1]);
      if events[i - 1].PushEvent? && Tag(led.cur, led.count) == tag {
        j := i - 1;
      } else {
        j := Origin(cfg, events, tag, i - 1);
      }
    }
  }

  /** Every pop hands back the type, shape and contents of the tensor that was pushed under its handle. */
  ghost predicate GivesBack(events: seq<Event>, answers: seq<Answer>) {
    && |answers| == |events|
    && forall i: nat :: i < |events| && events[i].PopEvent? ==>
         exists j: nat :: PushedAt(events, answers, events[i].tag, j, i) && Same(answers[i], events[j])
  }

  predicate Same(a: Answer, e: Event) {
    a.Contents? && e.PushEvent? && a.value.dtype == e.tensor.dtype && a.value.shape == e.tensor.shape && a.value.flat == e.tensor.flat
  }

  lemma ExpectedGivesBack(cfg: Config, events: seq<Event>)
    requires OrderedRun(cfg, EMPTY, events)
    ensures GivesBack(events, Expected(EMPTY, events))
  {
    var answers := Expected(EMPTY, events);
    ExpectedLength(EMPTY, events);
    forall i: nat | i < |events| && events[i].PopEvent?
      ensures exists j: nat :: PushedAt(events, answers, events[i].tag, j, i) && Same(answers[i], events[j])
    {
      CallAt(cfg, EMPTY, events, i);
      var j := Origin(cfg, events, events[i].tag, i);
      assert Same(answers[i], events[j]);
    }
  }

  /** The synchronous handler gives back what was pushed, in every run that respects the order of calls. */
  lemma SyncGivesBack(cfg: Config, events: seq<Event>)
    requires OrderedRun(cfg, EMPTY, events)
    ensures SyncRun(cfg, SYNC_INITIAL, events).Ok? && GivesBack(events, SyncRun(cfg, SYNC_INITIAL, events).value.1)
  {
    hide GivesBack, OrderedRun, SyncRun, Expected;
    SyncRunSafe(cfg, EMPTY, SYNC_INITIAL, events);
    ExpectedGivesBack(cfg, events);
  }

  /** So does the asynchronous one, in every legal run. */
  lemma AsyncGivesBack(cfg: Config, events: seq<Event>)
    requires ValidConfig(cfg) && LegalRun(cfg, EMPTY, events)
    ensures Run(cfg, INITIAL, events).Ok? && GivesBack(events, Run(cfg, INITIAL, events).value.1)
  {
    hide GivesBack, OrderedRun, LegalRun, Run, SyncRun, Expected;
    AsyncRefinesSync(cfg, events);
    LegalIsOrdered(cfg, EMPTY, events);
    ExpectedGivesBack(cfg, events);
  }

  // ---------------------------------------------------------------- where tensors are

  /** Exactly the groups to be offloaded are on the host. */
  predicate Placed(cfg: Config, h: SyncHandler) {
    forall tag :: tag in h.state ==> (h.state[tag].OnHost? <==> tag.group < cfg.groups)
  }

  /** In every run of the synchronous handler exactly the groups to be offloaded are on the host. */
  lemma {:induction false} SyncPlacement(cfg: Config, h: SyncHandler, events: seq<Event>)
    requires Placed(cfg, h) && SyncRun(cfg, h, events).Ok?
    ensures Placed(cfg, SyncRun(cfg, h, events).value.0)
    decreases |events|
  {
    if events != [] {
      SyncPlacement(cfg, SyncStep(cfg, h, events[0]).value.0, events[1..]);
    }
  }

  /** While a pass goes forward, the buffer keeps the very tensors of every group to be offloaded until the group's
      window closes, so the source of a running copy stays alive; then it lets go of them. */
  lemma CopySourcesKept(cfg: Config, events: seq<Event>, tag: Tag)
    requires ValidConfig(cfg) && LegalRun(cfg, EMPTY, events)
    requires RecordAll(EMPTY, events).forward && tag in RecordAll(EMPTY, events).live && tag.group < cfg.groups
    ensures Run(cfg, INITIAL, events).Ok?
    ensures var led, h := RecordAll(EMPTY, events), Run(cfg, INITIAL, events).value.0;
            && tag in h.buf
            && h.buf[tag] == if Win(cfg, tag.group) < led.cur then None else Some(led.live[tag])
  {
    hide Run, LegalRun, RecordAll, Win;
    InitInv(cfg);
    RunSafe(cfg, EMPTY, INITIAL, events);
    var led := RecordAll(EMPTY, events);
    ReleasedMeaning(cfg, led.cur, cfg.groups);
    hide SlotInv, ReleasedAmong;
  }

  // ---------------------------------------------------------------- device residency

  /** A tag keeps device memory alive while its tensor is in the state or still buffered. */
  predicate IsResident(h: Handler, tag: Tag) {
    tag in h.state && (h.state[tag].Held? || (tag in h.buf && h.buf[tag].Some?))
  }

  ghost function ResidentGroups(h: Handler): set<nat> {
    set tag | tag in h.state && IsResident(h, tag) :: tag.group
  }

  lemma LaggedWindow(cfg: Config, j: nat)
    requires 3 <= cfg.layers && cfg.groups == cfg.layers - 1
    ensures Win(cfg, j) == j + 1
  {
    Unique(cfg.layers, cfg.groups, 1);
  }

  /** With one layer kept back, each window closes one layer after its own group. */
  lemma LaggedWindows(cfg: Config, c: nat)
    requires 3 <= cfg.layers && cfg.groups == cfg.layers - 1 && c <= cfg.layers
    ensures Released(cfg, c) == if c == 0 then 0 else c - 1
  {
    hide Win, ReleasedAmong;
    ReleasedMeaning(cfg, c, cfg.groups);
    var k := Released(cfg, c);
    LaggedWindow(cfg, k);
    if 0 < k { LaggedWindow(cfg, k - 1); }
  }

  /** As configured (all layers but one, at least three layers), at most two groups of activations are
      on the device at any point of any legal run: the current one and the one before it. */
  lemma AtMostTwoResident(cfg: Config, events: seq<Event>)
    requires 3 <= cfg.layers && cfg.groups == cfg.layers - 1 && LegalRun(cfg, EMPTY, events)
    ensures Run(cfg, INITIAL, events).Ok?
    ensures var h := Run(cfg, INITIAL, events).value.0;
            |ResidentGroups(h)| <= 2 && forall g :: g in ResidentGroups(h) ==> g == h.cur || g == h.cur - 1
  {
    hide Inv, LegalRun, Run, RecordAll, IsResident;
    InitInv(cfg);
    RunSafe(cfg, EMPTY, INITIAL, events);
    var led, h := RecordAll(EMPTY, events), Run(cfg, INITIAL, events).value.0;
    ResidentNear(cfg, led, h);
    var two := {led.cur} + if led.cur == 0 then {} else {led.cur - 1};
    assert ResidentGroups(h) <= two;
    CardinalityMonotone(ResidentGroups(h), two);
  }

  lemma ResidentNear(cfg: Config, led: Ledger, h: Handler)
    requires 3 <= cfg.layers && cfg.groups == cfg.layers - 1 && Inv(cfg, led, h)
    ensures h.cur == led.cur
    ensures forall tag :: IsResident(h, tag) ==> tag.group == led.cur || tag.group == led.cur - 1
  {
    LaggedWindows(cfg, led.cur);
    var rel := Released(cfg, led.cur);
    forall tag | IsResident(h, tag) ensures tag.group == led.cur || tag.group == led.cur - 1 {
      assert SlotInv(cfg, led, rel, h, tag);
    }
  }

  lemma {:induction false} CardinalityMonotone<T>(small: set<T>, large: set<T>)
    requires small <= large
    ensures |small| <= |large|
  {
    if small != {} {
      var x :| x in small;
      CardinalityMonotone(small - {x}, large - {x});
    }
  }
}
