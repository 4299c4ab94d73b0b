/** Every legal run of the asynchronous handler succeeds and answers like the ledger. */
module OffloadProof {
  import opened Outcomes
  import opened Shapes
  import opened WindowMap
  import opened OffloadModel

  // ---------------------------------------------------------------- bulk offload and reload

  ghost predicate AllHeld(state: map<Tag, Slot>, g: int) {
    forall tag :: tag in state && tag.group == g ==> state[tag].Held?
  }

  /** The state after the entries of group g in `order` have been moved out. */
  ghost predicate MovedOut(order: seq<Tag>, g: int, state: map<Tag, Slot>, done: map<Tag, Slot>) {
    && done.Keys == state.Keys
    && forall tag :: tag in state ==>
         done[tag] == if tag.group == g && tag in order && state[tag].Held?
                      then Moved(KeyOf(state[tag].tensor), state[tag].tensor.shape) else state[tag]
  }

  ghost predicate IsCopy(state: map<Tag, Slot>, g: int, tag: Tag, key: Key, v: Value) {
    && tag in state && tag.group == g && state[tag].Held?
    && KeyOf(state[tag].tensor) == key && ValueOf(state[tag].tensor) == v
  }

  /** The table holds, for each key of the group, a host copy of one of its tensors. */
  ghost predicate TableOf(order: seq<Tag>, g: int, state: map<Tag, Slot>, m: map<Key, Value>) {
    && (forall tag :: tag in order && tag in state && tag.group == g && state[tag].Held? ==>
          KeyOf(state[tag].tensor) in m)
    && (forall key :: key in m ==> exists tag :: IsCopy(state, g, tag, key, m[key]))
  }

  lemma MovedStep(front: seq<Tag>, tag: Tag, g: int, state: map<Tag, Slot>, done: map<Tag, Slot>)
    requires MovedOut(front, g, state, done) && tag in state && tag !in front && (tag.group == g ==> state[tag].Held?)
    ensures tag in done && done[tag] == state[tag]
    ensures MovedOut(front + [tag], g, state,
                     if tag.group == g then done[tag := Moved(KeyOf(state[tag].tensor), state[tag].tensor.shape)] else done)
  {
    hide KeyOf;
  }

  lemma TableStep(front: seq<Tag>, tag: Tag, g: int, state: map<Tag, Slot>, m: map<Key, Value>)
    requires TableOf(front, g, state, m) && tag in state && (tag.group == g ==> state[tag].Held?)
    ensures TableOf(front + [tag], g, state,
                    if tag.group != g || KeyOf(state[tag].tensor) in m then m
                    else m[KeyOf(state[tag].tensor) := ValueOf(state[tag].tensor)])
  {
    hide KeyOf, ValueOf;
    if tag.group == g && KeyOf(state[tag].tensor) !in m {
      var added := m[KeyOf(state[tag].tensor) := ValueOf(state[tag].tensor)];
      forall key | key in added ensures exists u :: IsCopy(state, g, u, key, added[key]) {
        if key in m {
          var u :| IsCopy(state, g, u, key, m[key]);
          assert IsCopy(state, g, u, key, added[key]);
        } else {
          assert IsCopy(state, g, tag, key, added[key]);
        }
      }
    }
  }

  lemma {:induction false} ScanWorks(order: seq<Tag>, n: nat, g: int, state: map<Tag, Slot>)
    requires n <= |order| && Enumerates(order, state.Keys) && AllHeld(state, g)
    ensures OffloadScan(order, n, g, state).Ok?
    ensures var (done, m) := OffloadScan(order, n, g, state).value;
            MovedOut(order[..n], g, state, done) && TableOf(order[..n], g, state, m)
  {
    hide KeyOf, ValueOf, TableOf, MovedOut;
    if n > 0 {
      ScanWorks(order, n - 1, g, state);
      var (done, m) := OffloadScan(order, n - 1, g, state).value;
      var front, tag := order[..n - 1], order[n - 1];
      assert order[..n] == front + [tag];
      assert tag in state && tag !in front;
      MovedStep(front, tag, g, state, done);
      TableStep(front, tag, g, state, m);
    } else {
      NoTable(g, state);
    }
  }

  lemma NoTable(g: int, state: map<Tag, Slot>)
    ensures TableOf([], g, state, map[]) && MovedOut([], g, state, state)
  {
  }

  /** Row i of the order is the first of its group with this key. */
  ghost predicate FirstWith(order: seq<Tag>, g: int, state: map<Tag, Slot>, key: Key, i: nat) {
    && i < |order| && order[i].group == g && order[i] in state && state[order[i]].Held?
    && KeyOf(state[order[i]].tensor) == key
    && forall k :: 0 <= k < i && order[k].group == g && order[k] in state && state[order[k]].Held? ==>
         KeyOf(state[order[k]].tensor) != key
  }

  /** What the scan has done before entry n. */
  lemma ScanFacts(order: seq<Tag>, n: nat, g: int, state: map<Tag, Slot>)
    requires n < |order| && Enumerates(order, state.Keys) && AllHeld(state, g)
    ensures OffloadScan(order, n, g, state).Ok? && order[n] in state
    ensures var (done, m) := OffloadScan(order, n, g, state).value;
            && order[n] in done && done[order[n]] == state[order[n]]
            && forall k :: 0 <= k < n && order[k].group == g && order[k] in state && state[order[k]].Held? ==>
                 KeyOf(state[order[k]].tensor) in m
  {
    hide KeyOf, OffloadScan, IsCopy;
    ScanWorks(order, n, g, state);
    assert order[n] !in order[..n];
    forall k | 0 <= k < n ensures order[k] in order[..n] {
      assert order[..n][k] == order[k];
    }
  }

  /** Of the tensors that share a key, the first one in the dictionary's order is copied. */
  lemma {:induction false} FirstTensorWins(order: seq<Tag>, n: nat, g: int, state: map<Tag, Slot>, key: Key) returns (i: nat)
    requires n <= |order| && Enumerates(order, state.Keys) && AllHeld(state, g)
    requires OffloadScan(order, n, g, state).Ok? && key in OffloadScan(order, n, g, state).value.1
    ensures i < n && FirstWith(order, g, state, key, i)
    ensures var copy, t := OffloadScan(order, n, g, state).value.1[key], state[order[i]].tensor;
            copy.dtype == t.dtype && copy.shape == t.shape && copy.flat == t.flat
  {
    hide KeyOf, Enumerates;
    ScanFacts(order, n - 1, g, state);
    hide AllHeld;
    if key in OffloadScan(order, n - 1, g, state).value.1 {
      i := FirstTensorWins(order, n - 1, g, state, key);
    } else {
      i := n - 1;
    }
  }

  lemma BulkOffloadWorks(h: Handler, order: seq<Tag>, g: int) returns (h': Handler)
    requires Enumerates(order, h.state.Keys) && AllHeld(h.state, g)
    ensures BulkOffload(h, order, g) == Ok(h')
    ensures h' == h.(state := h'.state, table := h'.table)
    ensures MovedOut(order, g, h.state, h'.state)
    ensures g in h'.table && h'.table == h.table[g := h'.table[g]]
    ensures TableOf(order, g, h.state, h'.table[g])
  {
    ScanWorks(order, |order|, g, h.state);
    assert order[..|order|] == order;
    h' := BulkOffload(h, order, g).value;
  }

  /** Any two tensors of the group with one key have the same flattened contents. */
  ghost predicate Faithful(state: map<Tag, Slot>, g: int) {
    forall s, t :: s in state && t in state && s.group == g && t.group == g && state[s].Held? && state[t].Held? ==>
      Agree(state[s].tensor, state[t].tensor)
  }

  ghost predicate Restored(before: map<Tag, Slot>, g: int, after: Outcome<Handler>) {
    after.Ok? && forall tag :: tag in before && tag.group == g && before[tag].Held? ==>
      && tag in after.value.state && after.value.state[tag].Held?
      && ValueOf(after.value.state[tag].tensor) == ValueOf(before[tag].tensor)
  }

  /** Every table entry of the group comes back with the contents it was moved out with. */
  lemma RecoverFaithful(h: Handler, h1: Handler, order: seq<Tag>, g: int, alloc: Key -> int, tag: Tag)
    requires MovedOut(order, g, h.state, h1.state) && g in h1.table && TableOf(order, g, h.state, h1.table[g])
    requires tag in h.state && tag.group == g && tag in order && h.state[tag].Held? && WellShaped(h.state[tag].tensor)
    requires Faithful(h.state, g)
    ensures var r := Recover(h1.state[tag], h1.table[g], alloc);
            r.Ok? && r.value.Held? && ValueOf(r.value.tensor) == ValueOf(h.state[tag].tensor)
  {
    hide Numel;
    var m, key := h1.table[g], KeyOf(h.state[tag].tensor);
    var u :| IsCopy(h.state, g, u, key, m[key]);
    assert Agree(h.state[u].tensor, h.state[tag].tensor);
  }

  lemma RestoredAgree(cfg: Config, h: Handler, h1: Handler, order: seq<Tag>, g: int, alloc: Key -> int, s: Tag, t: Tag)
    requires MovedOut(order, g, h.state, h1.state) && g in h1.table
    requires Restored(h.state, g, BulkReload(cfg, h1, g, alloc))
    requires s in h.state && t in h.state && s.group == g && t.group == g && s in order && t in order
    requires h.state[s].Held? && h.state[t].Held?
    ensures Agree(h.state[s].tensor, h.state[t].tensor)
  {
    hide Numel;
    var after := BulkReload(cfg, h1, g, alloc);
    assert ValueOf(after.value.state[s].tensor) == ValueOf(h.state[s].tensor);
    assert ValueOf(after.value.state[t].tensor) == ValueOf(h.state[t].tensor);
  }

  /** Moving a whole group out and back restores it exactly when its keys are faithful. */
  lemma DedupIsExact(cfg: Config, h: Handler, order: seq<Tag>, g: int, alloc: Key -> int)
    requires Enumerates(order, h.state.Keys) && AllHeld(h.state, g) && g < cfg.groups
    requires forall tag :: tag in h.state && h.state[tag].Held? ==> WellShaped(h.state[tag].tensor)
    ensures BulkOffload(h, order, g).Ok?
    ensures Restored(h.state, g, BulkReload(cfg, BulkOffload(h, order, g).value, g, alloc)) <==> Faithful(h.state, g)
  {
    hide BulkOffload, Recover, TableOf, Agree, WellShaped, KeyOf;
    var h1 := BulkOffloadWorks(h, order, g);
    if Faithful(h.state, g) {
      forall tag | tag in h.state && tag.group == g
        ensures var r := Recover(h1.state[tag], h1.table[g], alloc);
                r.Ok? && r.value.Held? && ValueOf(r.value.tensor) == ValueOf(h.state[tag].tensor)
      {
        RecoverFaithful(h, h1, order, g, alloc, tag);
      }
    }
    if Restored(h.state, g, BulkReload(cfg, h1, g, alloc)) {
      forall s, t | s in h.state && t in h.state && s.group == g && t.group == g
        ensures Agree(h.state[s].tensor, h.state[t].tensor)
      {
        RestoredAgree(cfg, h, h1, order, g, alloc, s, t);
      }
    }
  }

  // ---------------------------------------------------------------- the invariant

  function Win(cfg: Config, i: nat): int
    requires ValidConfig(cfg)
  {
    Window(cfg.layers, cfg.groups, i)
  }

  /** How many of the first n windows close before layer c. */
  function ReleasedAmong(cfg: Config, c: int, n: nat): nat
    requires ValidConfig(cfg)
  {
    if n == 0 then 0 else if Win(cfg, n - 1) < c then n else ReleasedAmong(cfg, c, n - 1)
  }

  function Released(cfg: Config, c: int): nat
    requires ValidConfig(cfg)
  {
    ReleasedAmong(cfg, c, cfg.groups)
  }

  lemma {:induction false} ReleasedMeaning(cfg: Config, c: int, n: nat)
    requires ValidConfig(cfg) && n <= cfg.groups
    ensures ReleasedAmong(cfg, c, n) <= n
    ensures forall j: nat :: j < n ==> (j < ReleasedAmong(cfg, c, n) <==> Win(cfg, j) < c)
  {
    if n > 0 {
      ReleasedMeaning(cfg, c, n - 1);
      if Win(cfg, n - 1) < c {
        forall j: nat | j < n ensures Win(cfg, j) < c {
          if j < n - 1 { WindowIncreasing(cfg.layers, cfg.groups, j, n - 1); }
        }
      }
    }
  }

  /** A group whose entries are references into the offload table, when `rel` windows have closed. */
  predicate Out(cfg: Config, led: Ledger, rel: nat, g: nat) {
    && g < cfg.groups
    && (g == 0 || cfg.groups < cfg.layers)
    && if led.forward then 0 < led.cur && g <= rel else g < rel
  }

  ghost predicate SlotInv(cfg: Config, led: Ledger, rel: nat, h: Handler, tag: Tag)
    requires tag in led.live && tag in h.state
  {
    var t := led.live[tag];
    if Out(cfg, led, rel, tag.group) then
      && h.state[tag] == Moved(KeyOf(t), t.shape)
      && tag.group in h.table && KeyOf(t) in h.table[tag.group]
      && h.table[tag.group][KeyOf(t)].dtype == t.dtype
      && h.table[tag.group][KeyOf(t)].flat == t.flat
    else
      && h.state[tag].Held?
      && ValueOf(h.state[tag].tensor) == ValueOf(t)
      && (led.forward ==> h.state[tag].tensor == t)
  }

  /** What the order of calls alone guarantees. */
  ghost predicate OrderInv(cfg: Config, led: Ledger) {
    && led.cur <= cfg.layers
    && (forall tag :: tag in led.live ==> tag.group <= led.cur)
    && (led.forward ==> forall tag :: tag in led.live && tag.group == led.cur ==> tag.index < led.count)
  }

  ghost predicate LedgerInv(cfg: Config, led: Ledger) {
    && OrderInv(cfg, led)
    && (forall tag :: tag in led.live ==> WellShaped(led.live[tag]))
    && (forall s, t {:trigger Agree(led.live[s], led.live[t])} ::
          s in led.live && t in led.live && s.group == t.group ==> Agree(led.live[s], led.live[t]))
  }

  ghost predicate CounterInv(led: Ledger, rel: nat, h: Handler) {
    && h.cur == led.cur && h.count == led.count
    && h.offloaded == if led.forward then rel else if led.cur == 0 then 0 else if rel == 0 then 1 else rel
  }

  ghost predicate BufInv(cfg: Config, led: Ledger, rel: nat, h: Handler) {
    && (forall tag :: tag in h.buf <==> tag in led.live && tag.group < cfg.groups)
    && (forall tag :: tag in h.buf ==>
          if tag.group < (if led.forward then rel else cfg.groups) then h.buf[tag].None?
          else h.buf[tag] == Some(led.live[tag]))
  }

  ghost predicate TableInv(cfg: Config, led: Ledger, rel: nat, h: Handler) {
    forall g :: g in h.table <==>
      0 <= g < cfg.groups && if led.forward then 0 < led.cur && g <= rel else g < rel
  }

  ghost predicate InvAt(cfg: Config, led: Ledger, rel: nat, h: Handler) {
    && LedgerInv(cfg, led)
    && CounterInv(led, rel, h)
    && h.state.Keys == led.live.Keys
    && (forall tag {:trigger SlotInv(cfg, led, rel, h, tag)} :: tag in led.live ==> SlotInv(cfg, led, rel, h, tag))
    && BufInv(cfg, led, rel, h)
    && TableInv(cfg, led, rel, h)
  }

  /** The handler's whole state, as a function of what the client did. */
  ghost predicate Inv(cfg: Config, led: Ledger, h: Handler) {
    ValidConfig(cfg) && InvAt(cfg, led, Released(cfg, led.cur), h)
  }

  /** How the number of closed windows starts, ends, and changes from one layer to the next. */
  lemma ReleasedFacts(cfg: Config, c: nat)
    requires ValidConfig(cfg) && c <= cfg.layers
    ensures Released(cfg, 0) == 0 && Released(cfg, cfg.layers) == cfg.groups
    ensures Released(cfg, c) <= cfg.groups && Released(cfg, c) <= c
    ensures 0 < c && cfg.groups < cfg.layers ==> Released(cfg, c) < c
    ensures c < cfg.layers ==> Released(cfg, c) < cfg.groups
    ensures c < cfg.layers ==> c <= Win(cfg, Released(cfg, c))
    ensures c < cfg.layers ==>
              Released(cfg, c + 1) == Released(cfg, c) + if Win(cfg, Released(cfg, c)) == c then 1 else 0
    ensures 0 < Released(cfg, c) ==> Win(cfg, Released(cfg, c) - 1) < c
  {
    var G := cfg.groups;
    ReleasedMeaning(cfg, 0, G);
    ReleasedMeaning(cfg, cfg.layers, G);
    ReleasedMeaning(cfg, c, G);
    ReleasedMeaning(cfg, c + 1, G);
    WindowAhead(cfg.layers, G, 0);
    WindowLast(cfg.layers, G);
    assert Win(cfg, 0) >= 0 && Win(cfg, G - 1) == cfg.layers - 1;
    var k := Released(cfg, c);
    if 0 < k {
      WindowAhead(cfg.layers, G, k - 1);
      assert Win(cfg, k - 1) < c;
    }
    if c < cfg.layers {
      assert k < G && c <= Win(cfg, k);
      if k + 1 < G {
        WindowIncreasing(cfg.layers, G, k, k + 1);
        assert c < Win(cfg, k + 1);
      }
      assert Win(cfg, k) == c || c < Win(cfg, k);
    }
  }

  lemma InitInv(cfg: Config)
    requires ValidConfig(cfg)
    ensures Inv(cfg, EMPTY, INITIAL)
  {
    ReleasedFacts(cfg, 0);
  }

  /** A forward pass begins with nothing outstanding. */
  lemma TurnForward(cfg: Config, led: Ledger, rel: nat, h: Handler)
    requires InvAt(cfg, led, rel, h) && MayForward(led) && (led.cur == 0 ==> rel == 0)
    ensures InvAt(cfg, led.(forward := true), rel, h)
  {
  }

  /** A backward pass begins with every window closed. */
  lemma TurnBackward(cfg: Config, led: Ledger, rel: nat, h: Handler)
    requires ValidConfig(cfg) && InvAt(cfg, led, rel, h) && MayBackward(cfg, led)
    requires led.cur == cfg.layers ==> rel == cfg.groups
    ensures InvAt(cfg, led.(forward := false), rel, h)
  {
    forall tag | tag in led.live ensures SlotInv(cfg, led.(forward := false), rel, h, tag) {
      assert SlotInv(cfg, led, rel, h, tag);
    }
  }

  lemma OrderStep(cfg: Config, led: Ledger, e: Event)
    requires OrderInv(cfg, led) && Ordered(cfg, led, e)
    ensures OrderInv(cfg, Record(led, e))
  {
  }

  /** Legal calls keep the ledger's own invariant. */
  lemma LedgerStep(cfg: Config, led: Ledger, e: Event)
    requires LedgerInv(cfg, led) && Legal(cfg, led, e)
    ensures LedgerInv(cfg, Record(led, e))
  {
    if e.PushEvent? {
      var live := Record(led, e).live;
      var tag := Tag(led.cur, led.count);
      forall s, t | s in live && t in live && s.group == t.group ensures Agree(live[s], live[t]) {
        if s != tag && t != tag { assert Agree(led.live[s], led.live[t]); }
      }
    }
  }

  lemma PushSlots(cfg: Config, led: Ledger, rel: nat, h: Handler, t: Tensor)
    requires InvAt(cfg, led, rel, h) && led.forward && Tag(led.cur, led.count) !in led.live
    requires rel <= led.cur && (0 < led.cur && cfg.groups < cfg.layers ==> rel < led.cur)
    ensures Push(cfg, h, t).Ok?
    ensures var led', h' := Record(led, PushEvent(t)), Push(cfg, h, t).value.0;
            h'.state.Keys == led'.live.Keys && forall u :: u in led'.live ==> SlotInv(cfg, led', rel, h', u)
  {
    assert !Out(cfg, led, rel, led.cur);
    var led' := Record(led, PushEvent(t));
    var h' := Push(cfg, h, t).value.0;
    forall u | u in led'.live ensures SlotInv(cfg, led', rel, h', u) {
      if u in led.live { assert SlotInv(cfg, led, rel, h, u); }
    }
  }

  lemma PushSafe(cfg: Config, led: Ledger, rel: nat, h: Handler, t: Tensor)
    requires InvAt(cfg, led, rel, h) && led.forward && Legal(cfg, led, PushEvent(t))
    requires rel <= led.cur && (0 < led.cur && cfg.groups < cfg.layers ==> rel < led.cur)
    ensures Push(cfg, h, t).Ok?
    ensures Push(cfg, h, t).value.1 == Tag(led.cur, led.count)
    ensures InvAt(cfg, Record(led, PushEvent(t)), rel, Push(cfg, h, t).value.0)
  {
    PushSlots(cfg, led, rel, h, t);
    LedgerStep(cfg, led, PushEvent(t));
  }

  lemma PopSafe(cfg: Config, led: Ledger, rel: nat, h: Handler, tag: Tag)
    requires InvAt(cfg, led, rel, h) && !led.forward && Legal(cfg, led, PopEvent(tag))
    requires rel <= led.cur
    ensures Pop(h, tag).Ok?
    ensures ValueOf(Pop(h, tag).value.1) == ValueOf(led.live[tag])
    ensures InvAt(cfg, Record(led, PopEvent(tag)), rel, Pop(h, tag).value.0)
  {
    assert SlotInv(cfg, led, rel, h, tag);
    LedgerStep(cfg, led, PopEvent(tag));
    var led' := Record(led, PopEvent(tag));
    var h' := Pop(h, tag).value.0;
    forall u | u in led'.live ensures SlotInv(cfg, led', rel, h', u) {
      assert SlotInv(cfg, led, rel, h, u);
    }
  }

  /** Moving a complete group of the ledger out keeps every entry recoverable. */
  lemma MoveOutGroup(cfg: Config, led: Ledger, h: Handler, order: seq<Tag>, g: nat) returns (h': Handler)
    requires LedgerInv(cfg, led) && h.state.Keys == led.live.Keys && Enumerates(order, led.live.Keys)
    requires forall tag :: tag in led.live && tag.group == g ==> h.state[tag] == Held(led.live[tag])
    ensures BulkOffload(h, order, g) == Ok(h')
    ensures h' == h.(state := h'.state, table := h'.table)
    ensures h'.state.Keys == h.state.Keys && g in h'.table && h'.table == h.table[g := h'.table[g]]
    ensures forall tag :: tag in led.live && tag.group != g ==> h'.state[tag] == h.state[tag]
    ensures forall tag :: tag in led.live && tag.group == g ==>
              var t := led.live[tag];
              && h'.state[tag] == Moved(KeyOf(t), t.shape)
              && KeyOf(t) in h'.table[g]
              && h'.table[g][KeyOf(t)].dtype == t.dtype && h'.table[g][KeyOf(t)].flat == t.flat
  {
    h' := BulkOffloadWorks(h, order, g);
    var m := h'.table[g];
    forall tag | tag in led.live && tag.group == g
      ensures KeyOf(led.live[tag]) in m
      ensures m[KeyOf(led.live[tag])].dtype == led.live[tag].dtype && m[KeyOf(led.live[tag])].flat == led.live[tag].flat
    {
      var key := KeyOf(led.live[tag]);
      assert key in m;
      var u :| IsCopy(h.state, g, u, key, m[key]);
      assert Agree(led.live[u], led.live[tag]);
    }
  }

  /** The entries after the first half of a forward commit. */
  lemma StartSlot(cfg: Config, led: Ledger, rel: nat, h: Handler, order: seq<Tag>, h1: Handler, tag: Tag)
    requires 0 < cfg.groups && led.forward && (led.cur == 0 ==> rel == 0)
    requires tag in led.live && tag in h.state && tag in h1.state && SlotInv(cfg, led, rel, h, tag)
    requires led.cur == 0 && tag.group == 0 ==> GroupOut(led, h1, 0)
    requires led.cur == 0 && tag.group != 0 ==> h1.state[tag] == h.state[tag]
    requires led.cur != 0 ==> h1 == h
    ensures SlotInv(cfg, Record(led, ForwardEvent(order)), rel, h1.(cur := h.cur + 1, count := 0), tag)
  {
    hide KeyOf, ValueOf;
  }

  /** The first half of a forward commit: group 0 is moved out at its own commit. */
  lemma StartSafe(cfg: Config, led: Ledger, rel: nat, h: Handler, order: seq<Tag>) returns (h1: Handler)
    requires 0 < cfg.groups && InvAt(cfg, led, rel, h) && led.forward && (led.cur == 0 ==> rel == 0)
    requires Legal(cfg, led, ForwardEvent(order))
    ensures Ok(h1) == if led.cur == 0 then BulkOffload(h, order, 0) else Ok(h)
    ensures InvAt(cfg, Record(led, ForwardEvent(order)), rel, h1.(cur := h.cur + 1, count := 0))
    ensures h1.offloaded == h.offloaded
  {
    hide Enumerates, BulkOffload, LedgerInv, Out, BufInv, TableInv;
    LedgerStep(cfg, led, ForwardEvent(order));
    h1 := h;
    if led.cur == 0 {
      forall tag | tag in led.live ensures h.state[tag] == Held(led.live[tag]) {
        assert SlotInv(cfg, led, rel, h, tag);
        NothingOut(cfg, led, rel, tag.group);
      }
      h1 := MoveOutGroup(cfg, led, h, order, 0);
      assert GroupOut(led, h1, 0);
    }
    hide SlotInv, GroupOut;
    StartMaps(cfg, led, rel, h, order, h1);
    forall tag | tag in led.live
      ensures SlotInv(cfg, Record(led, ForwardEvent(order)), rel, h1.(cur := h.cur + 1, count := 0), tag)
    {
      StartSlot(cfg, led, rel, h, order, h1, tag);
    }
  }

  lemma StartMaps(cfg: Config, led: Ledger, rel: nat, h: Handler, order: seq<Tag>, h1: Handler)
    requires 0 < cfg.groups && led.forward && (led.cur == 0 ==> rel == 0)
    requires BufInv(cfg, led, rel, h) && TableInv(cfg, led, rel, h) && h1.buf == h.buf
    requires if led.cur == 0 then 0 in h1.table && h1.table == h.table[0 := h1.table[0]] else h1.table == h.table
    ensures var led', x := Record(led, ForwardEvent(order)), h1.(cur := h.cur + 1, count := 0);
            BufInv(cfg, led', rel, x) && TableInv(cfg, led', rel, x)
  {
  }

  lemma NothingOut(cfg: Config, led: Ledger, rel: nat, g: nat)
    requires led.forward && led.cur == 0
    ensures !Out(cfg, led, rel, g)
  {
  }

  /** An entry that a step leaves alone keeps its invariant. */
  lemma SlotKept(cfg: Config, led: Ledger, rel: nat, h: Handler, led': Ledger, rel': nat, h': Handler, tag: Tag)
    requires tag in led.live && tag in h.state && SlotInv(cfg, led, rel, h, tag)
    requires tag in led'.live && tag in h'.state && led'.live[tag] == led.live[tag] && led'.forward == led.forward
    requires h'.state[tag] == h.state[tag]
    requires Out(cfg, led, rel, tag.group) == Out(cfg, led', rel', tag.group)
    requires Out(cfg, led, rel, tag.group) ==>
               tag.group in h.table && tag.group in h'.table && h'.table[tag.group] == h.table[tag.group]
    ensures SlotInv(cfg, led', rel', h', tag)
  {
  }

  /** Group g of the ledger is out: every entry refers to a host copy of its contents. */
  ghost predicate GroupOut(led: Ledger, h: Handler, g: nat) {
    forall tag :: tag in led.live && tag.group == g ==>
      var t := led.live[tag];
      && tag in h.state && h.state[tag] == Moved(KeyOf(t), t.shape)
      && g in h.table && KeyOf(t) in h.table[g]
      && h.table[g][KeyOf(t)].dtype == t.dtype && h.table[g][KeyOf(t)].flat == t.flat
  }

  lemma BufAdvance(cfg: Config, led: Ledger, rel: nat, h: Handler, h': Handler)
    requires BufInv(cfg, led, rel, h) && led.forward && h'.buf == FreeGroup(h.buf, rel)
    ensures BufInv(cfg, led, rel + 1, h')
  {
  }

  lemma TableAdvance(cfg: Config, led: Ledger, rel: nat, h: Handler, h': Handler)
    requires TableInv(cfg, led, rel, h) && led.forward && 0 < led.cur && rel < cfg.groups
    requires h'.table.Keys == h.table.Keys + if rel + 1 < cfg.groups then {rel + 1} else {}
    ensures TableInv(cfg, led, rel + 1, h')
  {
  }

  /** What advancing does to each field. */
  lemma AdvanceEffect(cfg: Config, led: Ledger, h: Handler, order: seq<Tag>) returns (h': Handler)
    requires LedgerInv(cfg, led) && h.state.Keys == led.live.Keys && Enumerates(order, led.live.Keys)
    requires 0 <= h.offloaded < cfg.groups
    requires forall tag :: tag in led.live && tag.group == h.offloaded + 1 ==> h.state[tag] == Held(led.live[tag])
    ensures Advance(cfg, h, order) == Ok(h')
    ensures h'.cur == h.cur && h'.count == h.count && h'.offloaded == h.offloaded + 1
    ensures h'.buf == FreeGroup(h.buf, h.offloaded) && h'.state.Keys == h.state.Keys
    ensures h'.table.Keys == h.table.Keys + if h.offloaded + 1 < cfg.groups then {h.offloaded + 1} else {}
    ensures forall g :: g in h.table && g != h.offloaded + 1 ==> h'.table[g] == h.table[g]
    ensures forall tag :: tag in led.live && tag.group != h.offloaded + 1 ==> h'.state[tag] == h.state[tag]
    ensures if h.offloaded + 1 < cfg.groups then GroupOut(led, h', h.offloaded + 1)
            else h'.state == h.state && h'.table == h.table
  {
    var freed := h.(buf := FreeGroup(h.buf, h.offloaded));
    var h2 := freed;
    if h.offloaded < cfg.groups - 1 {
      h2 := MoveOutGroup(cfg, led, freed, order, h.offloaded + 1);
      assert GroupOut(led, h2, h.offloaded + 1);
    }
    h' := h2.(offloaded := h.offloaded + 1);
  }

  lemma AdvanceSlot(cfg: Config, led: Ledger, rel: nat, h: Handler, h': Handler, tag: Tag)
    requires tag in led.live && tag in h.state && tag in h'.state && SlotInv(cfg, led, rel, h, tag)
    requires led.forward && 0 < led.cur && rel < cfg.groups <= cfg.layers
    requires cfg.groups == cfg.layers ==> tag.group != rel + 1
    requires tag.group != rel + 1 ==> h'.state[tag] == h.state[tag]
    requires forall g :: g in h.table && g != rel + 1 ==> g in h'.table && h'.table[g] == h.table[g]
    requires if rel + 1 < cfg.groups then GroupOut(led, h', rel + 1) else h'.state == h.state && h'.table == h.table
    ensures SlotInv(cfg, led, rel + 1, h', tag)
  {
    hide KeyOf, ValueOf;
    if tag.group != rel + 1 {
      SlotKept(cfg, led, rel, h, led, rel + 1, h', tag);
    }
  }

  /** Releasing a group and moving the next one out. */
  lemma AdvanceSafe(cfg: Config, led: Ledger, rel: nat, h: Handler, order: seq<Tag>) returns (h': Handler)
    requires InvAt(cfg, led, rel, h) && led.forward && 0 < led.cur && rel < cfg.groups <= cfg.layers
    requires Enumerates(order, led.live.Keys)
    requires cfg.groups == cfg.layers ==> Drained(led, rel + 1)
    ensures Advance(cfg, h, order) == Ok(h')
    ensures InvAt(cfg, led, rel + 1, h')
  {
    hide Enumerates, Advance, KeyOf, ValueOf, LedgerInv, FreeGroup, GroupOut;
    forall tag | tag in led.live && tag.group == rel + 1 ensures h.state[tag] == Held(led.live[tag]) {
      assert SlotInv(cfg, led, rel, h, tag);
    }
    h' := AdvanceEffect(cfg, led, h, order);
    BufAdvance(cfg, led, rel, h, h');
    TableAdvance(cfg, led, rel, h, h');
    forall tag | tag in led.live ensures SlotInv(cfg, led, rel + 1, h', tag) {
      AdvanceSlot(cfg, led, rel, h, h', tag);
    }
  }

  /** A forward commit at which no window closes. */
  lemma ForwardStays(cfg: Config, led: Ledger, rel: nat, h: Handler, order: seq<Tag>) returns (h': Handler)
    requires ValidConfig(cfg) && InvAt(cfg, led, rel, h) && led.forward && (led.cur == 0 ==> rel == 0)
    requires Legal(cfg, led, ForwardEvent(order)) && rel < cfg.groups && Win(cfg, rel) != led.cur
    ensures CommitForward(cfg, h, order) == Ok(h')
    ensures InvAt(cfg, Record(led, ForwardEvent(order)), rel, h')
  {
    var h1 := StartSafe(cfg, led, rel, h, order);
    h' := h1.(cur := h.cur + 1, count := 0);
  }

  /** A forward commit at which the window of the current offload group closes. */
  lemma ForwardAdvances(cfg: Config, led: Ledger, rel: nat, h: Handler, order: seq<Tag>) returns (h': Handler)
    requires ValidConfig(cfg) && InvAt(cfg, led, rel, h) && led.forward && (led.cur == 0 ==> rel == 0)
    requires Legal(cfg, led, ForwardEvent(order)) && rel < cfg.groups && Win(cfg, rel) == led.cur
    ensures CommitForward(cfg, h, order) == Ok(h')
    ensures InvAt(cfg, Record(led, ForwardEvent(order)), rel + 1, h')
  {
    hide InvAt, CommitForward, Advance, BulkOffload, Enumerates, Drained;
    var led' := Record(led, ForwardEvent(order));
    ForwardCounters(cfg, led, rel, h);
    var h1 := StartSafe(cfg, led, rel, h, order);
    if cfg.groups == cfg.layers {
      WindowAhead(cfg.layers, cfg.groups, rel);
      NothingAbove(cfg, led, rel, h, rel + 1);
    }
    h' := AdvanceSafe(cfg, led', rel, h1.(cur := h.cur + 1, count := 0), order);
    AdvanceCommutes(cfg, h1, order, h.cur + 1);
    CommitAdvances(cfg, h, h1, order);
  }

  lemma ForwardCounters(cfg: Config, led: Ledger, rel: nat, h: Handler)
    requires InvAt(cfg, led, rel, h) && led.forward
    ensures h.cur == led.cur && h.offloaded == rel
  {
  }

  lemma NothingAbove(cfg: Config, led: Ledger, rel: nat, h: Handler, g: nat)
    requires InvAt(cfg, led, rel, h) && led.cur < g
    ensures forall cur, count, forward :: Drained(Ledger(forward, cur, count, led.live), g)
  {
  }

  lemma CommitAdvances(cfg: Config, h: Handler, h1: Handler, order: seq<Tag>)
    requires InWindow(cfg, h.offloaded) && Window(cfg.layers, cfg.groups, h.offloaded) == h.cur
    requires Ok(h1) == if h.cur == 0 then BulkOffload(h, order, 0) else Ok(h)
    requires Advance(cfg, h1, order).Ok?
    ensures CommitForward(cfg, h, order) == Ok(Advance(cfg, h1, order).value.(cur := h.cur + 1, count := 0))
  {
  }

  /** Advancing neither reads nor writes the group counter. */
  lemma AdvanceCommutes(cfg: Config, h: Handler, order: seq<Tag>, cur: int)
    requires Advance(cfg, h.(cur := cur, count := 0), order).Ok?
    ensures Advance(cfg, h, order).Ok?
    ensures Advance(cfg, h.(cur := cur, count := 0), order).value == Advance(cfg, h, order).value.(cur := cur, count := 0)
  {
  }

  /** Reloading a moved group gives back the recorded values. */
  lemma ReloadSafe(cfg: Config, led: Ledger, rel: nat, h: Handler, alloc: Key -> int) returns (h': Handler)
    requires InvAt(cfg, led, rel, h) && !led.forward && 0 < rel <= cfg.groups
    ensures BulkReload(cfg, h, rel - 1, alloc) == Ok(h')
    ensures h' == h.(state := h'.state, table := h.table - {rel - 1})
    ensures h'.state.Keys == h.state.Keys
    ensures forall tag :: tag in led.live ==> SlotInv(cfg, led, rel - 1, h', tag)
  {
    var g := rel - 1;
    var m := h.table[g];
    forall tag | tag in h.state && tag.group == g
      ensures Recover(h.state[tag], m, alloc).Ok? && Recover(h.state[tag], m, alloc).value.Held?
      ensures ValueOf(Recover(h.state[tag], m, alloc).value.tensor) == ValueOf(led.live[tag])
    {
      assert SlotInv(cfg, led, rel, h, tag);
      assert WellShaped(led.live[tag]);
    }
    h' := BulkReload(cfg, h, g, alloc).value;
    forall tag | tag in led.live ensures SlotInv(cfg, led, rel - 1, h', tag) {
      assert SlotInv(cfg, led, rel, h, tag);
    }
  }

  lemma TableShrinks(cfg: Config, led: Ledger, rel: nat, h: Handler, h': Handler)
    requires TableInv(cfg, led, rel, h) && !led.forward && 0 < rel && h'.table == h.table - {rel - 1}
    ensures TableInv(cfg, led, rel - 1, h')
  {
  }

  /** Moving one layer back changes only the counters. */
  lemma StepBack(cfg: Config, led: Ledger, rel: nat, h: Handler, alloc: Key -> int, offloaded: int)
    requires LedgerInv(cfg, led) && Legal(cfg, led, BackwardEvent(alloc)) && !led.forward
    requires h.cur == led.cur && h.count == led.count && h.state.Keys == led.live.Keys
    requires forall tag {:trigger SlotInv(cfg, led, rel, h, tag)} :: tag in led.live ==> SlotInv(cfg, led, rel, h, tag)
    requires BufInv(cfg, led, rel, h) && TableInv(cfg, led, rel, h)
    requires offloaded == if led.cur == 1 then 0 else if rel == 0 then 1 else rel
    ensures InvAt(cfg, Record(led, BackwardEvent(alloc)), rel, h.(cur := h.cur - 1, offloaded := offloaded))
  {
    hide KeyOf, ValueOf, WellShaped, Agree;
    var led' := Record(led, BackwardEvent(alloc));
    var h' := h.(cur := h.cur - 1, offloaded := offloaded);
    LedgerStep(cfg, led, BackwardEvent(alloc));
    forall tag | tag in led'.live ensures SlotInv(cfg, led', rel, h', tag) {
      SlotKept(cfg, led, rel, h, led', rel, h', tag);
    }
  }

  /** A backward commit at which the next group is reloaded. */
  lemma BackwardReloads(cfg: Config, led: Ledger, rel: nat, h: Handler, alloc: Key -> int) returns (h': Handler)
    requires ValidConfig(cfg) && InvAt(cfg, led, rel, h) && !led.forward && 0 < rel <= cfg.groups
    requires Legal(cfg, led, BackwardEvent(alloc)) && Win(cfg, rel - 1) == led.cur - 1
    ensures CommitBackward(cfg, h, alloc) == Ok(h')
    ensures InvAt(cfg, Record(led, BackwardEvent(alloc)), rel - 1, h')
  {
    hide SlotInv, LedgerInv, BulkReload;
    var h1 := ReloadSafe(cfg, led, rel, h, alloc);
    TableShrinks(cfg, led, rel, h, h1);
    var offloaded := if led.cur == 1 then 0 else if rel > 1 then rel - 1 else 1;
    h' := h1.(cur := h.cur - 1, offloaded := offloaded);
    StepBack(cfg, led, rel - 1, h1, alloc, offloaded);
  }

  /** A backward commit at which nothing is reloaded. */
  lemma BackwardStays(cfg: Config, led: Ledger, rel: nat, h: Handler, alloc: Key -> int) returns (h': Handler)
    requires ValidConfig(cfg) && InvAt(cfg, led, rel, h) && !led.forward && rel <= cfg.groups
    requires Legal(cfg, led, BackwardEvent(alloc)) && Win(cfg, if rel == 0 then 0 else rel - 1) != led.cur - 1
    ensures CommitBackward(cfg, h, alloc) == Ok(h')
    ensures InvAt(cfg, Record(led, BackwardEvent(alloc)), rel, h')
  {
    var offloaded := if led.cur == 1 then 0 else if rel == 0 then 1 else rel;
    h' := h.(cur := h.cur - 1, offloaded := offloaded);
    StepBack(cfg, led, rel, h, alloc, offloaded);
  }

  // ---------------------------------------------------------------- whole runs

  lemma PushStep(cfg: Config, led: Ledger, h: Handler, t: Tensor)
    requires Inv(cfg, led, h) && Legal(cfg, led, PushEvent(t))
    ensures Push(cfg, h, t).Ok? && Push(cfg, h, t).value.1 == Tag(led.cur, led.count)
    ensures Inv(cfg, Record(led, PushEvent(t)), Push(cfg, h, t).value.0)
  {
    var rel := Released(cfg, led.cur);
    ReleasedFacts(cfg, led.cur);
    TurnForward(cfg, led, rel, h);
    PushSafe(cfg, led.(forward := true), rel, h, t);
  }

  lemma PopStep(cfg: Config, led: Ledger, h: Handler, tag: Tag)
    requires Inv(cfg, led, h) && Legal(cfg, led, PopEvent(tag))
    ensures Pop(h, tag).Ok? && ValueOf(Pop(h, tag).value.1) == ValueOf(led.live[tag])
    ensures Inv(cfg, Record(led, PopEvent(tag)), Pop(h, tag).value.0)
  {
    var rel := Released(cfg, led.cur);
    ReleasedFacts(cfg, led.cur);
    TurnBackward(cfg, led, rel, h);
    PopSafe(cfg, led.(forward := false), rel, h, tag);
  }

  lemma ForwardStep(cfg: Config, led: Ledger, h: Handler, order: seq<Tag>)
    requires Inv(cfg, led, h) && Legal(cfg, led, ForwardEvent(order))
    ensures CommitForward(cfg, h, order).Ok?
    ensures Inv(cfg, Record(led, ForwardEvent(order)), CommitForward(cfg, h, order).value)
  {
    var rel := Released(cfg, led.cur);
    ReleasedFacts(cfg, led.cur);
    TurnForward(cfg, led, rel, h);
    if Win(cfg, rel) == led.cur {
      var _ := ForwardAdvances(cfg, led.(forward := true), rel, h, order);
    } else {
      var _ := ForwardStays(cfg, led.(forward := true), rel, h, order);
    }
  }

  lemma BackwardStep(cfg: Config, led: Ledger, h: Handler, alloc: Key -> int)
    requires Inv(cfg, led, h) && Legal(cfg, led, BackwardEvent(alloc))
    ensures CommitBackward(cfg, h, alloc).Ok?
    ensures Inv(cfg, Record(led, BackwardEvent(alloc)), CommitBackward(cfg, h, alloc).value)
  {
    hide CommitBackward, SlotInv, BufInv, TableInv, Window;
    var rel := Released(cfg, led.cur);
    ReleasedFacts(cfg, led.cur);
    ReleasedFacts(cfg, led.cur - 1);
    TurnBackward(cfg, led, rel, h);
    if 0 < rel && Win(cfg, rel - 1) == led.cur - 1 {
      var _ := BackwardReloads(cfg, led.(forward := false), rel, h, alloc);
    } else {
      var _ := BackwardStays(cfg, led.(forward := false), rel, h, alloc);
    }
  }

  /** One legal call: it succeeds, answers like the ledger, and keeps the invariant. */
  lemma StepSafe(cfg: Config, led: Ledger, h: Handler, e: Event)
    requires Inv(cfg, led, h) && Legal(cfg, led, e)
    ensures Step(cfg, h, e).Ok?
    ensures Inv(cfg, Record(led, e), Step(cfg, h, e).value.0)
    ensures Step(cfg, h, e).value.1 == Answered(led, e)
  {
    match e
    case PushEvent(t) => PushStep(cfg, led, h, t);
    case PopEvent(tag) => PopStep(cfg, led, h, tag);
    case ForwardEvent(order) => ForwardStep(cfg, led, h, order);
    case BackwardEvent(alloc) => BackwardStep(cfg, led, h, alloc);
  }

  /** Every legal run of any length: no call fails, every pop returns the pushed value,
      and the state stays as the invariant describes it. */
  lemma {:induction false} RunSafe(cfg: Config, led: Ledger, h: Handler, events: seq<Event>)
    requires Inv(cfg, led, h) && LegalRun(cfg, led, events)
    ensures Run(cfg, h, events).Ok?
    ensures Inv(cfg, RecordAll(led, events), Run(cfg, h, events).value.0)
    ensures Run(cfg, h, events).value.1 == Expected(led, events)
    decreases |events|
  {
    if events != [] {
      StepSafe(cfg, led, h, events[0]);
      RunSafe(cfg, Record(led, events[0]), Step(cfg, h, events[0]).value.0, events[1..]);
    }
  }
}
