/** Value-level model of the activation offload handlers: tensors, the asynchronous handler's
    state and steps, the synchronous handler, and the ledger of what a client pushed. */
module OffloadModel {
  import opened Outcomes
  import opened Shapes
  import opened WindowMap

  datatype Dtype = Dtype(name: string, itemsize: nat)

  /** A block of device memory, in bytes. */
  datatype Storage = Storage(ptr: int, bytes: nat)

  /** A device tensor: its storage, where in it the tensor starts (in elements), and its logical contents. */
  datatype Tensor = Tensor(storage: Storage, offset: nat, dtype: Dtype, shape: seq<nat>, flat: seq<int>)

  /** What a caller observes of a tensor, wherever it is stored; also a host copy. */
  datatype Value = Value(dtype: Dtype, shape: seq<nat>, flat: seq<int>)

  datatype Key = Key(address: int, dtype: Dtype)

  datatype Tag = Tag(group: nat, index: nat)

  predicate WellShaped(t: Tensor) {
    |t.flat| == Numel(t.shape)
  }

  /** The deduplication key: pointer (in bytes) plus offset (in elements), and element type. */
  function KeyOf(t: Tensor): Key {
    Key(t.storage.ptr + t.offset, t.dtype)
  }

  function ValueOf(t: Tensor): Value {
    Value(t.dtype, t.shape, t.flat)
  }

  /** Copying a host value back allocates fresh device storage at `address`. */
  function Reload(v: Value, address: int): Tensor {
    Tensor(Storage(address, |v.flat| * v.dtype.itemsize), 0, v.dtype, v.shape, v.flat)
  }

  /** Reshaping fails unless the element counts agree. */
  function View(t: Tensor, shape: seq<nat>): Outcome<Tensor> {
    if Numel(shape) == |t.flat| then Ok(t.(shape := shape)) else Crash
  }

  /** A dictionary entry: the tensor itself, or a reference into the group's offload table. */
  datatype Slot = Held(tensor: Tensor) | Moved(key: Key, shape: seq<nat>)

  datatype Config = Config(layers: nat, groups: nat)

  predicate ValidConfig(cfg: Config) {
    1 <= cfg.groups <= cfg.layers
  }

  /** The fields of the asynchronous handler. */
  datatype Handler = Handler(
    cur: int,
    count: nat,
    state: map<Tag, Slot>,
    buf: map<Tag, Option<Tensor>>,
    offloaded: int,
    table: map<int, map<Key, Value>>)

  const INITIAL := Handler(0, 0, map[], map[], 0, map[])

  /** `order` lists every key exactly once: one possible iteration order of a dictionary. */
  ghost predicate Enumerates<T(!new)>(order: seq<T>, keys: set<T>) {
    && (forall x :: x in keys <==> x in order)
    && (forall i, j :: 0 <= i < j < |order| ==> order[i] != order[j])
  }

  // ---------------------------------------------------------------- the asynchronous handler

  function Push(cfg: Config, h: Handler, t: Tensor): Outcome<(Handler, Tag)> {
    if h.cur < 0 then Crash else
    var tag := Tag(h.cur, h.count);
    if tag in h.state then Crash else
    Ok((h.(count := h.count + 1,
           state := h.state[tag := Held(t)],
           buf := if h.cur < cfg.groups then h.buf[tag := Some(t)] else h.buf),
        tag))
  }

  function Pop(h: Handler, tag: Tag): Outcome<(Handler, Tensor)> {
    if tag in h.state && h.state[tag].Held? then
      Ok((h.(state := h.state - {tag}, buf := h.buf - {tag}), h.state[tag].tensor))
    else
      Crash
  }

  /** The offload table after the first n dictionary entries: the first tensor met for each key. */
  function OffloadScan(order: seq<Tag>, n: nat, g: int, state: map<Tag, Slot>)
    : Outcome<(map<Tag, Slot>, map<Key, Value>)>
    requires n <= |order|
  {
    if n == 0 then Ok((state, map[])) else
    var (done, m) :- OffloadScan(order, n - 1, g, state);
    var tag := order[n - 1];
    if tag.group != g then Ok((done, m))
    else if tag !in done || done[tag].Moved? then Crash
    else
      var t := done[tag].tensor;
      Ok((done[tag := Moved(KeyOf(t), t.shape)],
          if KeyOf(t) in m then m else m[KeyOf(t) := ValueOf(t)]))
  }

  function BulkOffload(h: Handler, order: seq<Tag>, g: int): Outcome<Handler> {
    var (state, m) :- OffloadScan(order, |order|, g, h.state);
    Ok(h.(state := state, table := h.table[g := m]))
  }

  /** What reloading makes of one entry of the reloaded group. */
  function Recover(slot: Slot, m: map<Key, Value>, alloc: Key -> int): Outcome<Slot> {
    match slot
    case Held(_) => Ok(slot)
    case Moved(key, shape) =>
      if key !in m then Crash else
      var t :- View(Reload(m[key], alloc(key)), shape);
      Ok(Held(t))
  }

  function BulkReload(cfg: Config, h: Handler, g: int, alloc: Key -> int): Outcome<Handler> {
    if g >= cfg.groups || g !in h.table then Crash else
    var m := h.table[g];
    if exists tag :: tag in h.state && tag.group == g && Recover(h.state[tag], m, alloc).Crash? then Crash else
    Ok(h.(state := map tag | tag in h.state ::
                     if tag.group == g then Recover(h.state[tag], m, alloc).value else h.state[tag],
          table := h.table - {g}))
  }

  function FreeGroup(buf: map<Tag, Option<Tensor>>, g: int): map<Tag, Option<Tensor>> {
    map tag | tag in buf :: if tag.group == g then None else buf[tag]
  }

  predicate InWindow(cfg: Config, i: int) {
    0 <= i < cfg.groups
  }

  function CommitForward(cfg: Config, h: Handler, order: seq<Tag>): Outcome<Handler> {
    var h1 :- if h.cur == 0 then BulkOffload(h, order, 0) else Ok(h);
    if !InWindow(cfg, h.offloaded) then Crash else
    var h2 :- if Window(cfg.layers, cfg.groups, h.offloaded) == h.cur then Advance(cfg, h1, order) else Ok(h1);
    Ok(h2.(cur := h.cur + 1, count := 0))
  }

  /** Release the current offload group and start on the next one. */
  function Advance(cfg: Config, h: Handler, order: seq<Tag>): Outcome<Handler> {
    var freed := h.(buf := FreeGroup(h.buf, h.offloaded));
    var h2 :- if h.offloaded < cfg.groups - 1 then BulkOffload(freed, order, h.offloaded + 1) else Ok(freed);
    Ok(h2.(offloaded := h.offloaded + 1))
  }

  function CommitBackward(cfg: Config, h: Handler, alloc: Key -> int): Outcome<Handler> {
    var cur := h.cur - 1;
    if cur < 0 || !InWindow(cfg, h.offloaded - 1) then Crash else
    var h1 :- if Window(cfg.layers, cfg.groups, h.offloaded - 1) == cur
              then BulkReload(cfg, h, h.offloaded - 1, alloc) else Ok(h);
    var less := if Window(cfg.layers, cfg.groups, h.offloaded - 1) == cur && h.offloaded > 1 then 1 else 0;
    Ok(h1.(cur := cur, offloaded := if cur == 0 then 0 else h.offloaded - less))
  }

  // ---------------------------------------------------------------- what the client did

  /** A client call. `order` is the iteration order of the dictionary and `alloc` the address
      the allocator gives each reloaded storage: both are arbitrary. */
  datatype Event =
    | PushEvent(tensor: Tensor)
    | PopEvent(tag: Tag)
    | ForwardEvent(order: seq<Tag>)
    | BackwardEvent(alloc: Key -> int)

  /** The client's view: pass, current group, tensors of the group, and everything pushed and not yet popped. */
  datatype Ledger = Ledger(forward: bool, cur: nat, count: nat, live: map<Tag, Tensor>)

  const EMPTY := Ledger(true, 0, 0, map[])

  /** Equal keys mean equal flattened contents. */
  predicate Agree(s: Tensor, t: Tensor) {
    KeyOf(s) == KeyOf(t) ==> s.flat == t.flat
  }

  predicate Drained(led: Ledger, g: nat) {
    forall tag :: tag in led.live ==> tag.group != g
  }

  predicate MayForward(led: Ledger) {
    led.forward || (led.cur == 0 && led.live == map[])
  }

  predicate MayBackward(cfg: Config, led: Ledger) {
    !led.forward || led.cur == cfg.layers
  }

  /** The order of calls that autograd imposes: layer by layer forward, then layer by layer backward,
      each tensor popped in its own group's backward phase. */
  predicate Ordered(cfg: Config, led: Ledger, e: Event) {
    match e
    case PushEvent(_) => MayForward(led)
    case PopEvent(tag) => MayBackward(cfg, led) && tag in led.live && tag.group == led.cur
    case ForwardEvent(_) => MayForward(led) && led.cur < cfg.layers
    case BackwardEvent(_) => MayBackward(cfg, led) && 0 < led.cur && Drained(led, led.cur)
  }

  /** What the asynchronous handler needs besides: tensors whose shape fits their contents and whose key does
      not stand for other contents of the group; and the dictionary's own iteration order. */
  ghost predicate Sound(led: Ledger, e: Event) {
    match e
    case PushEvent(t) =>
      WellShaped(t) && forall tag :: tag in led.live && tag.group == led.cur ==> Agree(led.live[tag], t)
    case ForwardEvent(order) => Enumerates(order, led.live.Keys)
    case _ => true
  }

  ghost predicate Legal(cfg: Config, led: Ledger, e: Event) {
    Ordered(cfg, led, e) && Sound(led, e)
  }

  function Record(led: Ledger, e: Event): Ledger {
    match e
    case PushEvent(t) => Ledger(true, led.cur, led.count + 1, led.live[Tag(led.cur, led.count) := t])
    case PopEvent(tag) => led.(forward := false, live := led.live - {tag})
    case ForwardEvent(_) => Ledger(true, led.cur + 1, 0, led.live)
    case BackwardEvent(_) => led.(forward := false, cur := if led.cur > 0 then led.cur - 1 else 0)
  }

  ghost predicate LegalRun(cfg: Config, led: Ledger, events: seq<Event>)
    decreases |events|
  {
    events == [] || (Legal(cfg, led, events[0]) && LegalRun(cfg, Record(led, events[0]), events[1..]))
  }

  ghost predicate OrderedRun(cfg: Config, led: Ledger, events: seq<Event>)
    decreases |events|
  {
    events == [] || (Ordered(cfg, led, events[0]) && OrderedRun(cfg, Record(led, events[0]), events[1..]))
  }

  /** What a call hands back to the client. */
  datatype Answer = Nothing | Handle(tag: Tag) | Contents(value: Value)

  /** The answer of a store that simply returns what was pushed. */
  function Answered(led: Ledger, e: Event): Answer {
    match e
    case PushEvent(_) => Handle(Tag(led.cur, led.count))
    case PopEvent(tag) => if tag in led.live then Contents(ValueOf(led.live[tag])) else Nothing
    case _ => Nothing
  }

  function Expected(led: Ledger, events: seq<Event>): seq<Answer>
    decreases |events|
  {
    if events == [] then [] else [Answered(led, events[0])] + Expected(Record(led, events[0]), events[1..])
  }

  function Step(cfg: Config, h: Handler, e: Event): Outcome<(Handler, Answer)> {
    match e
    case PushEvent(t) => var (h', tag) :- Push(cfg, h, t); Ok((h', Handle(tag)))
    case PopEvent(tag) => var (h', t) :- Pop(h, tag); Ok((h', Contents(ValueOf(t))))
    case ForwardEvent(order) => var h' :- CommitForward(cfg, h, order); Ok((h', Nothing))
    case BackwardEvent(alloc) => var h' :- CommitBackward(cfg, h, alloc); Ok((h', Nothing))
  }

  function Run(cfg: Config, h: Handler, events: seq<Event>): Outcome<(Handler, seq<Answer>)>
    decreases |events|
  {
    if events == [] then Ok((h, [])) else
    var (h1, a) :- Step(cfg, h, events[0]);
    var (h2, rest) :- Run(cfg, h1, events[1..]);
    Ok((h2, [a] + rest))
  }

  function RecordAll(led: Ledger, events: seq<Event>): Ledger
    decreases |events|
  {
    if events == [] then led else RecordAll(Record(led, events[0]), events[1..])
  }

  // ---------------------------------------------------------------- the synchronous handler

  datatype SyncSlot = SyncHeld(tensor: Tensor) | OnHost(host: Value)

  datatype SyncHandler = SyncHandler(cur: int, count: nat, state: map<Tag, SyncSlot>)

  const SYNC_INITIAL := SyncHandler(0, 0, map[])

  function SyncStep(cfg: Config, h: SyncHandler, e: Event): Outcome<(SyncHandler, Answer)> {
    match e
    case PushEvent(t) =>
      if h.cur < 0 || Tag(h.cur, h.count) in h.state then Crash else
      var slot := if h.cur < cfg.groups then OnHost(ValueOf(t)) else SyncHeld(t);
      Ok((h.(count := h.count + 1, state := h.state[Tag(h.cur, h.count) := slot]), Handle(Tag(h.cur, h.count))))
    case PopEvent(tag) =>
      if tag !in h.state then Crash else
      var v := match h.state[tag] case SyncHeld(t) => ValueOf(t) case OnHost(v) => v;
      Ok((h.(state := h.state - {tag}), Contents(v)))
    case ForwardEvent(_) => Ok((h.(cur := h.cur + 1, count := 0), Nothing))
    case BackwardEvent(_) => if h.cur - 1 < 0 then Crash else Ok((h.(cur := h.cur - 1), Nothing))
  }

  function SyncRun(cfg: Config, h: SyncHandler, events: seq<Event>): Outcome<(SyncHandler, seq<Answer>)>
    decreases |events|
  {
    if events == [] then Ok((h, [])) else
    var (h1, a) :- SyncStep(cfg, h, events[0]);
    var (h2, rest) :- SyncRun(cfg, h1, events[1..]);
    Ok((h2, [a] + rest))
  }
}
