/** The asynchronous offload handler as an object whose methods update its dictionaries and counters. */
module OffloadHandler {
  import opened Outcomes
  import opened WindowMap
  import opened OffloadModel
  import opened OffloadProof

  /** What a push returns: a tag, or, for a tensor that is not tracked, the tensor itself. */
  datatype Saved = Tracked(tag: Tag) | Untracked(tensor: Tensor)

  predicate Distinct(order: seq<Tag>) {
    forall i, j :: 0 <= i < j < |order| ==> order[i] != order[j]
  }

  lemma AppendKey(order: seq<Tag>, keys: set<Tag>, tag: Tag)
    requires Enumerates(order, keys) && tag !in keys
    ensures Enumerates(order + [tag], keys + {tag})
  {
  }

  function HostCopies(m: map<Key, Tensor>): map<Key, Value> {
    map key | key in m :: ValueOf(m[key])
  }

  /** Copy every entry to the host. */
  method HostAll(m: map<Key, Tensor>) returns (hosted: map<Key, Value>)
    ensures hosted == HostCopies(m)
  {
    hosted := map[];
    var todo := m.Keys;
    while todo != {}
      invariant todo <= m.Keys
      invariant hosted == map key | key in m && key !in todo :: ValueOf(m[key])
      decreases todo
    {
      var key :| key in todo;
      hosted := hosted[key := ValueOf(m[key])];
      todo := todo - {key};
    }
  }

  lemma {:induction false} ScanPrefix(order: seq<Tag>, n: nat, k: nat, g: int, state: map<Tag, Slot>)
    requires k <= n <= |order| && OffloadScan(order, n, g, state).Ok?
    ensures OffloadScan(order, k, g, state).Ok?
    decreases n
  {
    if k < n { ScanPrefix(order, n - 1, k, g, state); }
  }

  class AsyncDoubleBufferGroupOffloadHandler {
    const numOffloadGroup: nat
    const numLayers: nat
    var layerWindowMap: map<nat, int>
    var currentGroup: int
    var tensorCountCurrentGroup: nat
    var tensorTagToState: map<Tag, Slot>
    var tags: seq<Tag> // insertion order of the keys of tensorTagToState
    var tensorTagToBuf: map<Tag, Option<Tensor>>
    var offloadedGroupCount: int
    var groupOffloadMapping: map<int, map<Key, Value>>

    /** What the client has pushed and not yet popped, and how far it has got. */
    ghost var ledger: Ledger

    ghost function Cfg(): Config {
      Config(numLayers, numOffloadGroup)
    }

    ghost function State(): Handler
      reads this
    {
      Handler(currentGroup, tensorCountCurrentGroup, tensorTagToState, tensorTagToBuf, offloadedGroupCount,
              groupOffloadMapping)
    }

    /** The window map is the closed form and `tags` is the iteration order of the state dictionary. */
    ghost predicate Fields()
      reads this
    {
      && Enumerates(tags, tensorTagToState.Keys)
      && (forall i :: i in layerWindowMap <==> 0 <= i < numOffloadGroup)
      && (forall i :: 0 <= i < numOffloadGroup ==> layerWindowMap[i] == Window(numLayers, numOffloadGroup, i))
    }

    ghost predicate Valid()
      reads this
    {
      Fields() && Inv(Cfg(), ledger, State())
    }

    constructor (numOffloadGroup: nat, numModelGroup: nat)
      requires 1 <= numOffloadGroup <= numModelGroup
      ensures Valid() && ledger == EMPTY && State() == INITIAL
      ensures this.numOffloadGroup == numOffloadGroup && numLayers == numModelGroup
    {
      this.numOffloadGroup := numOffloadGroup;
      numLayers := numModelGroup;
      currentGroup, tensorCountCurrentGroup := 0, 0;
      tensorTagToState, tags, tensorTagToBuf := map[], [], map[];
      offloadedGroupCount := 0;
      groupOffloadMapping := map[];
      ledger := EMPTY;
      var window := BuildWindowMap(numModelGroup, numOffloadGroup);
      layerWindowMap := window;
      new;
      InitInv(Cfg());
    }

    /** Record a tensor under the next tag of the current group. */
    method Store(tensor: Tensor) returns (tag: Tag)
      requires Fields() && Push(Cfg(), State(), tensor).Ok?
      modifies this`tensorCountCurrentGroup, this`tensorTagToState, this`tags, this`tensorTagToBuf
      ensures Fields() && Push(Cfg(), old(State()), tensor) == Ok((State(), tag))
    {
      tag := Tag(currentGroup, tensorCountCurrentGroup);
      tensorCountCurrentGroup := tensorCountCurrentGroup + 1;
      assert tag !in tensorTagToState;
      AppendKey(tags, tensorTagToState.Keys, tag);
      tensorTagToState := tensorTagToState[tag := Held(tensor)];
      tags := tags + [tag];
      if currentGroup < numOffloadGroup {
        tensorTagToBuf := tensorTagToBuf[tag := Some(tensor)];
      }
      assert tensorTagToState.Keys == old(tensorTagToState.Keys) + {tag};
    }

    /** A stray or filtered tensor is its own handle; any other is recorded under the next tag. */
    method TensorPush(tensor: Tensor, needOffload: bool) returns (saved: Saved)
      requires Valid() && (needOffload ==> Legal(Cfg(), ledger, PushEvent(tensor)))
      modifies this
      ensures Valid()
      ensures needOffload ==>
                saved == Tracked(Tag(old(ledger).cur, old(ledger).count)) && ledger == Record(old(ledger), PushEvent(tensor))
      ensures !needOffload ==> saved == Untracked(tensor) && unchanged(this)
    {
      hide Inv, Legal, Push, Enumerates;
      if needOffload {
        PushStep(Cfg(), ledger, State(), tensor);
        var tag := Store(tensor);
        ledger := Record(ledger, PushEvent(tensor));
        saved := Tracked(tag);
      } else {
        saved := Untracked(tensor);
      }
    }

    /** Remove a tag from both dictionaries and return its tensor. */
    method Take(tag: Tag) returns (tensor: Tensor)
      requires Fields() && Pop(State(), tag).Ok?
      modifies this`tensorTagToState, this`tags, this`tensorTagToBuf
      ensures Fields() && Pop(old(State()), tag) == Ok((State(), tensor))
    {
      assert tag in tensorTagToState;
      var state := tensorTagToState[tag];
      tensorTagToState := tensorTagToState - {tag};
      tags := Without(tags, tag);
      tensorTagToBuf := tensorTagToBuf - {tag};
      assert state.Held?;
      tensor := state.tensor;
    }

    /** A pop returns the contents that were pushed. */
    method TensorPop(saved: Saved) returns (tensor: Tensor)
      requires Valid() && (saved.Tracked? ==> Legal(Cfg(), ledger, PopEvent(saved.tag)))
      modifies this
      ensures Valid()
      ensures saved.Tracked? ==>
                && ledger == Record(old(ledger), PopEvent(saved.tag))
                && var pushed := old(ledger).live[saved.tag];
                   tensor.dtype == pushed.dtype && tensor.shape == pushed.shape && tensor.flat == pushed.flat
      ensures saved.Untracked? ==> tensor == saved.tensor && unchanged(this)
    {
      hide Inv, Legal, Pop, Enumerates;
      match saved
      case Untracked(t) => tensor := t;
      case Tracked(tag) =>
        PopStep(Cfg(), ledger, State(), tag);
        tensor := Take(tag);
        ledger := Record(ledger, PopEvent(tag));
    }

    /** The iteration order of a dictionary after one key is deleted. */
    static function Without(order: seq<Tag>, tag: Tag): (r: seq<Tag>)
      ensures forall x :: x in r <==> x in order && x != tag
      ensures Distinct(order) ==> Distinct(r)
    {
      if order == [] then [] else
      var rest := Without(order[1..], tag);
      assert order == [order[0]] + order[1..];
      assert forall x :: x in order <==> x == order[0] || x in order[1..];
      assert Distinct(order) ==> order[0] !in order[1..] && Distinct(order[1..]);
      if order[0] == tag then rest else [order[0]] + rest
    }

    method BulkOffloadGroup(groupToOffload: int)
      requires Fields() && BulkOffload(State(), tags, groupToOffload).Ok?
      modifies this`tensorTagToState, this`groupOffloadMapping
      ensures Fields() && State() == BulkOffload(old(State()), tags, groupToOffload).value
    {
      ghost var before := tensorTagToState;
      var offloadMapping: map<Key, Tensor> := map[];
      for i := 0 to |tags|
        invariant tensorTagToState.Keys == before.Keys
        invariant OffloadScan(tags, i, groupToOffload, before) == Ok((tensorTagToState, HostCopies(offloadMapping)))
        invariant groupOffloadMapping == old(groupOffloadMapping)
      {
        ScanPrefix(tags, |tags|, i + 1, groupToOffload, before);
        var tag := tags[i];
        if tag.group == groupToOffload {
          var state := tensorTagToState[tag];
          assert state.Held?;
          var key := KeyOf(state.tensor);
          if key !in offloadMapping {
            ghost var copies := HostCopies(offloadMapping);
            offloadMapping := offloadMapping[key := state.tensor];
            assert HostCopies(offloadMapping) == copies[key := ValueOf(state.tensor)];
          }
          tensorTagToState := tensorTagToState[tag := Moved(key, state.tensor.shape)];
        }
      }
      var hosted := HostAll(offloadMapping);
      groupOffloadMapping := groupOffloadMapping[groupToOffload := hosted];
    }

    method SynchronizeOnGroupCommitForward(group: int)
      requires Fields() && group == currentGroup && CommitForward(Cfg(), State(), tags).Ok?
      modifies this`tensorTagToState, this`groupOffloadMapping, this`tensorTagToBuf, this`offloadedGroupCount
      ensures Fields()
      ensures CommitForward(Cfg(), old(State()), tags) == Ok(State().(cur := currentGroup + 1, count := 0))
    {
      if group == 0 {
        BulkOffloadGroup(group);
      }
      assert offloadedGroupCount in layerWindowMap;
      if layerWindowMap[offloadedGroupCount] == group {
        FreeBuffers();
        if offloadedGroupCount < numOffloadGroup - 1 {
          BulkOffloadGroup(offloadedGroupCount + 1);
        }
        offloadedGroupCount := offloadedGroupCount + 1;
      }
    }

    /** Drop the device references of the group that has just been released. */
    method FreeBuffers()
      modifies this`tensorTagToBuf
      ensures tensorTagToBuf == FreeGroup(old(tensorTagToBuf), offloadedGroupCount)
    {
      ghost var before := tensorTagToBuf;
      var todo := tensorTagToBuf.Keys;
      while todo != {}
        invariant todo <= before.Keys && tensorTagToBuf.Keys == before.Keys
        invariant forall tag :: tag in before ==>
                    tensorTagToBuf[tag] == if tag !in todo && tag.group == offloadedGroupCount then None else before[tag]
        decreases todo
      {
        var tag :| tag in todo;
        if tag.group == offloadedGroupCount {
          tensorTagToBuf := tensorTagToBuf[tag := None];
        }
        todo := todo - {tag};
      }
    }

    method OnGroupCommitForward()
      requires Valid() && Legal(Cfg(), ledger, ForwardEvent(tags))
      modifies this
      ensures Valid() && ledger == Record(old(ledger), ForwardEvent(old(tags)))
    {
      hide Inv, Legal, Record, CommitForward, Enumerates;
      ForwardStep(Cfg(), ledger, State(), tags);
      SynchronizeOnGroupCommitForward(currentGroup);
      currentGroup := currentGroup + 1;
      tensorCountCurrentGroup := 0;
      ledger := Record(ledger, ForwardEvent(tags));
    }

    method BulkReloadGroup(groupToReload: int, alloc: Key -> int)
      requires Fields() && BulkReload(Cfg(), State(), groupToReload, alloc).Ok?
      modifies this`tensorTagToState, this`groupOffloadMapping
      ensures Fields() && State() == BulkReload(Cfg(), old(State()), groupToReload, alloc).value
    {
      assert groupToReload < numOffloadGroup;
      var offloadMapping := groupOffloadMapping[groupToReload];
      groupOffloadMapping := groupOffloadMapping - {groupToReload};
      ghost var before := tensorTagToState;
      for i := 0 to |tags|
        invariant tensorTagToState.Keys == before.Keys
        invariant groupOffloadMapping == old(groupOffloadMapping) - {groupToReload}
        invariant forall tag :: tag in before ==>
                    tensorTagToState[tag] ==
                      if tag.group == groupToReload && tag in tags[..i]
                      then Recover(before[tag], offloadMapping, alloc).value else before[tag]
      {
        var tag := tags[i];
        assert tag in before && tag !in tags[..i] && tags[..i + 1] == tags[..i] + [tag];
        if tag.group == groupToReload && tensorTagToState[tag].Moved? {
          assert Recover(before[tag], offloadMapping, alloc).Ok?;
          var Moved(key, shape) := tensorTagToState[tag];
          var recovered := View(Reload(offloadMapping[key], alloc(key)), shape);
          tensorTagToState := tensorTagToState[tag := Held(recovered.value)];
        }
      }
      assert tags[..|tags|] == tags;
    }

    method OnGroupCommitBackward(alloc: Key -> int)
      requires Valid() && Legal(Cfg(), ledger, BackwardEvent(alloc))
      modifies this
      ensures Valid() && ledger == Record(old(ledger), BackwardEvent(alloc))
    {
      hide Inv, Legal, Record, BulkReload, Enumerates;
      BackwardStep(Cfg(), ledger, State(), alloc);
      ghost var before := State();
      currentGroup := currentGroup - 1;
      assert currentGroup >= 0;
      if layerWindowMap[offloadedGroupCount - 1] == currentGroup {
        ReloadCommutes(Cfg(), before, offloadedGroupCount - 1, alloc, currentGroup);
        BulkReloadGroup(offloadedGroupCount - 1, alloc);
        offloadedGroupCount := offloadedGroupCount - if offloadedGroupCount > 1 then 1 else 0;
      }
      if currentGroup == 0 {
        offloadedGroupCount := 0;
      }
      ledger := Record(ledger, BackwardEvent(alloc));
    }
  }

  lemma ReloadCommutes(cfg: Config, h: Handler, g: int, alloc: Key -> int, cur: int)
    ensures BulkReload(cfg, h, g, alloc).Ok? <==> BulkReload(cfg, h.(cur := cur), g, alloc).Ok?
    ensures BulkReload(cfg, h, g, alloc).Ok? ==>
              BulkReload(cfg, h.(cur := cur), g, alloc).value == BulkReload(cfg, h, g, alloc).value.(cur := cur)
  {
  }
}
