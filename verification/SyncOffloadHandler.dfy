/** The synchronous offload handler: a push copies to the host at once and a pop copies back. */
module SyncOffloadHandler {
  import opened OffloadModel
  import opened OffloadProof
  import opened OffloadTheorems

  class SynchronizedGroupOffloadHandler {
    const numOffloadGroup: nat
    const numLayers: nat // known to the client only; bounds its passes
    var currentGroup: int
    var tensorCountCurrentGroup: nat
    var tensorTagToState: map<Tag, SyncSlot>

    /** What the client has pushed and not yet popped, and how far it has got. */
    ghost var ledger: Ledger

    ghost function Cfg(): Config {
      Config(numLayers, numOffloadGroup)
    }

    ghost function State(): SyncHandler
      reads this
    {
      SyncHandler(currentGroup, tensorCountCurrentGroup, tensorTagToState)
    }

    ghost predicate Valid()
      reads this
    {
      OrderInv(Cfg(), ledger) && SyncInv(ledger, State())
    }

    constructor (numOffloadGroup: nat, numLayers: nat)
      ensures Valid() && ledger == EMPTY && State() == SYNC_INITIAL
      ensures this.numOffloadGroup == numOffloadGroup && this.numLayers == numLayers
    {
      this.numOffloadGroup := numOffloadGroup;
      this.numLayers := numLayers;
      currentGroup, tensorCountCurrentGroup, tensorTagToState := 0, 0, map[];
      ledger := EMPTY;
    }

    /** Record a tensor, on the host if its group is offloaded and the checker asks for it. */
    method TensorPush(tensor: Tensor, needOffload: bool) returns (tag: Tag)
      requires Valid() && Ordered(Cfg(), ledger, PushEvent(tensor))
      modifies this
      ensures Valid() && ledger == Record(old(ledger), PushEvent(tensor))
      ensures tag == Tag(old(ledger).cur, old(ledger).count) && tag !in old(tensorTagToState)
      ensures tensorTagToState[tag].OnHost? <==> currentGroup < numOffloadGroup && needOffload
      ensures tensorTagToState - {tag} == old(tensorTagToState)
    {
      OrderStep(Cfg(), ledger, PushEvent(tensor));
      tag := Tag(currentGroup, tensorCountCurrentGroup);
      tensorCountCurrentGroup := tensorCountCurrentGroup + 1;
      assert tag !in tensorTagToState;
      var slot := if currentGroup < numOffloadGroup && needOffload then OnHost(ValueOf(tensor)) else SyncHeld(tensor);
      tensorTagToState := tensorTagToState[tag := slot];
      ledger := Record(ledger, PushEvent(tensor));
    }

    /** What was pushed under the tag; a host copy comes back at the address the allocator gives. */
    method TensorPop(tag: Tag, address: int) returns (tensor: Tensor)
      requires Valid() && Ordered(Cfg(), ledger, PopEvent(tag))
      modifies this
      ensures Valid() && ledger == Record(old(ledger), PopEvent(tag))
      ensures var pushed := old(ledger).live[tag];
              tensor.dtype == pushed.dtype && tensor.shape == pushed.shape && tensor.flat == pushed.flat
      ensures tensorTagToState == old(tensorTagToState) - {tag}
    {
      OrderStep(Cfg(), ledger, PopEvent(tag));
      assert tag in tensorTagToState;
      var state := tensorTagToState[tag];
      tensorTagToState := tensorTagToState - {tag};
      tensor := match state case SyncHeld(t) => t case OnHost(v) => Reload(v, address);
      ledger := Record(ledger, PopEvent(tag));
    }

    method OnGroupCommitForward()
      requires Valid() && Ordered(Cfg(), ledger, ForwardEvent([]))
      modifies this
      ensures Valid() && ledger == Record(old(ledger), ForwardEvent([]))
      ensures tensorTagToState == old(tensorTagToState)
    {
      OrderStep(Cfg(), ledger, ForwardEvent([]));
      currentGroup := currentGroup + 1;
      tensorCountCurrentGroup := 0;
      ledger := Record(ledger, ForwardEvent([]));
    }

    method OnGroupCommitBackward()
      requires Valid() && Ordered(Cfg(), ledger, BackwardEvent(_ => 0))
      modifies this
      ensures Valid() && ledger == Record(old(ledger), BackwardEvent(_ => 0))
      ensures tensorTagToState == old(tensorTagToState)
    {
      OrderStep(Cfg(), ledger, BackwardEvent(_ => 0));
      currentGroup := currentGroup - 1;
      assert currentGroup >= 0;
      ledger := Record(ledger, BackwardEvent(_ => 0));
    }
  }
}
