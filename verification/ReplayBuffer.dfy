/** The replay buffer object: partitions of tagged keys, mutated under a lock. Each method below is one
    critical section. */
module ReplayBuffer {
  import opened Outcomes
  import opened ReplayProtocol

  /** How a sampling round ends. */
  datatype Round = Wait | Batch(keys: seq<Key>, tags: seq<Tags>) | MissingTag

  /** An entry of the requested step with the given status. */
  predicate HasStatus(entries: Entries, steps: Option<int>, key: Key, status: Status) {
    key in entries && entries[key].globalSteps == steps && entries[key].status == Some(status)
  }

  /** The scan looks up a tag that the entry does not have: its step, or the status of an entry of the step. */
  predicate Untagged(entries: Entries, steps: Option<int>, key: Key) {
    && key in entries
    && (entries[key].globalSteps.None? || (entries[key].globalSteps == steps && entries[key].status.None?))
  }

  /** Each tag is the new one if there is one, and the old one otherwise. */
  predicate Overwritten(after: Tags, put: Tags, before: Tags) {
    && after.globalSteps == (if put.globalSteps.Some? then put.globalSteps else before.globalSteps)
    && after.status == (if put.status.Some? then put.status else before.status)
  }

  lemma MergedNone(entries: Entries)
    ensures Merged(entries, map[]) == entries
  {
  }

  /** Merging one more item. */
  lemma MergedOne(entries: Entries, items: Entries, key: Key, tags: Tags)
    requires key !in items
    ensures var before := Merged(entries, items);
            Merged(entries, items[key := tags]) ==
              before[key := Updated(if key in before then before[key] else NO_TAGS, tags)]
  {
  }

  /** The loop over the items. */
  method MergeItems(entries: Entries, items: Entries) returns (partition: Entries)
    ensures partition == Merged(entries, items)
  {
    hide Merged;
    partition := entries;
    ghost var done: Entries := map[];
    var todo := items.Keys;
    MergedNone(entries);
    while todo != {}
      invariant todo <= items.Keys && done.Keys == items.Keys - todo
      invariant (forall key :: key in done ==> done[key] == items[key]) && partition == Merged(entries, done)
      decreases todo
    {
      var key :| key in todo;
      MergedOne(entries, done, key, items[key]);
      if key !in partition {
        partition := partition[key := NO_TAGS];
      }
      partition := partition[key := Updated(partition[key], items[key])];
      todo := todo - {key};
      done := done[key := items[key]];
    }
    assert done == items;
  }

  class ReplayBuffer {
    var partitions: map<string, Entries>

    /** A partition that was never touched is empty. */
    ghost function Partition(id: string): Entries
      reads this
    {
      if id in partitions then partitions[id] else map[]
    }

    constructor ()
      ensures partitions == map[]
    {
      partitions := map[];
    }

    /** Reading a missing partition creates it. */
    method Open(id: string) returns (partition: Entries)
      modifies this
      ensures partition == old(Partition(id))
      ensures id in partitions && forall other :: Partition(other) == old(Partition(other))
    {
      if id !in partitions {
        partitions := partitions[id := map[]];
      }
      partition := partitions[id];
    }

    /** Adding items overwrites the tags they carry, keeps the others, and leaves other keys and partitions alone. */
    method Add(partitionId: string, items: Entries)
      modifies this
      ensures Partition(partitionId).Keys == old(Partition(partitionId)).Keys + items.Keys
      ensures forall key :: key in old(Partition(partitionId)) && key !in items ==>
                Partition(partitionId)[key] == old(Partition(partitionId))[key]
      ensures forall key :: key in items ==>
                Overwritten(Partition(partitionId)[key], items[key],
                            if key in old(Partition(partitionId)) then old(Partition(partitionId))[key] else NO_TAGS)
      ensures Partition(partitionId) == Merged(old(Partition(partitionId)), items)
      ensures forall other :: other != partitionId ==> Partition(other) == old(Partition(other))
    {
      var partition := Open(partitionId);
      partition := MergeItems(partition, items);
      partitions := partitions[partitionId := partition];
    }

    /** Removing keys ignores those that are absent. */
    method Remove(partitionId: string, keys: seq<Key>)
      modifies this
      ensures Partition(partitionId) == old(Partition(partitionId)) - set key | key in keys
      ensures forall other :: other != partitionId ==> Partition(other) == old(Partition(other))
    {
      var partition := Open(partitionId);
      ghost var before := partition;
      for i := 0 to |keys|
        invariant partition == before - set key | key in keys[..i]
      {
        assert keys[..i + 1] == keys[..i] + [keys[i]];
        if keys[i] in partition {
          partition := partition - {keys[i]};
        }
      }
      assert keys[..|keys|] == keys;
      partitions := partitions[partitionId := partition];
    }

    /** One round of the sampling loop, scanning the partition in some order: wait at the first prompt of the step
        that is still running, raise at the first tag that is missing, otherwise return each successful key of the
        step once, with its tags. Exactly one of step and batch size is given. */
    method SampleRound(partitionId: string, globalSteps: Option<int>, batchSize: Option<nat>) returns (r: Round)
      requires globalSteps.Some? <==> !(batchSize.Some? && batchSize.value != 0)
      modifies this
      ensures forall other :: Partition(other) == old(Partition(other))
      ensures r.Wait? ==> exists key :: HasStatus(Partition(partitionId), globalSteps, key, Running)
      ensures r.Batch? ==> forall key :: !HasStatus(Partition(partitionId), globalSteps, key, Running)
      ensures r.Batch? ==> forall key :: key in r.keys <==> HasStatus(Partition(partitionId), globalSteps, key, Success)
      ensures r.Wait? ==> MustWait(Partition(partitionId), globalSteps)
      ensures r.MissingTag? ==> exists key :: Untagged(Partition(partitionId), globalSteps, key)
      ensures r.Batch? ==> !MustWait(Partition(partitionId), globalSteps)
      ensures r.Batch? ==> forall key :: !Untagged(Partition(partitionId), globalSteps, key)
      ensures r.Batch? ==> (set key | key in r.keys) == Selected(Partition(partitionId), globalSteps)
      ensures r.Batch? ==> forall i, j :: 0 <= i < j < |r.keys| ==> r.keys[i] != r.keys[j]
      ensures r.Batch? ==> |r.tags| == |r.keys| && forall i :: 0 <= i < |r.keys| ==>
                r.keys[i] in Partition(partitionId) && r.tags[i] == Partition(partitionId)[r.keys[i]]
      ensures FullyTagged(Partition(partitionId)) && globalSteps.None? ==> r == Batch([], [])
    {
      var partition := Open(partitionId);
      var keys: seq<Key>, tags: seq<Tags> := [], [];
      var todo := partition.Keys;
      while todo != {}
        invariant todo <= partition.Keys
        invariant forall key :: key in partition && key !in todo ==>
                    !(partition[key].globalSteps == globalSteps && partition[key].status == Some(Running))
        invariant forall key :: key in partition && key !in todo ==> !Untagged(partition, globalSteps, key)
        invariant forall key :: key in keys <==> key !in todo && key in Selected(partition, globalSteps)
        invariant forall i, j :: 0 <= i < j < |keys| ==> keys[i] != keys[j]
        invariant |tags| == |keys| && forall i :: 0 <= i < |keys| ==> keys[i] in partition && tags[i] == partition[keys[i]]
        invariant globalSteps.None? ==> keys == []
        decreases todo
      {
        var key :| key in todo;
        var tag := partition[key];
        if tag.globalSteps.None? {
          assert Untagged(partition, globalSteps, key);
          return MissingTag;
        }
        if tag.globalSteps == globalSteps {
          if tag.status.None? {
            assert Untagged(partition, globalSteps, key);
            return MissingTag;
          } else if tag.status == Some(Running) {
            assert HasStatus(partition, globalSteps, key, Running);
            return Wait;
          } else if tag.status == Some(Success) {
            keys := keys + [key];
            tags := tags + [tag];
          }
        }
        todo := todo - {key};
      }
      r := Batch(keys, tags);
    }
  }
}
