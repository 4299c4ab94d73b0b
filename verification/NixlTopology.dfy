/** Wiring of the NIXL chain from the list of agents, with Python's list slicing. */
module NixlTopology {
  import opened Outcomes

  /** A slice bound of a Python list: negative bounds count from the end, and both are clipped. */
  function Bound(len: nat, i: int): nat {
    var j := if i < 0 then len + i else i;
    if j < 0 then 0 else if j > len then len else j
  }

  function PySlice<T>(s: seq<T>, lo: int, hi: int): seq<T> {
    var a, b := Bound(|s|, lo), Bound(|s|, hi);
    if a <= b then s[a..b] else []
  }

  /** Indexing a Python list; None where Python raises. */
  function PyAt<T>(s: seq<T>, i: int): Option<T> {
    var j := if i < 0 then |s| + i else i;
    if 0 <= j < |s| then Some(s[j]) else None
  }

  function Repeat<T>(x: T, n: int): seq<T> {
    seq(if n < 0 then 0 else n, _ => x)
  }

  function Present<T>(s: seq<T>): seq<Option<T>> {
    seq(|s|, i requires 0 <= i < |s| => Some(s[i]))
  }

  /** The per-worker arguments of `init_process_group`. */
  datatype Args<T> = Args(rank: seq<int>, worldSize: seq<int>, prev: seq<Option<T>>, next: seq<Option<T>>)

  datatype Topology<T> = Topology(trainer: Args<T>, rollout: Args<T>)

  /** Ranks, world size and neighbours of every trainer and rollout worker; indexing past the list raises. */
  function BuildTopology<T>(trainers: nat, rollouts: nat, metadata: seq<T>): Option<Topology<T>> {
    var first, head := PyAt(metadata, 0), PyAt(metadata, 0 - rollouts);
    if first.None? || head.None? then None else
    Some(Topology(
           Args([0] + Repeat(-1, trainers - 1),
                Repeat(rollouts + 1, trainers),
                Repeat(None, trainers),
                [head] + Repeat(None, trainers - 1)),
           Args(seq(rollouts, i => i + 1),
                Repeat(rollouts + 1, rollouts),
                [first] + Present(PySlice(metadata, 0 - rollouts, -1)),
                Present(PySlice(metadata, 0 - rollouts + 1, |metadata|)) + [None])))
  }

  /** The assertions of `init_process_group`: who must and must not have neighbours. */
  predicate InitAccepts<T>(rank: int, worldSize: int, prev: Option<T>, next: Option<T>) {
    if rank < 0 then prev.None? && next.None?
    else if rank == 0 then prev.None? && next.Some?
    else if rank < worldSize - 1 then prev.Some? && next.Some?
    else if rank == worldSize - 1 then prev.Some? && next.None?
    else true
  }

  /** The length checks of the process group builder, then the assertions at every worker. */
  predicate Accepted<T>(args: Args<T>, workers: nat) {
    && |args.rank| == workers && |args.worldSize| == workers && |args.prev| == workers && |args.next| == workers
    && forall i :: 0 <= i < workers ==> InitAccepts(args.rank[i], args.worldSize[i], args.prev[i], args.next[i])
  }

  /** One chain: trainer 0, then the rollout workers in order, each the other's only neighbour. All workers agree
      on its length, its ranks are 0 .. rollouts, and the other trainers are no part of it. */
  ghost predicate IsChain<T>(t: Topology<T>, trainers: nat, rollouts: nat, metadata: seq<T>) {
    && Accepted(t.trainer, trainers) && Accepted(t.rollout, rollouts)
    && |metadata| == trainers + rollouts && 1 <= trainers && 1 <= rollouts
    && t.trainer.rank[0] == 0 && t.trainer.prev[0].None? && t.trainer.next[0] == Some(metadata[trainers])
    && (forall i :: 0 <= i < trainers ==> t.trainer.worldSize[i] == rollouts + 1)
    && (forall i :: 0 < i < trainers ==> t.trainer.rank[i] == -1 && t.trainer.prev[i].None? && t.trainer.next[i].None?)
    && (forall i :: 0 <= i < rollouts ==> t.rollout.worldSize[i] == rollouts + 1)
    && (forall i :: 0 <= i < rollouts ==>
          && t.rollout.rank[i] == i + 1
          && t.rollout.prev[i] == Some(metadata[if i == 0 then 0 else trainers + i - 1])
          && t.rollout.next[i] == if i + 1 < rollouts then Some(metadata[trainers + i + 1]) else None)
  }

  /** Indexing the list of agents raises exactly when it is empty or shorter than the rollout workers. */
  lemma RaisesExactly<T>(trainers: nat, rollouts: nat, metadata: seq<T>)
    ensures BuildTopology(trainers, rollouts, metadata).None? <==> metadata == [] || |metadata| < rollouts
  {
    hide PySlice, Present;
  }

  lemma SliceBefore<T>(metadata: seq<T>, rollouts: nat)
    requires 1 <= rollouts < |metadata|
    ensures PySlice(metadata, 0 - rollouts, -1) == metadata[|metadata| - rollouts..|metadata| - 1]
  {
  }

  lemma SliceAfter<T>(metadata: seq<T>, rollouts: nat)
    requires 1 <= rollouts < |metadata|
    ensures PySlice(metadata, 0 - rollouts + 1, |metadata|) ==
              if rollouts == 1 then metadata else metadata[|metadata| - rollouts + 1..]
  {
  }

  /** The trainer side is always wired as intended. */
  lemma TrainersAccepted<T>(trainers: nat, rollouts: nat, metadata: seq<T>)
    requires 1 <= trainers && 1 <= rollouts && |metadata| == trainers + rollouts
    ensures BuildTopology(trainers, rollouts, metadata).Some?
    ensures var t := BuildTopology(trainers, rollouts, metadata).value;
            && Accepted(t.trainer, trainers) && t.trainer.rank[0] == 0 && t.trainer.next[0] == Some(metadata[trainers])
            && (forall i :: 0 <= i < trainers ==> t.trainer.worldSize[i] == rollouts + 1)
            && forall i :: 0 < i < trainers ==> t.trainer.rank[i] == -1
  {
    hide PySlice, Present;
  }

  /** The neighbours of the rollout workers, when there are at least two. */
  lemma RolloutsChained<T>(trainers: nat, rollouts: nat, metadata: seq<T>)
    requires 1 <= trainers && 2 <= rollouts && |metadata| == trainers + rollouts
    ensures BuildTopology(trainers, rollouts, metadata).Some?
    ensures var args := BuildTopology(trainers, rollouts, metadata).value.rollout;
            && |args.rank| == rollouts && |args.worldSize| == rollouts && |args.prev| == rollouts && |args.next| == rollouts
            && forall i :: 0 <= i < rollouts ==>
                 && args.rank[i] == i + 1 && args.worldSize[i] == rollouts + 1
                 && args.prev[i] == Some(metadata[if i == 0 then 0 else trainers + i - 1])
                 && args.next[i] == if i + 1 < rollouts then Some(metadata[trainers + i + 1]) else None
  {
    hide PySlice;
    SliceBefore(metadata, rollouts);
    SliceAfter(metadata, rollouts);
  }

  /** With a single rollout worker the list of successors is too long. */
  lemma SingleIsTooLong<T>(trainers: nat, metadata: seq<T>)
    requires 1 <= trainers && |metadata| == trainers + 1
    ensures BuildTopology(trainers, 1, metadata).Some?
    ensures |BuildTopology(trainers, 1, metadata).value.rollout.next| == |metadata| + 1
  {
    hide PySlice;
    SliceAfter(metadata, 1);
  }

  /** From two rollout workers on, the workers form one chain that meets every assertion. With a single
      one the slice `metadata[-1 + 1:]` is the whole list, and the length check fails. */
  lemma ChainExactlyFromTwo<T>(trainers: nat, rollouts: nat, metadata: seq<T>)
    requires 1 <= trainers && 1 <= rollouts && |metadata| == trainers + rollouts
    ensures BuildTopology(trainers, rollouts, metadata).Some?
    ensures var t := BuildTopology(trainers, rollouts, metadata).value;
            && (2 <= rollouts <==> Accepted(t.trainer, trainers) && Accepted(t.rollout, rollouts))
            && (2 <= rollouts ==> IsChain(t, trainers, rollouts, metadata))
  {
    hide BuildTopology;
    TrainersAccepted(trainers, rollouts, metadata);
    if 2 <= rollouts {
      RolloutsChained(trainers, rollouts, metadata);
    } else {
      SingleIsTooLong(trainers, metadata);
    }
  }

  /** The failing wiring, for one trainer and one rollout worker. */
  lemma SingleRolloutRejected<T>(trainer: T, rollout: T)
    ensures BuildTopology(1, 1, [trainer, rollout]).Some?
    ensures BuildTopology(1, 1, [trainer, rollout]).value.rollout.next == [Some(trainer), Some(rollout), None]
    ensures !Accepted(BuildTopology(1, 1, [trainer, rollout]).value.rollout, 1)
  {
    assert PySlice([trainer, rollout], 0, 2) == [trainer, rollout];
  }
}
