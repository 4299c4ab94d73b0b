/** Waiting for a notification: queues per agent, filled by polling. */
module NixlAgent {
  import opened Outcomes

  type Queues<!A, K> = map<A, seq<K>>

  /** One poll: the agents that notified, in the poll's order, each with its notifications. */
  type Poll<A, K> = seq<(A, seq<K>)>

  function QueueOf<A, K>(queues: Queues<A, K>, agent: A): seq<K> {
    if agent in queues then queues[agent] else []
  }

  function Extended<A, K>(queues: Queues<A, K>, poll: Poll<A, K>): Queues<A, K> {
    if poll == [] then queues else
    var (agent, keys) := poll[|poll| - 1];
    var before := Extended(queues, poll[..|poll| - 1]);
    before[agent := QueueOf(before, agent) + keys]
  }

  /** The loop variable of the filling loop is the name that was asked for: afterwards it is the last agent
      of the poll. */
  function Rebound<A, K>(name: A, poll: Poll<A, K>): A {
    if poll == [] then name else poll[|poll| - 1].0
  }

  /** The queues without the first entry of an agent's own. */
  function Popped<A, K>(queues: Queues<A, K>, agent: A): Queues<A, K>
    requires QueueOf(queues, agent) != []
  {
    queues[agent := QueueOf(queues, agent)[1..]]
  }

  /** Who is answered for, with which notification, and what stays queued; None while it keeps waiting. */
  function Fetch<A, K>(queues: Queues<A, K>, polls: seq<Poll<A, K>>, name: A): Option<(A, K, Queues<A, K>)>
    decreases |polls|
  {
    if QueueOf(queues, name) != [] then Some((name, QueueOf(queues, name)[0], Popped(queues, name)))
    else if polls == [] then None
    else Fetch(Extended(queues, polls[0]), polls[1..], Rebound(name, polls[0]))
  }

  /** The filling loop, whose variable is the name that was asked for. */
  method AddNotifications<A(==), K>(queues: Queues<A, K>, poll: Poll<A, K>, remoteName: A)
    returns (notifications: Queues<A, K>, name: A)
    ensures notifications == Extended(queues, poll) && name == Rebound(remoteName, poll)
  {
    notifications, name := queues, remoteName;
    for j := 0 to |poll|
      invariant notifications == Extended(queues, poll[..j]) && name == Rebound(remoteName, poll[..j])
    {
      assert poll[..j + 1][..j] == poll[..j];
      var (agent, keys) := poll[j];
      name := agent;
      notifications := notifications[agent := QueueOf(notifications, agent) + keys];
    }
    assert poll[..|poll|] == poll;
  }

  /** The polling loop. `polls` are the results of the successive polls. */
  method GetNotification<A(==), K>(queues: Queues<A, K>, polls: seq<Poll<A, K>>, remoteName: A)
    returns (r: Option<(A, K, Queues<A, K>)>)
    ensures r == Fetch(queues, polls, remoteName)
  {
    hide Extended, Rebound;
    var name, notifications, i := remoteName, queues, 0;
    while QueueOf(notifications, name) == []
      invariant 0 <= i <= |polls| && Fetch(notifications, polls[i..], name) == Fetch(queues, polls, remoteName)
      decreases |polls| - i
    {
      if i == |polls| {
        return None;
      }
      assert polls[i..][0] == polls[i] && polls[i..][1..] == polls[i + 1..];
      notifications, name := AddNotifications(notifications, polls[i], name);
      i := i + 1;
    }
    var queue := notifications[name];
    r := Some((name, queue[0], notifications[name := queue[1..]]));
  }

  /** A notification that is queued already is handed out at once, oldest first, and only it leaves its queue. */
  lemma OldestFirst<A, K>(queues: Queues<A, K>, polls: seq<Poll<A, K>>, name: A)
    requires QueueOf(queues, name) != []
    ensures Fetch(queues, polls, name).Some?
    ensures var (agent, key, rest) := Fetch(queues, polls, name).value;
            && agent == name && [key] + QueueOf(rest, name) == QueueOf(queues, name)
            && forall other :: other != name ==> QueueOf(rest, other) == QueueOf(queues, other)
  {
  }

  /** Agents listed in a poll have notified. */
  predicate Spoken<A, K>(polls: seq<Poll<A, K>>) {
    forall i, j :: 0 <= i < |polls| && 0 <= j < |polls[i]| ==> polls[i][j].1 != []
  }

  /** The last agent of the first poll that is not empty. */
  function FirstSpeaker<A, K>(polls: seq<Poll<A, K>>): Option<A>
    decreases |polls|
  {
    if polls == [] then None
    else if polls[0] == [] then FirstSpeaker(polls[1..])
    else Some(polls[0][|polls[0]| - 1].0)
  }

  lemma LastQueued<A, K>(queues: Queues<A, K>, poll: Poll<A, K>)
    requires poll != [] && poll[|poll| - 1].1 != []
    ensures QueueOf(Extended(queues, poll), poll[|poll| - 1].0) != []
  {
  }

  /** Whom the wait answers for: the agent asked for exactly if something of it is queued, or if it comes last in
      the first poll that brings anything. */
  lemma {:induction false} AnswersForFirstSpeaker<A, K>(queues: Queues<A, K>, polls: seq<Poll<A, K>>, name: A)
    requires Spoken(polls) && Fetch(queues, polls, name).Some?
    ensures Fetch(queues, polls, name).value.0 == name <==>
              QueueOf(queues, name) != [] || FirstSpeaker(polls) == Some(name)
    decreases |polls|
  {
    if QueueOf(queues, name) == [] {
      if polls[0] == [] {
        AnswersForFirstSpeaker(queues, polls[1..], name);
      } else {
        LastQueued(queues, polls[0]);
      }
    }
  }

  /** What a wait that keeps to the name it was given returns. */
  function FetchFrom<A, K>(queues: Queues<A, K>, polls: seq<Poll<A, K>>, name: A): Option<(K, Queues<A, K>)>
    decreases |polls|
  {
    if QueueOf(queues, name) != [] then Some((QueueOf(queues, name)[0], Popped(queues, name)))
    else if polls == [] then None
    else FetchFrom(Extended(queues, polls[0]), polls[1..], name)
  }

  ghost predicate OnlyFrom<A, K>(polls: seq<Poll<A, K>>, name: A) {
    forall i, j :: 0 <= i < |polls| && 0 <= j < |polls[i]| ==> polls[i][j].0 == name
  }

  /** An agent that is notified by one other agent only gets what that agent sent. */
  lemma {:induction false} OneSenderIsHarmless<A, K>(queues: Queues<A, K>, polls: seq<Poll<A, K>>, name: A)
    requires OnlyFrom(polls, name)
    ensures match Fetch(queues, polls, name)
            case None => FetchFrom(queues, polls, name).None?
            case Some((agent, key, rest)) => agent == name && FetchFrom(queues, polls, name) == Some((key, rest))
    decreases |polls|
  {
    if QueueOf(queues, name) == [] && polls != [] {
      OneSenderIsHarmless(Extended(queues, polls[0]), polls[1..], name);
    }
  }

  /** With a second sender the wait returns the wrong agent's notification. */
  lemma SecondSenderIsConfused<A, K>(name: A, other: A, key: K, wrong: K)
    requires name != other
    ensures var polls := [[(name, [key]), (other, [wrong])]];
            && Fetch(map[], polls, name) == Some((other, wrong, map[name := [key], other := []]))
            && FetchFrom(map[], polls, name) == Some((key, map[name := [], other := [wrong]]))
  {
    var poll: Poll<A, K> := [(name, [key]), (other, [wrong])];
    assert poll[..1] == [(name, [key])] && poll[..1][..0] == [];
    var none: seq<K> := [];
    assert none + [key] == [key] && none + [wrong] == [wrong];
    assert Extended(map[], poll[..1][..0]) == map[];
    assert Extended(map[], poll[..1]) == map[name := [key]];
    assert Extended(map[], poll) == map[name := [key], other := [wrong]];
    var queued: Queues<A, K> := map[name := [key], other := [wrong]];
    assert Popped(queued, other) == map[name := [key], other := []];
    assert Popped(queued, name) == map[name := [], other := [wrong]];
  }
}
