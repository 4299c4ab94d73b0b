/** The replay buffer between agent-loop workers and the trainer: workers put rows and then a "finished"
    tag into the transfer queue, a polling thread copies snapshots of the queue into the buffer some
    time later, and the trainer samples the buffer and retires the rows of past steps. */
module ReplayProtocol {
  import opened Outcomes

  /** A prompt's own key, or the key of one output of one of its sessions. */
  datatype Key = Prompt(uid: string) | Row(uid: string, session: nat, index: nat)

  datatype Status = Running | Finished | Success | Failure

  /** The tags of an entry; a put may carry only some of them. */
  datatype Tags = Tags(globalSteps: Option<int>, status: Option<Status>)

  type Entries = map<Key, Tags>

  /** Python's dict.update on the tags of one entry. */
  function Updated(tags: Tags, put: Tags): Tags {
    Tags(if put.globalSteps.Some? then put.globalSteps else tags.globalSteps,
         if put.status.Some? then put.status else tags.status)
  }

  const NO_TAGS := Tags(None, None)

  /** Merging items into a partition: absent keys start without tags. */
  function Merged(entries: Entries, items: Entries): Entries {
    map key | key in entries.Keys + items.Keys ::
      var tags := if key in entries then entries[key] else NO_TAGS;
      if key in items then Updated(tags, items[key]) else tags
  }

  /** The scan of `sample` stops to wait at a running prompt of the step. */
  predicate MustWait(entries: Entries, steps: Option<int>) {
    exists key :: key in entries && entries[key].globalSteps == steps && entries[key].status == Some(Running)
  }

  function Selected(entries: Entries, steps: Option<int>): set<Key> {
    set key | key in entries && entries[key].globalSteps == steps && entries[key].status == Some(Success)
  }

  /** Every lookup of the scan succeeds: each entry carries both tags. */
  predicate FullyTagged(entries: Entries) {
    forall key :: key in entries ==> entries[key].globalSteps.Some? && entries[key].status.Some?
  }

  // ---------------------------------------------------------------- the system

  /** A dispatched prompt: its step, how many outputs each session produces, which sessions have put theirs, and
      how the prompt has ended: finished, or failed because an agent loop raised. */
  datatype Job = Job(step: int, outputs: seq<nat>, posted: set<nat>, ended: Option<Status>)

  datatype System = System(jobs: map<string, Job>, queue: Entries, snapshot: Option<Entries>, buffer: Entries, retired: set<int>)

  const START := System(map[], map[], None, map[], {})

  datatype Event =
    | Dispatch(step: int, prompts: map<string, seq<nat>>)  // mark as running, start the workers
    | PostSession(uid: string, session: nat)               // one batch put of a session's rows
    | PutFinished(uid: string)                             // after all sessions of the prompt
    | PutFailure(uid: string)                              // an agent loop raised; others may still put rows
    | Poll                                                 // the polling thread lists the queue
    | Merge                                                // and later adds the list to the buffer
    | Retire(step: int)                                    // the trainer is done with the step
    | ClearQueue(keys: set<Key>)                           // rows of retired steps leave the queue
    | RemoveRows(keys: set<Key>)                           // and the buffer

  predicate IsRow(jobs: map<string, Job>, key: Key) {
    key.Row? && key.uid in jobs && key.session < |jobs[key.uid].outputs| && key.index < jobs[key.uid].outputs[key.session]
  }

  predicate RetiredRow(s: System, key: Key) {
    IsRow(s.jobs, key) && s.jobs[key.uid].step in s.retired
  }

  predicate Possible(s: System, e: Event) {
    match e
    case Dispatch(step, prompts) => step !in s.retired && s.jobs.Keys !! prompts.Keys
    case PostSession(uid, session) => uid in s.jobs && session < |s.jobs[uid].outputs| && session !in s.jobs[uid].posted
    case PutFinished(uid) =>
      && uid in s.jobs && s.jobs[uid].ended.None?
      && forall session: nat :: session < |s.jobs[uid].outputs| ==> session in s.jobs[uid].posted
    case PutFailure(uid) => uid in s.jobs && s.jobs[uid].ended.None?
    case Poll => true
    case Merge => s.snapshot.Some?
    case Retire(_) => true
    case ClearQueue(keys) => forall key :: key in keys ==> RetiredRow(s, key)
    case RemoveRows(keys) => forall key :: key in keys ==> RetiredRow(s, key)
  }

  function RowTags(step: int): Tags {
    Tags(Some(step), Some(Success))
  }

  function SessionRows(uid: string, session: nat, job: Job): Entries
    requires session < |job.outputs|
  {
    map i: nat | i < job.outputs[session] :: Row(uid, session, i) := RowTags(job.step)
  }

  /** The items with which a batch of prompts is announced to the buffer. */
  function MarkRunning(step: int, prompts: map<string, seq<nat>>): (r: Entries)
    ensures forall key :: key in r <==> key.Prompt? && key.uid in prompts
    ensures forall key :: key in r ==> r[key] == Tags(Some(step), Some(Running))
  {
    map uid | uid in prompts :: Prompt(uid) := Tags(Some(step), Some(Running))
  }

  function Step(s: System, e: Event): System
    requires Possible(s, e)
  {
    match e
    case Dispatch(step, prompts) =>
      s.(jobs := s.jobs + map uid | uid in prompts :: Job(step, prompts[uid], {}, None),
         buffer := Merged(s.buffer, MarkRunning(step, prompts)))
    case PostSession(uid, session) =>
      var job := s.jobs[uid];
      s.(jobs := s.jobs[uid := job.(posted := job.posted + {session})],
         queue := Merged(s.queue, SessionRows(uid, session, job)))
    case PutFinished(uid) =>
      s.(jobs := s.jobs[uid := s.jobs[uid].(ended := Some(Finished))],
         queue := Merged(s.queue, map[Prompt(uid) := Tags(None, Some(Finished))]))
    case PutFailure(uid) =>
      s.(jobs := s.jobs[uid := s.jobs[uid].(ended := Some(Failure))],
         queue := Merged(s.queue, map[Prompt(uid) := Tags(None, Some(Failure))]))
    case Poll => s.(snapshot := Some(s.queue))
    case Merge => s.(buffer := Merged(s.buffer, s.snapshot.value), snapshot := None)
    case Retire(step) => s.(retired := s.retired + {step})
    case ClearQueue(keys) => s.(queue := s.queue - keys)
    case RemoveRows(keys) => s.(buffer := s.buffer - keys)
  }

  /** All rows that the prompts dispatched for a step produce. */
  ghost predicate Produced(s: System, step: int, key: Key) {
    IsRow(s.jobs, key) && s.jobs[key.uid].step == step
  }

  // ---------------------------------------------------------------- the invariant

  /** A list of queue entries, however old: its rows are genuine, prompts are listed as they ended, and a prompt
      listed as finished has all its rows listed with it, unless its step is retired. */
  ghost predicate Genuine(s: System, entries: Entries) {
    && (forall key :: key in entries && key.Row? ==>
          IsRow(s.jobs, key) && entries[key] == RowTags(s.jobs[key.uid].step))
    && (forall uid :: Prompt(uid) in entries ==>
          uid in s.jobs && s.jobs[uid].ended.Some? && entries[Prompt(uid)] == Tags(None, s.jobs[uid].ended))
    && (forall uid, session: nat, i: nat {:trigger Row(uid, session, i)} ::
          Prompt(uid) in entries && s.jobs[uid].ended == Some(Finished) && IsRow(s.jobs, Row(uid, session, i))
          && s.jobs[uid].step !in s.retired ==>
            Row(uid, session, i) in entries)
  }

  ghost predicate QueueInv(s: System) {
    && Genuine(s, s.queue)
    && (forall uid, session: nat, i: nat {:trigger Row(uid, session, i)} ::
          IsRow(s.jobs, Row(uid, session, i)) && session in s.jobs[uid].posted && s.jobs[uid].step !in s.retired ==>
            Row(uid, session, i) in s.queue)
    && (forall uid :: uid in s.jobs && s.jobs[uid].ended.Some? ==>
          s.jobs[uid].ended.value == Finished || s.jobs[uid].ended.value == Failure)
    && (forall uid :: uid in s.jobs && s.jobs[uid].ended == Some(Finished) ==>
          forall session: nat :: session < |s.jobs[uid].outputs| ==> session in s.jobs[uid].posted)
    && (forall uid :: uid in s.jobs && s.jobs[uid].ended.Some? ==> Prompt(uid) in s.queue)
  }

  ghost predicate BufferInv(s: System) {
    && (forall key :: key in s.buffer && key.Row? ==>
          IsRow(s.jobs, key) && s.buffer[key] == RowTags(s.jobs[key.uid].step))
    && (forall uid :: Prompt(uid) in s.buffer <==> uid in s.jobs)
    && (forall uid :: uid in s.jobs ==>
          s.buffer[Prompt(uid)] == Tags(Some(s.jobs[uid].step), Some(Running)) ||
          (s.jobs[uid].ended.Some? && s.buffer[Prompt(uid)] == Tags(Some(s.jobs[uid].step), s.jobs[uid].ended)))
    && (forall uid, session: nat, i: nat {:trigger Row(uid, session, i)} ::
          IsRow(s.jobs, Row(uid, session, i)) && s.buffer[Prompt(uid)].status == Some(Finished)
          && s.jobs[uid].step !in s.retired ==>
            Row(uid, session, i) in s.buffer)
  }

  ghost predicate Inv(s: System) {
    QueueInv(s) && BufferInv(s) && (s.snapshot.Some? ==> Genuine(s, s.snapshot.value))
  }

  /** Old lists stay genuine: jobs only progress and steps only retire. */
  lemma GenuineLater(s: System, s': System, entries: Entries)
    requires Genuine(s, entries) && s.retired <= s'.retired
    requires forall uid :: uid in s.jobs ==>
               && uid in s'.jobs && s'.jobs[uid].step == s.jobs[uid].step && s'.jobs[uid].outputs == s.jobs[uid].outputs
               && (s.jobs[uid].ended.Some? ==> s'.jobs[uid].ended == s.jobs[uid].ended)
    ensures Genuine(s', entries)
  {
    forall uid, session: nat, i: nat {:trigger Row(uid, session, i)} |
      Prompt(uid) in entries && s'.jobs[uid].ended == Some(Finished) && IsRow(s'.jobs, Row(uid, session, i))
      && s'.jobs[uid].step !in s'.retired
      ensures Row(uid, session, i) in entries
    {
      assert IsRow(s.jobs, Row(uid, session, i));
    }
  }

  /** Jobs that progress keep their rows. */
  ghost predicate SameJobs(s: System, s': System) {
    s'.jobs.Keys == s.jobs.Keys && forall uid :: uid in s.jobs ==>
      && s'.jobs[uid].step == s.jobs[uid].step && s'.jobs[uid].outputs == s.jobs[uid].outputs
      && (s.jobs[uid].ended.Some? ==> s'.jobs[uid].ended == s.jobs[uid].ended)
  }

  lemma BufferLater(s: System, s': System)
    requires BufferInv(s) && SameJobs(s, s') && s'.buffer == s.buffer && s'.retired == s.retired
    ensures BufferInv(s')
  {
    forall uid, session: nat, i: nat {:trigger Row(uid, session, i)} |
      IsRow(s'.jobs, Row(uid, session, i)) && s'.buffer[Prompt(uid)].status == Some(Finished)
      && s'.jobs[uid].step !in s'.retired
      ensures Row(uid, session, i) in s'.buffer
    {
      assert IsRow(s.jobs, Row(uid, session, i));
    }
  }

  /** What a dispatch does to the buffer: it adds the prompts, as running, and nothing else. */
  lemma DispatchEffect(s: System, e: Event)
    requires Possible(s, e) && e.Dispatch?
    ensures var s' := Step(s, e);
            && (forall key :: key in s'.buffer <==> key in s.buffer || (key.Prompt? && key.uid in e.prompts))
            && (forall key :: key in s.buffer && !(key.Prompt? && key.uid in e.prompts) ==> s'.buffer[key] == s.buffer[key])
            && (forall uid :: uid in e.prompts ==> s'.buffer[Prompt(uid)] == Tags(Some(e.step), Some(Running)))
  {
    hide MarkRunning;
  }

  lemma DispatchBuffer(s: System, e: Event, s': System)
    requires BufferInv(s) && Possible(s, e) && e.Dispatch? && s'.retired == s.retired
    requires s'.jobs == s.jobs + map uid | uid in e.prompts :: Job(e.step, e.prompts[uid], {}, None)
    requires forall key :: key in s'.buffer <==> key in s.buffer || (key.Prompt? && key.uid in e.prompts)
    requires forall key :: key in s.buffer && !(key.Prompt? && key.uid in e.prompts) ==> s'.buffer[key] == s.buffer[key]
    requires forall uid :: uid in e.prompts ==> s'.buffer[Prompt(uid)] == Tags(Some(e.step), Some(Running))
    ensures BufferInv(s')
  {
    forall key | key in s'.buffer && key.Row?
      ensures IsRow(s'.jobs, key) && s'.buffer[key] == RowTags(s'.jobs[key.uid].step)
    {
      assert key in s.buffer && IsRow(s.jobs, key);
    }
    forall uid | uid in s'.jobs
      ensures s'.buffer[Prompt(uid)] == Tags(Some(s'.jobs[uid].step), Some(Running)) ||
              (s'.jobs[uid].ended.Some? && s'.buffer[Prompt(uid)] == Tags(Some(s'.jobs[uid].step), s'.jobs[uid].ended))
    {
      if uid !in e.prompts { assert uid in s.jobs && Prompt(uid) in s.buffer; }
    }
    forall uid, session: nat, i: nat {:trigger Row(uid, session, i)} |
      IsRow(s'.jobs, Row(uid, session, i)) && s'.buffer[Prompt(uid)].status == Some(Finished)
      && s'.jobs[uid].step !in s'.retired
      ensures Row(uid, session, i) in s'.buffer
    {
      assert IsRow(s.jobs, Row(uid, session, i));
    }
  }

  lemma DispatchQueue(s: System, s': System)
    requires QueueInv(s) && s'.queue == s.queue && s'.retired == s.retired && Genuine(s', s.queue)
    requires forall uid :: uid in s'.jobs ==>
               if uid in s.jobs then s'.jobs[uid] == s.jobs[uid] else s'.jobs[uid].posted == {} && s'.jobs[uid].ended.None?
    ensures QueueInv(s')
  {
    hide Genuine;
    forall uid, session: nat, i: nat {:trigger Row(uid, session, i)} |
      IsRow(s'.jobs, Row(uid, session, i)) && session in s'.jobs[uid].posted && s'.jobs[uid].step !in s'.retired
      ensures Row(uid, session, i) in s'.queue
    {
      assert IsRow(s.jobs, Row(uid, session, i));
    }
  }

  lemma DispatchInv(s: System, e: Event)
    requires Inv(s) && Possible(s, e) && e.Dispatch?
    ensures Inv(Step(s, e))
  {
    hide BufferInv, Genuine, Merged, MarkRunning;
    var s' := Step(s, e);
    DispatchEffect(s, e);
    DispatchBuffer(s, e, s');
    assert Genuine(s, s.queue) by { QueueIsGenuine(s); }
    GenuineLater(s, s', s.queue);
    if s.snapshot.Some? { GenuineLater(s, s', s.snapshot.value); }
    DispatchQueue(s, s');
    hide QueueInv;
  }

  lemma QueueIsGenuine(s: System)
    requires QueueInv(s)
    ensures Genuine(s, s.queue)
  {
  }

  lemma PostGenuine(s: System, e: Event)
    requires QueueInv(s) && Possible(s, e) && e.PostSession?
    ensures Genuine(Step(s, e), Step(s, e).queue)
  {
    var s' := Step(s, e);
    var rows := SessionRows(e.uid, e.session, s.jobs[e.uid]);
    assert Genuine(s, s.queue);
    forall key | key in s'.queue && key.Row?
      ensures IsRow(s'.jobs, key) && s'.queue[key] == RowTags(s'.jobs[key.uid].step)
    {
      if key in s.queue { assert IsRow(s.jobs, key); }
      if key in rows { assert rows[key] == RowTags(s.jobs[e.uid].step); }
    }
    forall uid, session: nat, i: nat {:trigger Row(uid, session, i)} |
      Prompt(uid) in s'.queue && s'.jobs[uid].ended == Some(Finished) && IsRow(s'.jobs, Row(uid, session, i))
      && s'.jobs[uid].step !in s'.retired
      ensures Row(uid, session, i) in s'.queue
    {
      assert IsRow(s.jobs, Row(uid, session, i));
    }
  }

  lemma PostQueue(s: System, e: Event)
    requires QueueInv(s) && Possible(s, e) && e.PostSession?
    ensures QueueInv(Step(s, e))
  {
    PostGenuine(s, e);
    var s' := Step(s, e);
    var rows := SessionRows(e.uid, e.session, s.jobs[e.uid]);
    hide Genuine;
    forall uid, session: nat, i: nat {:trigger Row(uid, session, i)} |
      IsRow(s'.jobs, Row(uid, session, i)) && session in s'.jobs[uid].posted && s'.jobs[uid].step !in s'.retired
      ensures Row(uid, session, i) in s'.queue
    {
      assert IsRow(s.jobs, Row(uid, session, i));
      if uid == e.uid && session == e.session { assert Row(uid, session, i) in rows; }
    }
  }

  lemma PostInv(s: System, e: Event)
    requires Inv(s) && Possible(s, e) && e.PostSession?
    ensures Inv(Step(s, e))
  {
    var s' := Step(s, e);
    PostQueue(s, e);
    BufferLater(s, s');
    if s.snapshot.Some? { GenuineLater(s, s', s.snapshot.value); }
    hide Genuine, QueueInv, BufferInv, Merged;
  }

  lemma FinishGenuine(s: System, e: Event)
    requires QueueInv(s) && Possible(s, e) && (e.PutFinished? || e.PutFailure?)
    ensures Genuine(Step(s, e), Step(s, e).queue)
  {
    var s' := Step(s, e);
    assert Genuine(s, s.queue);
    forall key | key in s'.queue && key.Row?
      ensures IsRow(s'.jobs, key) && s'.queue[key] == RowTags(s'.jobs[key.uid].step)
    {
      assert key in s.queue && IsRow(s.jobs, key);
    }
    forall uid, session: nat, i: nat {:trigger Row(uid, session, i)} |
      Prompt(uid) in s'.queue && s'.jobs[uid].ended == Some(Finished) && IsRow(s'.jobs, Row(uid, session, i))
      && s'.jobs[uid].step !in s'.retired
      ensures Row(uid, session, i) in s'.queue
    {
      assert IsRow(s.jobs, Row(uid, session, i));
    }
  }

  lemma FinishQueue(s: System, e: Event)
    requires QueueInv(s) && Possible(s, e) && (e.PutFinished? || e.PutFailure?)
    ensures QueueInv(Step(s, e))
  {
    FinishGenuine(s, e);
    var s' := Step(s, e);
    hide Genuine;
    forall uid, session: nat, i: nat {:trigger Row(uid, session, i)} |
      IsRow(s'.jobs, Row(uid, session, i)) && session in s'.jobs[uid].posted && s'.jobs[uid].step !in s'.retired
      ensures Row(uid, session, i) in s'.queue
    {
      assert IsRow(s.jobs, Row(uid, session, i));
    }
  }

  lemma FinishInv(s: System, e: Event)
    requires Inv(s) && Possible(s, e) && (e.PutFinished? || e.PutFailure?)
    ensures Inv(Step(s, e))
  {
    var s' := Step(s, e);
    FinishQueue(s, e);
    BufferLater(s, s');
    if s.snapshot.Some? { GenuineLater(s, s', s.snapshot.value); }
    hide Genuine, QueueInv, BufferInv, Merged;
  }

  predicate PromptMerged(s: System, s': System, d: Entries, uid: string)
    requires uid in s.jobs
  {
    && Prompt(uid) in s.buffer && Prompt(uid) in s'.buffer
    && s'.buffer[Prompt(uid)] ==
       (if Prompt(uid) in d then Tags(Some(s.jobs[uid].step), s.jobs[uid].ended) else s.buffer[Prompt(uid)])
  }

  /** What merging a list does to the buffer. */
  lemma MergeEffect(s: System, e: Event)
    requires Inv(s) && Possible(s, e) && e.Merge?
    ensures var s', d := Step(s, e), s.snapshot.value;
            && (forall key :: key in s'.buffer <==> key in s.buffer || key in d)
            && (forall key :: key in s'.buffer && key.Row? ==>
                  IsRow(s.jobs, key) && s'.buffer[key] == RowTags(s.jobs[key.uid].step))
            && (forall uid :: uid in s.jobs ==> PromptMerged(s, s', d, uid))
  {
    hide QueueInv;
  }

  lemma MergeBuffer(s: System, s': System, d: Entries)
    requires BufferInv(s) && Genuine(s, d) && s'.jobs == s.jobs && s'.retired == s.retired
    requires forall key :: key in s'.buffer <==> key in s.buffer || key in d
    requires forall key :: key in s'.buffer && key.Row? ==> IsRow(s.jobs, key) && s'.buffer[key] == RowTags(s.jobs[key.uid].step)
    requires forall uid :: uid in s.jobs ==> PromptMerged(s, s', d, uid)
    ensures BufferInv(s')
  {
  }

  lemma MergeInv(s: System, e: Event)
    requires Inv(s) && Possible(s, e) && e.Merge?
    ensures Inv(Step(s, e))
  {
    MergeEffect(s, e);
    QueueIsGenuine(s);
    hide Genuine, BufferInv, Merged;
    var s', d := Step(s, e), s.snapshot.value;
    GenuineLater(s, s', s.queue);
    MergeBuffer(s, s', d);
    QueueLater(s, s');
    hide QueueInv;
  }

  lemma QueueLater(s: System, s': System)
    requires QueueInv(s) && s'.queue == s.queue && s'.jobs == s.jobs && s'.retired == s.retired && Genuine(s', s.queue)
    ensures QueueInv(s')
  {
    hide Genuine;
  }

  lemma RetireInv(s: System, e: Event)
    requires Inv(s) && Possible(s, e) && (e.Retire? || e.ClearQueue? || e.RemoveRows? || e.Poll?)
    ensures Inv(Step(s, e))
  {
    var s' := Step(s, e);
    GenuineLater(s, s', s.queue);
    if s.snapshot.Some? { GenuineLater(s, s', s.snapshot.value); }
  }

  /** Every event, in any order, keeps the invariant. */
  lemma StepInv(s: System, e: Event)
    requires Inv(s) && Possible(s, e)
    ensures Inv(Step(s, e))
  {
    match e
    case Dispatch(_, _) => DispatchInv(s, e);
    case PostSession(_, _) => PostInv(s, e);
    case PutFinished(_) => FinishInv(s, e);
    case PutFailure(_) => FinishInv(s, e);
    case Merge => MergeInv(s, e);
    case _ => RetireInv(s, e);
  }

  ghost predicate IsRun(s: System, events: seq<Event>)
    decreases |events|
  {
    events == [] || (Possible(s, events[0]) && IsRun(Step(s, events[0]), events[1..]))
  }

  ghost function After(s: System, events: seq<Event>): System
    requires IsRun(s, events)
    decreases |events|
  {
    if events == [] then s else After(Step(s, events[0]), events[1..])
  }

  lemma {:induction false} RunInv(s: System, events: seq<Event>)
    requires Inv(s) && IsRun(s, events)
    ensures Inv(After(s, events))
    decreases |events|
  {
    if events != [] {
      StepInv(s, events[0]);
      RunInv(Step(s, events[0]), events[1..]);
    }
  }

  ghost predicate Failed(s: System, key: Key) {
    key.Row? && key.uid in s.jobs && s.jobs[key.uid].ended == Some(Failure)
  }

  /** In every interleaving of dispatches, puts, failures, snapshots, late merges and removals: a scan of the buffer
      never misses a tag; and once it does not have to wait, for a step that is not retired, it selects of the rows
      that the prompts dispatched for that step produce all but those of failed prompts that have not arrived. */
  lemma SampleIsComplete(events: seq<Event>, step: int)
    requires IsRun(START, events)
    ensures FullyTagged(After(START, events).buffer)
    ensures var s := After(START, events);
            !MustWait(s.buffer, Some(step)) && step !in s.retired ==>
              forall key :: key in Selected(s.buffer, Some(step)) <==>
                              Produced(s, step, key) && (Failed(s, key) ==> key in s.buffer)
  {
    RunInv(START, events);
    var s := After(START, events);
    forall key | key in s.buffer ensures s.buffer[key].globalSteps.Some? && s.buffer[key].status.Some? {
      if key.Prompt? { assert key == Prompt(key.uid); }
    }
    if !MustWait(s.buffer, Some(step)) && step !in s.retired {
      forall key
        ensures key in Selected(s.buffer, Some(step)) <==> Produced(s, step, key) && (Failed(s, key) ==> key in s.buffer)
      {
        SelectedRow(s, step, key);
      }
    }
  }

  /** If no prompt of the step has failed, the sample is exactly the rows of the step. */
  lemma SampleWithoutFailures(events: seq<Event>, step: int)
    requires IsRun(START, events)
    ensures var s := After(START, events);
            && !MustWait(s.buffer, Some(step)) && step !in s.retired
            && (forall uid :: uid in s.jobs && s.jobs[uid].step == step ==> s.jobs[uid].ended != Some(Failure)) ==>
              forall key :: key in Selected(s.buffer, Some(step)) <==> Produced(s, step, key)
  {
    hide IsRun, After, Selected, MustWait;
    SampleIsComplete(events, step);
  }

  /** In every run, whatever fails, and whether or not it has to wait: what is selected for a step are rows that
      this step's prompts produced. A prompt's own entry is never among them. */
  lemma NoPromptIsSelected(events: seq<Event>, step: int)
    requires IsRun(START, events)
    ensures var s := After(START, events);
            forall key :: key in Selected(s.buffer, Some(step)) ==> key.Row? && Produced(s, step, key)
  {
    RunInv(START, events);
    var s := After(START, events);
    hide Selected;
    forall uid | Prompt(uid) in s.buffer ensures s.buffer[Prompt(uid)].status != Some(Success) {
      PromptIsNoSuccess(s, uid);
    }
    SelectedMeans(s.buffer, step);
  }

  lemma PromptIsNoSuccess(s: System, uid: string)
    requires Inv(s) && Prompt(uid) in s.buffer
    ensures s.buffer[Prompt(uid)].status != Some(Success)
  {
  }

  lemma SelectedMeans(entries: Entries, step: int)
    ensures forall key :: key in Selected(entries, Some(step)) ==>
              key in entries && entries[key].globalSteps == Some(step) && entries[key].status == Some(Success)
  {
  }

  lemma SelectedRow(s: System, step: int, key: Key)
    requires Inv(s) && !MustWait(s.buffer, Some(step)) && step !in s.retired
    ensures key in Selected(s.buffer, Some(step)) <==> Produced(s, step, key) && (Failed(s, key) ==> key in s.buffer)
  {
    match key
    case Prompt(uid) =>
      if key in s.buffer { assert s.buffer[Prompt(uid)].status != Some(Success); }
    case Row(uid, session, i) =>
      if Produced(s, step, key) {
        assert Prompt(uid) in s.buffer && s.buffer[Prompt(uid)].status != Some(Running);
        if !Failed(s, key) { assert Row(uid, session, i) in s.buffer; }
      }
  }

  /** When every prompt of the step has ended, one poll and its merge let the sampler through. */
  lemma SampleGetsThrough(s: System, step: int)
    requires Inv(s) && forall uid :: uid in s.jobs && s.jobs[uid].step == step ==> s.jobs[uid].ended.Some?
    ensures Possible(Step(s, Poll), Merge)
    ensures !MustWait(Step(Step(s, Poll), Merge).buffer, Some(step))
  {
    var s1 := Step(Step(s, Poll), Merge);
    forall key | key in s1.buffer && s1.buffer[key].globalSteps == Some(step)
      ensures s1.buffer[key].status != Some(Running)
    {
      if key.Prompt? {
        StepInv(s, Poll);
        StepInv(Step(s, Poll), Merge);
        assert key == Prompt(key.uid) && key.uid in s.jobs;
        assert s.queue[key] == Tags(None, s.jobs[key.uid].ended);
      } else if key in s.buffer {
        assert s.buffer[key] == RowTags(s.jobs[key.uid].step);
      } else {
        assert s.queue[key] == RowTags(s.jobs[key.uid].step);
      }
    }
  }

  /** A call with a batch size passes no step. No entry of a fully tagged buffer carries that, so such a call never
      waits and returns nothing. */
  lemma NoStepSelectsNothing(entries: Entries)
    requires FullyTagged(entries)
    ensures Selected(entries, None) == {} && !MustWait(entries, None)
  {
  }

  /** In every interleaving a call with a batch size is let through at once, and empty-handed: also when rows of
      some step are there. */
  lemma BatchSizeSelectsNothing(events: seq<Event>)
    requires IsRun(START, events)
    ensures var buffer := After(START, events).buffer; Selected(buffer, None) == {} && !MustWait(buffer, None)
  {
    hide Selected, MustWait, IsRun, After, FullyTagged;
    SampleIsComplete(events, 0);
    NoStepSelectsNothing(After(START, events).buffer);
  }
}
