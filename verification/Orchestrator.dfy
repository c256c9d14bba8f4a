/** The worker table driven by the tracker, as a step machine: reconciliations, event handling, each
    worker goroutine's own steps and shutdown interleave freely. */
module Orchestrator {
  import opened Domain
  import opened Detect

  /** How much of its outcome a job has told: nothing, the finished record, or the published verdict too. */
  datatype Told = Nothing | Record(complete: bool) | Verdict(complete: bool)

  /** Where a worker goroutine is: the body of ingest, its deferred teardown, then the goroutine's own
      deferred calls. */
  datatype Phase =
    | Spawned                                // started, ingest not entered
    | Ingesting                              // status published, mount not tried
    | Attended(mounted: bool, told: Told)    // the mount succeeded, or it failed and the job fails
    | TornDown                               // past Unmount
    | Quiet                                  // status idle again
    | Gone                                   // finishWorker done
    | Exited                                 // wg.Done called

  /** recorded tells that startJob got a record to finish later. */
  datatype Job = Job(slot: Slot, serial: string, cancelled: bool, phase: Phase, recorded: bool)
  {
    predicate Live() { !phase.Gone? && !phase.Exited? }
    predicate Busy() { phase.Ingesting? || phase.Attended? || phase.TornDown? }
  }

  /** told is what the app has been told so far about each slot; workers is the cancel-func table. */
  datatype State = State(
    present: Snap, pending: Snap, outbox: seq<Event>, told: map<Slot, string>,
    workers: map<Slot, nat>, jobs: map<nat, Job>, nextId: nat, wg: nat,
    ingesting: map<Slot, bool>, stopping: bool, returned: bool)

  /** What a worker goroutine does next, apart from finishWorker. */
  datatype Move =
    | Begin(recorded: bool)                    // startJob, and setStatus "ingesting"
    | Mount(ok: bool)
    | FinishJob(complete: bool)
    | Publish(complete: bool)                  // job_complete or job_error
    | Unmount
    | SetIdle
    | Done                                     // wg.Done

  datatype Action =
    | Poll(snap: Snap, events: seq<Event>)     // one reconciliation, with its events in some order
    | Handle                                   // the app receives the next event
    | Work(id: nat, move: Move)
    | FinishWorker(id: nat)
    | Stop                                     // the run loop ends: shutdown cancels every entry
    | Return                                   // wg.Wait returns

  /** Only a job that was mounted completes; the record, if there is one, is finished before the verdict. */
  predicate CanMove(j: Job, move: Move) {
    match move
    case Begin(_) => j.phase.Spawned?
    case Mount(_) => j.phase.Ingesting?
    case FinishJob(c) => j.phase.Attended? && j.phase.told.Nothing? && j.recorded && (c ==> j.phase.mounted)
    case Publish(c) =>
      j.phase.Attended? && (c ==> j.phase.mounted) && j.phase.told == if j.recorded then Record(c) else Nothing
    case Unmount => j.phase.Attended? && j.phase.mounted && j.phase.told.Verdict?
    case SetIdle => j.phase.TornDown? || (j.phase.Attended? && !j.phase.mounted && j.phase.told.Verdict?)
    case Done => j.phase.Gone?
  }

  function Moved(j: Job, move: Move): Job
    requires CanMove(j, move)
  {
    match move
    case Begin(recorded) => j.(phase := Ingesting, recorded := recorded)
    case Mount(ok) => j.(phase := Attended(ok, Nothing))
    case FinishJob(c) => j.(phase := j.phase.(told := Record(c)))
    case Publish(c) => j.(phase := j.phase.(told := Verdict(c)))
    case Unmount => j.(phase := TornDown)
    case SetIdle => j.(phase := Quiet)
    case Done => j.(phase := Exited)
  }

  /** A poll is what Detect.Tracker.Reconcile promises of one; the next one waits until every event of the
      last has been received. */
  ghost predicate Enabled(s: State, a: Action) {
    match a
    case Poll(snap, events) =>
      && s.outbox == []
      && Arranges(events, s.present, s.pending, snap)
      && Replay(Serials(s.present), events) == Some(Serials(NextPresent(s.present, s.pending, snap)))
    case Handle => s.outbox != [] && !s.stopping
    case Work(id, move) => id in s.jobs && CanMove(s.jobs[id], move) && (move.Done? ==> s.wg > 0)
    case FinishWorker(id) => id in s.jobs && s.jobs[id].phase.Quiet?
    case Stop => !s.stopping
    case Return => s.stopping && s.wg == 0
  }

  /** The job behind a slot's table entry is cancelled; nothing happens without an entry. */
  function Cancel(s: State, slot: Slot): map<nat, Job> {
    if slot in s.workers && s.workers[slot] in s.jobs
    then s.jobs[s.workers[slot] := s.jobs[s.workers[slot]].(cancelled := true)] else s.jobs
  }

  function CancelAll(s: State): map<nat, Job> {
    map id | id in s.jobs ::
      if s.jobs[id].slot in s.workers && s.workers[s.jobs[id].slot] == id then s.jobs[id].(cancelled := true)
      else s.jobs[id]
  }

  function Receive(s: State, e: Event): State {
    match e
    case Inserted(slot, device) =>
      if slot in s.workers then s              // busy: the insert is dropped
      else s.(workers := s.workers[slot := s.nextId],
              jobs := s.jobs[s.nextId := Job(slot, device.serial, false, Spawned, false)],
              nextId := s.nextId + 1, wg := s.wg + 1)
    case Removed(slot, _) => s.(jobs := Cancel(s, slot))
  }

  function SetStatus(ingesting: map<Slot, bool>, slot: Slot, move: Move): map<Slot, bool> {
    match move case Begin(_) => ingesting[slot := true] case SetIdle => ingesting[slot := false] case _ => ingesting
  }

  function Finish(s: State, id: nat): State
    requires id in s.jobs
  {
    var slot := s.jobs[id].slot;
    var jobs := Cancel(s, slot);
    s.(jobs := jobs[id := (if id in jobs then jobs[id] else s.jobs[id]).(phase := Gone)], workers := s.workers - {slot})
  }

  function Step(s: State, a: Action): State
    requires a.Work? || a.FinishWorker? ==> a.id in s.jobs
    requires a.Work? ==> CanMove(s.jobs[a.id], a.move)
    requires a.Handle? ==> s.outbox != []
    requires a.Work? && a.move.Done? ==> s.wg > 0
  {
    match a
    case Poll(snap, events) =>
      s.(present := NextPresent(s.present, s.pending, snap), pending := NextPending(s.present, s.pending, snap),
         outbox := events)
    case Handle =>
      var told := Tell(s.told, s.outbox[0]);
      Receive(s.(outbox := s.outbox[1..], told := if told.Some? then told.value else s.told), s.outbox[0])
    case Work(id, move) =>
      s.(jobs := s.jobs[id := Moved(s.jobs[id], move)],
         ingesting := SetStatus(s.ingesting, s.jobs[id].slot, move),
         wg := if move.Done? then s.wg - 1 else s.wg)
    case FinishWorker(id) => Finish(s, id)
    case Stop => s.(jobs := CancelAll(s), stopping := true)
    case Return => s.(returned := true)
  }

  ghost predicate Initial(s: State) {
    && s.present == map[] && s.pending == map[] && s.outbox == [] && s.told == map[]
    && s.workers == map[] && s.jobs == map[] && s.wg == 0 && s.ingesting == map[] && !s.stopping && !s.returned
  }

  // ---------- the invariant ----------

  /** The table and the goroutines that have not finished match one to one. */
  ghost predicate TableOk(s: State) {
    && (forall slot :: slot in s.workers ==>
          s.workers[slot] in s.jobs && s.jobs[s.workers[slot]].slot == slot && s.jobs[s.workers[slot]].Live())
    && (forall id :: id in s.jobs ==> JobFits(s, id))
  }

  ghost predicate JobFits(s: State, id: nat)
    requires id in s.jobs
  {
    var j := s.jobs[id];
    && id < s.nextId
    && (j.Live() ==> j.slot in s.workers && s.workers[j.slot] == id)
  }

  /** A slot shows as ingesting exactly while its worker is inside ingest. */
  predicate Shown(s: State, slot: Slot) { slot in s.ingesting && s.ingesting[slot] }

  ghost predicate StatusOk(s: State) {
    forall slot :: Shown(s, slot) <==> slot in s.workers && s.workers[slot] in s.jobs && s.jobs[s.workers[slot]].Busy()
  }

  /** A worker not cancelled belongs to the card the app was last told is in its slot; once the app
      stops, every worker is cancelled. */
  ghost predicate CardOk(s: State, slot: Slot) {
    slot in s.workers && s.workers[slot] in s.jobs && !s.jobs[s.workers[slot]].cancelled ==>
      !s.stopping && slot in s.told && s.told[slot] == s.jobs[s.workers[slot]].serial
  }

  ghost predicate CardsOk(s: State) { forall slot :: CardOk(s, slot) }

  /** The events not yet received take what the app was told to what the tracker has committed. */
  ghost predicate ToldOk(s: State) { Replay(s.told, s.outbox) == Some(Serials(s.present)) }

  ghost function Running(s: State): set<nat> { set id | id in s.jobs && !s.jobs[id].phase.Exited? }

  ghost predicate Inv(s: State) {
    TableOk(s) && StatusOk(s) && CardsOk(s) && ToldOk(s) && s.wg == |Running(s)| &&
      (s.returned ==> s.stopping && s.wg == 0)
  }

  lemma {:induction false} ReplayHead(known: map<Slot, string>, events: seq<Event>)
    requires Replay(known, events).Some? && events != []
    ensures Tell(known, events[0]).Some?
    ensures Replay(Tell(known, events[0]).value, events[1..]) == Replay(known, events)
  {
    assert events == [events[0]] + events[1..];
    ReplayAppend(known, [events[0]], events[1..]);
    ReplaySnoc(known, [], events[0]);
  }

  /** The table invariant is about the table, the jobs and the next job number only. */
  lemma TableFrame(s: State, t: State)
    requires TableOk(s) && t.workers == s.workers && t.jobs == s.jobs && t.nextId == s.nextId
    ensures TableOk(t) && Running(t) == Running(s)
  {
    forall id | id in t.jobs ensures JobFits(t, id) { assert JobFits(s, id); }
  }

  lemma ReceiveKeepsTable(s: State, e: Event)
    requires TableOk(s)
    ensures TableOk(Receive(s, e))
  {
    var t := Receive(s, e);
    forall id | id in t.jobs ensures JobFits(t, id) {
      if id in s.jobs {
        assert JobFits(s, id);
      }
    }
  }

  lemma ReceiveKeepsStatus(s: State, e: Event)
    requires TableOk(s) && StatusOk(s)
    ensures StatusOk(Receive(s, e))
  {
    forall id | id in s.jobs ensures id < s.nextId {
      assert JobFits(s, id);
    }
  }

  lemma NewJobIsRunning(s: State, t: State, id: nat, j: Job)
    requires id !in s.jobs && !j.phase.Exited? && t.jobs == s.jobs[id := j]
    ensures |Running(t)| == |Running(s)| + 1
  {
    assert Running(t) == Running(s) + {id};
  }

  lemma CancelKeepsRunning(s: State, slot: Slot)
    ensures Running(s.(jobs := Cancel(s, slot))) == Running(s)
  {
  }

  lemma ReceiveKeepsCount(s: State, e: Event)
    requires TableOk(s) && s.wg == |Running(s)|
    ensures Receive(s, e).wg == |Running(Receive(s, e))|
  {
    assert s.nextId !in s.jobs by {
      forall id | id in s.jobs ensures id < s.nextId { assert JobFits(s, id); }
    }
    hide TableOk, Running, Cancel;
    match e
    case Inserted(slot, device) =>
      if slot !in s.workers {
        NewJobIsRunning(s, Receive(s, e), s.nextId, Job(slot, device.serial, false, Spawned, false));
      }
    case Removed(slot, _) => CancelKeepsRunning(s, slot);
  }

  /** An event leaves the workers of the other slots alone. */
  lemma ReceiveElsewhere(s: State, e: Event, slot: Slot)
    requires TableOk(s) && slot != e.slot && slot in s.workers
    ensures var t := Receive(s, e);
      slot in t.workers && t.workers[slot] == s.workers[slot] && t.workers[slot] in t.jobs &&
        t.jobs[t.workers[slot]] == s.jobs[s.workers[slot]]
  {
    assert JobFits(s, s.workers[slot]);
  }

  lemma ReceiveKeepsCard(s: State, e: Event, slot: Slot)
    requires TableOk(s) && CardOk(s, slot) && !s.stopping && Tell(s.told, e).Some?
    ensures CardOk(Receive(s.(told := Tell(s.told, e).value), e), slot)
  {
    var heard := s.(told := Tell(s.told, e).value);
    if slot != e.slot && slot in s.workers {
      TableFrame(s, heard);
      ReceiveElsewhere(heard, e, slot);
    }
  }

  lemma HandleKeepsInv(s: State)
    requires Inv(s) && Enabled(s, Handle)
    ensures Inv(Step(s, Handle))
  {
    ReplayHead(s.told, s.outbox);
    var heard := s.(outbox := s.outbox[1..], told := Tell(s.told, s.outbox[0]).value);
    TableFrame(s, s.(outbox := s.outbox[1..]));
    TableFrame(s, heard);
    ReceiveKeepsTable(heard, s.outbox[0]);
    ReceiveKeepsStatus(heard, s.outbox[0]);
    ReceiveKeepsCount(heard, s.outbox[0]);
    forall slot ensures CardOk(Step(s, Handle), slot) {
      assert CardOk(s, slot);
      assert CardOk(s.(outbox := s.outbox[1..]), slot);
      ReceiveKeepsCard(s.(outbox := s.outbox[1..]), s.outbox[0], slot);
    }
  }

  lemma WorkKeepsTable(s: State, id: nat, move: Move)
    requires TableOk(s) && Enabled(s, Work(id, move))
    ensures TableOk(Step(s, Work(id, move)))
  {
    var t := Step(s, Work(id, move));
    assert JobFits(s, id);
    forall k | k in t.jobs ensures JobFits(t, k) {
      assert JobFits(s, k);
    }
  }

  lemma WorkKeepsStatus(s: State, id: nat, move: Move)
    requires TableOk(s) && StatusOk(s) && Enabled(s, Work(id, move))
    ensures StatusOk(Step(s, Work(id, move)))
  {
    assert JobFits(s, id);
  }

  lemma WorkKeepsCount(s: State, id: nat, move: Move)
    requires s.wg == |Running(s)| && Enabled(s, Work(id, move))
    ensures Step(s, Work(id, move)).wg == |Running(Step(s, Work(id, move)))|
  {
    assert Running(Step(s, Work(id, move))) == if move.Done? then Running(s) - {id} else Running(s);
  }

  lemma WorkKeepsInv(s: State, id: nat, move: Move)
    requires Inv(s) && Enabled(s, Work(id, move))
    ensures Inv(Step(s, Work(id, move)))
  {
    var t := Step(s, Work(id, move));
    WorkKeepsTable(s, id, move);
    WorkKeepsStatus(s, id, move);
    forall slot ensures CardOk(t, slot) {
      assert CardOk(s, slot);
    }
    WorkKeepsCount(s, id, move);
  }

  lemma FinishKeepsTable(s: State, id: nat)
    requires TableOk(s) && Enabled(s, FinishWorker(id))
    ensures TableOk(Step(s, FinishWorker(id)))
  {
    var t := Step(s, FinishWorker(id));
    assert JobFits(s, id);
    forall k | k in t.jobs ensures JobFits(t, k) {
      assert JobFits(s, k);
    }
  }

  lemma FinishKeepsInv(s: State, id: nat)
    requires Inv(s) && Enabled(s, FinishWorker(id))
    ensures Inv(Step(s, FinishWorker(id)))
  {
    FinishKeepsTable(s, id);
    assert JobFits(s, id);
    forall slot ensures CardOk(Step(s, FinishWorker(id)), slot) {
      assert CardOk(s, slot);
    }
    assert Running(Step(s, FinishWorker(id))) == Running(s);
  }

  lemma StopKeepsInv(s: State)
    requires Inv(s) && Enabled(s, Stop)
    ensures Inv(Step(s, Stop))
  {
    var t := Step(s, Stop);
    assert TableOk(t) by {
      forall id | id in t.jobs ensures JobFits(t, id) { assert JobFits(s, id); }
    }
    forall slot ensures CardOk(t, slot) { assert CardOk(s, slot); }
    assert Running(t) == Running(s);
  }

  lemma PollKeepsInv(s: State, snap: Snap, events: seq<Event>)
    requires Inv(s) && Enabled(s, Poll(snap, events))
    ensures Inv(Step(s, Poll(snap, events)))
  {
    var t := Step(s, Poll(snap, events));
    TableFrame(s, t);
    forall slot ensures CardOk(t, slot) { assert CardOk(s, slot); }
  }

  lemma StepKeepsInv(s: State, a: Action)
    requires Inv(s) && Enabled(s, a)
    ensures Inv(Step(s, a))
  {
    match a
    case Poll(snap, events) => PollKeepsInv(s, snap, events);
    case Handle => HandleKeepsInv(s);
    case Work(id, move) => WorkKeepsInv(s, id, move);
    case FinishWorker(id) => FinishKeepsInv(s, id);
    case Stop => StopKeepsInv(s);
    case Return =>
      var t := Step(s, a);
      assert TableOk(t) by {
        forall id | id in t.jobs ensures JobFits(t, id) { assert JobFits(s, id); }
      }
      forall slot ensures CardOk(t, slot) { assert CardOk(s, slot); }
      assert Running(t) == Running(s);
  }

  // ---------- single steps ----------

  /** t is what the enabled action a makes of s, where the invariant holds. */
  ghost predicate Next(s: State, a: Action, t: State) {
    Inv(s) && Enabled(s, a) && t == Step(s, a)
  }

  /** The event the app receives in a step, if it receives one. */
  function Received(s: State, a: Action): Option<Event> {
    if a.Handle? && s.outbox != [] then Some(s.outbox[0]) else None
  }

  predicate IsRemoval(e: Option<Event>, slot: Slot) { e.Some? && e.value.Removed? && e.value.slot == slot }

  /** The event of a step removes this job's card. */
  predicate RemovesCardOf(e: Option<Event>, j: Job) { IsRemoval(e, j.slot) && e.value.device.serial == j.serial }

  lemma HandleCancels(s: State, id: nat)
    requires Inv(s) && Enabled(s, Handle) && id in s.jobs
    ensures var t := Step(s, Handle);
      && id in t.jobs && t.jobs[id].slot == s.jobs[id].slot && t.jobs[id].serial == s.jobs[id].serial
      && (t.jobs[id].cancelled && !s.jobs[id].cancelled ==> RemovesCardOf(Received(s, Handle), s.jobs[id]))
  {
    hide StatusOk, Running;
    assert JobFits(s, id) && CardOk(s, s.jobs[id].slot);
    ReplayHead(s.told, s.outbox);
  }

  lemma FinishCancels(s: State, other: nat, id: nat)
    requires Inv(s) && Enabled(s, FinishWorker(other)) && id in s.jobs
    ensures var t := Step(s, FinishWorker(other));
      && id in t.jobs && t.jobs[id].slot == s.jobs[id].slot && t.jobs[id].serial == s.jobs[id].serial
      && (t.jobs[id].cancelled && !s.jobs[id].cancelled ==> other == id)
  {
    hide StatusOk, CardsOk, Running;
    assert JobFits(s, id) && JobFits(s, other);
  }

  /** Why a worker gets cancelled: the removal of its own card, its own end, or shutdown. */
  lemma StepCancels(s: State, a: Action, t: State, id: nat)
    requires Next(s, a, t) && id in s.jobs
    ensures id in t.jobs && t.jobs[id].slot == s.jobs[id].slot && t.jobs[id].serial == s.jobs[id].serial
    ensures t.jobs[id].cancelled && !s.jobs[id].cancelled ==>
      a == FinishWorker(id) || a.Stop? || RemovesCardOf(Received(s, a), s.jobs[id])
  {
    match a
    case Handle => hide Inv, Step, Enabled; HandleCancels(s, id);
    case FinishWorker(other) => hide Inv, Step, Enabled; FinishCancels(s, other, id);
    case _ => hide Inv;
  }

  /** How often a job has taken each of the moves that must balance. */
  datatype Toll = Toll(mounts: nat, unmounts: nat, completed: nat, failed: nat, jobComplete: nat, jobError: nat)

  const FREE: Toll := Toll(0, 0, 0, 0, 0, 0)

  /** What the toll is once so much of the outcome has been told. */
  function TollAt(told: Told, recorded: bool, mounts: nat, unmounts: nat): Toll {
    match told
    case Nothing => Toll(mounts, unmounts, 0, 0, 0, 0)
    case Record(c) => Toll(mounts, unmounts, One(c), One(!c), 0, 0)
    case Verdict(c) => Toll(mounts, unmounts, One(recorded && c), One(recorded && !c), One(c), One(!c))
  }

  function One(b: bool): nat { if b then 1 else 0 }

  ghost predicate Balanced(s: State, id: nat, toll: Toll) {
    if id !in s.jobs || s.jobs[id].phase.Spawned? || s.jobs[id].phase.Ingesting? then toll == FREE
    else
      var j := s.jobs[id];
      if j.phase.Attended? then
        toll == TollAt(j.phase.told, j.recorded, One(j.phase.mounted), 0)
        && (j.phase.told.Record? ==> j.recorded)
        && (!j.phase.told.Nothing? && j.phase.told.complete ==> j.phase.mounted)
      else exists c ::
        (c ==> toll.mounts == 1) && toll.mounts <= 1 && toll == TollAt(Verdict(c), j.recorded, toll.mounts, toll.mounts)
  }

  function Once(a: Action, b: Action): nat { if a == b then 1 else 0 }

  /** The toll after one more action. */
  function Charge(toll: Toll, a: Action, id: nat): Toll {
    Toll(toll.mounts + Once(a, Work(id, Mount(true))), toll.unmounts + Once(a, Work(id, Unmount)),
         toll.completed + Once(a, Work(id, FinishJob(true))), toll.failed + Once(a, Work(id, FinishJob(false))),
         toll.jobComplete + Once(a, Work(id, Publish(true))), toll.jobError + Once(a, Work(id, Publish(false))))
  }

  lemma HandleMoves(s: State, t: State, id: nat)
    requires Next(s, Handle, t)
    ensures id !in s.jobs && id in t.jobs ==> t.jobs[id].phase.Spawned?
    ensures id in s.jobs ==>
      id in t.jobs && t.jobs[id].phase == s.jobs[id].phase && t.jobs[id].recorded == s.jobs[id].recorded
  {
    var e := s.outbox[0];
    assert Step(s, Handle).jobs ==
      if e.Removed? then Cancel(s, e.slot)
      else if e.slot in s.workers then s.jobs
      else s.jobs[s.nextId := Job(e.slot, e.device.serial, false, Spawned, false)];
    if id in s.jobs { assert JobFits(s, id); }
  }

  /** What one step does to the phase of a job. */
  lemma StepMoves(s: State, a: Action, t: State, id: nat)
    requires Next(s, a, t)
    ensures id !in s.jobs && id in t.jobs ==> a.Handle? && t.jobs[id].phase.Spawned?
    ensures a.Work? && a.id == id ==> id in s.jobs && CanMove(s.jobs[id], a.move)
    ensures id in s.jobs ==> (id in t.jobs
      && t.jobs[id].phase == NextJob(s.jobs[id], a, id).phase
      && t.jobs[id].recorded == NextJob(s.jobs[id], a, id).recorded)
    ensures a == FinishWorker(id) ==> id in s.jobs && s.jobs[id].phase.Quiet?
  {
    match a
    case FinishWorker(other) =>
      assert JobFits(s, other);
      if id in s.jobs && s.jobs[id].Live() { assert JobFits(s, id); }
    case Handle => HandleMoves(s, t, id);
    case _ =>
  }

  function NextJob(j: Job, a: Action, id: nat): Job
    requires a.Work? && a.id == id ==> CanMove(j, a.move)
  {
    if a.Work? && a.id == id then Moved(j, a.move) else if a == FinishWorker(id) then j.(phase := Gone) else j
  }

  lemma StepBalances(s: State, a: Action, t: State, id: nat, toll: Toll)
    requires Next(s, a, t) && Balanced(s, id, toll)
    ensures Balanced(t, id, Charge(toll, a, id))
  {
    hide Next;
    StepMoves(s, a, t, id);
  }

  lemma StepTells(s: State, a: Action, t: State)
    requires Next(s, a, t)
    ensures a.Handle? <==> Received(s, a).Some?
    ensures match Received(s, a) case Some(e) => Tell(s.told, e) == Some(t.told) case None => t.told == s.told
  {
    if a.Handle? { ReplayHead(s.told, s.outbox); }
  }

  lemma AllExited(s: State)
    requires Inv(s) && s.returned
    ensures s.workers == map[] && forall id :: id in s.jobs ==> s.jobs[id].phase.Exited?
  {
    assert Running(s) == {};
    assert forall id :: id in s.jobs ==> id !in Running(s);
    assert s.workers.Keys == {};
  }

  lemma StepAfterReturn(s: State, a: Action, t: State)
    requires Next(s, a, t) && s.returned
    ensures t.returned && t.jobs == s.jobs
  {
    AllExited(s);
  }

  /** While the app believes a card is in a slot, only its removal can make room for a new job there. */
  lemma StepStartsNoJob(s: State, a: Action, t: State, slot: Slot, id: nat)
    requires Next(s, a, t) && slot in s.told && !IsRemoval(Received(s, a), slot)
    ensures slot in t.told
    ensures id in t.jobs && t.jobs[id].slot == slot ==> id in s.jobs && s.jobs[id].slot == slot
  {
    if id in s.jobs { StepCancels(s, a, t, id); }
    StepMoves(s, a, t, id);
    StepTells(s, a, t);
  }

  // ---------- whole runs ----------

  /** A run: the states it passes through, from a fresh start, and the action between each two. */
  ghost predicate IsRun(states: seq<State>, run: seq<Action>) {
    |states| == |run| + 1 && Initial(states[0]) && forall i :: 0 <= i < |run| ==> Linked(states, run, i)
  }

  ghost predicate Linked(states: seq<State>, run: seq<Action>, i: nat)
    requires i < |run| < |states|
  {
    Enabled(states[i], run[i]) && states[i + 1] == Step(states[i], run[i])
  }

  lemma {:induction false} RunKeepsInv(states: seq<State>, run: seq<Action>, i: nat)
    requires IsRun(states, run) && i < |states|
    ensures Inv(states[i])
    ensures i < |run| ==> Next(states[i], run[i], states[i + 1])
  {
    hide Enabled, Step, TableOk, StatusOk, CardsOk;
    if i == 0 {
      InitialHolds(states[0]);
    } else {
      RunKeepsInv(states, run, i - 1);
      NextKeepsInv(states[i - 1], run[i - 1], states[i]);
    }
    if i < |run| {
      assert Linked(states, run, i);
    }
  }

  lemma InitialHolds(s: State)
    requires Initial(s)
    ensures Inv(s)
  {
    assert Running(s) == {};
  }

  lemma NextKeepsInv(s: State, a: Action, t: State)
    requires Next(s, a, t)
    ensures Inv(t)
  {
    StepKeepsInv(s, a);
  }

  /** At most one goroutine per slot is anywhere between its start and the end of finishWorker. */
  lemma OneWorkerPerSlot(states: seq<State>, run: seq<Action>, i: nat, a: nat, b: nat)
    requires IsRun(states, run) && i < |states| && a in states[i].jobs && b in states[i].jobs
    requires states[i].jobs[a].Live() && states[i].jobs[b].Live() && states[i].jobs[a].slot == states[i].jobs[b].slot
    ensures a == b
  {
    RunKeepsInv(states, run, i);
    assert JobFits(states[i], a) && JobFits(states[i], b);
  }

  /** finishWorker, which deletes by slot, only ever deletes the entry its own goroutine was started
      with, and touches no other job. */
  lemma FinishDeletesOwnEntry(states: seq<State>, run: seq<Action>, i: nat)
    requires IsRun(states, run) && i < |run| && run[i].FinishWorker? && run[i].id in states[i].jobs
    ensures var s, t, id := states[i], states[i + 1], run[i].id;
      && s.jobs[id].slot in s.workers && s.workers[s.jobs[id].slot] == id
      && t.workers == s.workers - {s.jobs[id].slot} && id !in t.workers.Values
      && t.jobs == s.jobs[id := s.jobs[id].(phase := Gone, cancelled := true)]
  {
    RunKeepsInv(states, run, i);
    assert JobFits(states[i], run[i].id);
  }

  /** A removal never cancels the worker of a different card, although stopWorker looks at the slot
      alone: whenever a worker becomes cancelled it is by the removal of its own card, by its own end,
      or by shutdown. */
  lemma CancelledForItsOwnCard(states: seq<State>, run: seq<Action>, i: nat, id: nat)
    requires IsRun(states, run) && i < |run| && id in states[i].jobs && id in states[i + 1].jobs
    requires !states[i].jobs[id].cancelled && states[i + 1].jobs[id].cancelled
    ensures run[i] == FinishWorker(id) || run[i].Stop? || RemovesCardOf(Received(states[i], run[i]), states[i].jobs[id])
  {
    RunKeepsInv(states, run, i);
    StepCancels(states[i], run[i], states[i + 1], id);
  }

  /** Receiving an insertion starts a job for that very card, and lists it, exactly when its slot is free. */
  lemma InsertStartsJobIffFree(states: seq<State>, run: seq<Action>, i: nat, e: Event) returns (id: nat)
    requires IsRun(states, run) && i < |run| && Received(states[i], run[i]) == Some(e) && e.Inserted?
    ensures var s, t := states[i], states[i + 1];
      if e.slot in s.workers then t.jobs == s.jobs && t.workers == s.workers
      else
        && id !in s.jobs && t.jobs == s.jobs[id := Job(e.slot, e.device.serial, false, Spawned, false)]
        && t.workers == s.workers[e.slot := id]
  {
    RunKeepsInv(states, run, i);
    id := states[i].nextId;
    forall k | k in states[i].jobs ensures k < id { assert JobFits(states[i], k); }
  }

  /** Receiving a removal cancels the worker listed for its slot. */
  lemma RemovalCancels(states: seq<State>, run: seq<Action>, i: nat, slot: Slot)
    requires IsRun(states, run) && i < |run|
    requires IsRemoval(Received(states[i], run[i]), slot) && slot in states[i].workers
    ensures var id := states[i].workers[slot];
      id in states[i + 1].jobs && states[i + 1].jobs[id].cancelled && states[i + 1].jobs[id].slot == slot
  {
    RunKeepsInv(states, run, i);
    assert JobFits(states[i], states[i].workers[slot]);
  }

  /** Shutdown cancels every worker that has not finished yet, and does nothing else to any. */
  lemma ShutdownCancelsAll(states: seq<State>, run: seq<Action>, i: nat, id: nat)
    requires IsRun(states, run) && i < |run| && run[i].Stop? && id in states[i].jobs
    ensures id in states[i + 1].jobs && states[i + 1].workers == states[i].workers
    ensures var j, j' := states[i].jobs[id], states[i + 1].jobs[id];
      && (!j.phase.Gone? && !j.phase.Exited? ==> j'.cancelled)
      && j' == j.(cancelled := j'.cancelled) && (j.cancelled ==> j'.cancelled)
  {
    RunKeepsInv(states, run, i);
    assert JobFits(states[i], id);
  }

  /** A slot shows as ingesting exactly while some worker of it is inside ingest. */
  lemma IngestingIffBusyWorker(states: seq<State>, run: seq<Action>, i: nat, slot: Slot)
    requires IsRun(states, run) && i < |states|
    ensures Shown(states[i], slot) <==>
      exists id :: id in states[i].jobs && states[i].jobs[id].slot == slot && states[i].jobs[id].Busy()
  {
    RunKeepsInv(states, run, i);
    var s := states[i];
    forall id | id in s.jobs && s.jobs[id].slot == slot && s.jobs[id].Busy() ensures Shown(s, slot) {
      assert JobFits(s, id);
    }
  }

  /** What a job's moves among the first i actions add up to. */
  function TollOf(run: seq<Action>, i: nat, id: nat): Toll
    requires i <= |run|
  {
    if i == 0 then FREE else Charge(TollOf(run, i - 1, id), run[i - 1], id)
  }

  lemma {:induction false} BalancedSoFar(states: seq<State>, run: seq<Action>, i: nat, id: nat)
    requires IsRun(states, run) && i < |states|
    ensures Balanced(states[i], id, TollOf(run, i, id))
  {
    if i > 0 {
      hide Next, Linked, Balanced, Charge;
      BalancedSoFar(states, run, i - 1, id);
      RunKeepsInv(states, run, i - 1);
      StepBalances(states[i - 1], run[i - 1], states[i], id, TollOf(run, i - 1, id));
    } else {
      assert id !in states[0].jobs;
    }
  }

  /** The worker has shown its slot idle again, or is past that. */
  predicate Over(j: Job) { j.phase.Quiet? || j.phase.Gone? || j.phase.Exited? }

  /** By the time a worker has shown its slot idle again, each successful mount has had exactly one
      unmount, whatever else failed or was cancelled; and there was at most one. */
  lemma {:induction false} EveryMountIsUnmounted(states: seq<State>, run: seq<Action>, i: nat, id: nat)
    requires IsRun(states, run) && i < |states| && id in states[i].jobs && Over(states[i].jobs[id])
    ensures TollOf(run, i, id).mounts == TollOf(run, i, id).unmounts <= 1
  {
    BalancedSoFar(states, run, i, id);
  }

  /** By then the job has published exactly one verdict, and finished its record exactly once, with the same
      outcome, if it had one; it completed only if it was mounted. At no time has it told more than that. */
  lemma {:induction false} EveryJobIsJudgedOnce(states: seq<State>, run: seq<Action>, i: nat, id: nat)
    requires IsRun(states, run) && i < |states|
    ensures var toll := TollOf(run, i, id);
      && toll.jobComplete + toll.jobError <= 1 && toll.completed + toll.failed <= 1 && toll.jobComplete <= toll.mounts
      && (id in states[i].jobs && Over(states[i].jobs[id]) ==>
            && toll.jobComplete + toll.jobError == 1
            && toll.completed == One(states[i].jobs[id].recorded) * toll.jobComplete
            && toll.failed == One(states[i].jobs[id].recorded) * toll.jobError)
  {
    BalancedSoFar(states, run, i, id);
  }

  /** Once shutdown has returned no worker runs, the table is empty, and no job ever starts or moves. */
  lemma {:induction false} NothingRunsAfterReturn(states: seq<State>, run: seq<Action>, i: nat, k: nat)
    requires IsRun(states, run) && i <= k < |states| && states[i].returned
    ensures states[k].returned && states[k].workers == map[] && states[k].jobs == states[i].jobs
    ensures forall id :: id in states[k].jobs ==> states[k].jobs[id].phase.Exited?
  {
    hide Inv, Next, Linked, Initial;
    RunKeepsInv(states, run, k);
    if k > i {
      NothingRunsAfterReturn(states, run, i, k - 1);
      RunKeepsInv(states, run, k - 1);
      StepAfterReturn(states[k - 1], run[k - 1], states[k]);
    }
    AllExited(states[k]);
  }

  function Hear(heard: seq<Event>, e: Option<Event>): seq<Event> { if e.Some? then heard + [e.value] else heard }

  /** The events the app has received among the first i actions. */
  function Heard(states: seq<State>, run: seq<Action>, i: nat): seq<Event>
    requires i <= |run| && |states| == |run| + 1
  {
    if i == 0 then [] else Hear(Heard(states, run, i - 1), Received(states[i - 1], run[i - 1]))
  }

  lemma {:induction false} HearOne(heard: seq<Event>, s: State, a: Action, t: State)
    requires Next(s, a, t) && Replay(map[], heard) == Some(s.told)
    ensures Replay(map[], Hear(heard, Received(s, a))) == Some(t.told)
  {
    StepTells(s, a, t);
    if Received(s, a).Some? {
      ReplaySnoc(map[], heard, Received(s, a).value);
    }
  }

  lemma {:induction false} HeardReplays(states: seq<State>, run: seq<Action>, i: nat)
    requires IsRun(states, run) && i <= |run|
    ensures Replay(map[], Heard(states, run, i)) == Some(states[i].told)
  {
    if i > 0 {
      HeardReplays(states, run, i - 1);
      RunKeepsInv(states, run, i - 1);
      HearOne(Heard(states, run, i - 1), states[i - 1], run[i - 1], states[i]);
    }
  }

  /** However polls, workers and shutdown interleave, the insertions and removals the app receives for a
      slot strictly alternate, and a removal names the card last inserted. */
  lemma {:induction false} HeardAlternates(states: seq<State>, run: seq<Action>, i: nat, a: nat, b: nat)
    requires IsRun(states, run) && i <= |run| && a < b < |Heard(states, run, i)|
    requires Heard(states, run, i)[a].slot == Heard(states, run, i)[b].slot
    requires forall k :: a < k < b ==> Heard(states, run, i)[k].slot != Heard(states, run, i)[a].slot
    ensures var x, y := Heard(states, run, i)[a], Heard(states, run, i)[b];
      if x.Inserted? then y.Removed? && y.device.serial == x.device.serial else y.Inserted?
  {
    HeardReplays(states, run, i);
    ReplayAlternates(map[], Heard(states, run, i), a, b);
  }

  /** From action i up to action k the app received no removal for the slot. */
  ghost predicate StaysIn(states: seq<State>, run: seq<Action>, i: nat, k: nat, slot: Slot)
    requires |states| == |run| + 1 && k <= |run|
  {
    forall n :: i <= n < k ==> !IsRemoval(Received(states[n], run[n]), slot)
  }

  /** An insert that finds its slot busy is lost for as long as the card stays in: until its removal is
      received, every job of the slot is one that was there before. */
  lemma {:induction false} DroppedInsertIsNotRetried(states: seq<State>, run: seq<Action>, i: nat, k: nat, e: Event,
                                                     id: nat)
    requires IsRun(states, run) && i < k <= |run| && Received(states[i], run[i]) == Some(e)
    requires e.Inserted? && e.slot in states[i].workers && StaysIn(states, run, i, k, e.slot)
    ensures e.slot in states[k].told
    ensures id in states[k].jobs && states[k].jobs[id].slot == e.slot ==> id in states[i].jobs
  {
    hide Next, Linked, Initial, Tell;
    RunKeepsInv(states, run, k - 1);
    if k == i + 1 {
      StepDropsInsert(states[i], run[i], states[k], e);
    } else {
      DroppedInsertIsNotRetried(states, run, i, k - 1, e, id);
      StepStartsNoJob(states[k - 1], run[k - 1], states[k], e.slot, id);
    }
  }

  lemma StepDropsInsert(s: State, a: Action, t: State, e: Event)
    requires Next(s, a, t) && Received(s, a) == Some(e) && e.Inserted? && e.slot in s.workers
    ensures t.jobs == s.jobs && e.slot in t.told
  {
    StepTells(s, a, t);
  }
}
