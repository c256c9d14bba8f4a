/** The orchestrator's mutable worker table. Each method is one critical section of the app, and is shown
    to do to the table what the matching step of module Orchestrator does to the state. */
module WorkerTable {
  import opened Domain
  import opened Detect
  import opened Orchestrator

  /** A job once the slots outside rest have been cancelled. */
  ghost function Visited(s: State, rest: set<Slot>, id: nat): Job
    requires id in s.jobs
  {
    var j := s.jobs[id];
    if j.slot in s.workers && j.slot !in rest && s.workers[j.slot] == id then j.(cancelled := true) else j
  }

  class Table {
    var workers: map<Slot, nat>        // slot to the job whose cancel function is kept
    var jobs: map<nat, Job>
    var nextId: nat
    var wg: nat
    var ingesting: map<Slot, bool>

    constructor ()
      ensures workers == map[] && jobs == map[] && nextId == 0 && wg == 0 && ingesting == map[]
    {
      workers, jobs, nextId, wg, ingesting := map[], map[], 0, 0, map[];
    }

    /** The table is the table part of this state, and that state is a legal one. */
    ghost predicate Shows(s: State)
      reads this
    {
      && TableOk(s) && workers == s.workers && jobs == s.jobs && nextId == s.nextId && wg == s.wg
      && ingesting == s.ingesting
    }

    /** A stored cancel function. */
    method CancelJob(id: nat)
      requires id in jobs
      modifies this`jobs
      ensures jobs == old(jobs)[id := old(jobs)[id].(cancelled := true)]
    {
      jobs := jobs[id := jobs[id].(cancelled := true)];
    }

    method StartWorker(ghost s: State, slot: Slot, device: DeviceInfo) returns (started: bool)
      requires Shows(s)
      modifies this
      ensures Shows(Receive(s, Inserted(slot, device))) && started == (slot !in old(workers))
    {
      ReceiveKeepsTable(s, Inserted(slot, device));
      if slot in workers { return false; }
      jobs := jobs[nextId := Job(slot, device.serial, false, Spawned, false)];
      workers := workers[slot := nextId];
      nextId, wg, started := nextId + 1, wg + 1, true;
    }

    method StopWorker(ghost s: State, slot: Slot, device: DeviceInfo)
      requires Shows(s)
      modifies this`jobs
      ensures Shows(Receive(s, Removed(slot, device)))
    {
      ReceiveKeepsTable(s, Removed(slot, device));
      if slot in workers { CancelJob(workers[slot]); }
    }

    /** Deletes by slot; the worker's own goroutine calls it, so it is that worker's entry. */
    method FinishWorker(ghost s: State, id: nat)
      requires Shows(s) && Enabled(s, Action.FinishWorker(id))
      modifies this
      ensures Shows(Step(s, Action.FinishWorker(id)))
    {
      FinishKeepsTable(s, id);
      assert JobFits(s, id);
      var slot := jobs[id].slot;
      if slot in workers {
        CancelJob(workers[slot]);
        workers := workers - {slot};
      }
      jobs := jobs[id := jobs[id].(phase := Gone)];
    }

    /** Startup publishes the slot as ingesting; recorded tells whether the job got a record. */
    method ShowIngesting(ghost s: State, id: nat, recorded: bool)
      requires Shows(s) && Enabled(s, Work(id, Begin(recorded)))
      modifies this
      ensures Shows(Step(s, Work(id, Begin(recorded))))
    {
      WorkKeepsTable(s, id, Begin(recorded));
      jobs := jobs[id := jobs[id].(phase := Ingesting, recorded := recorded)];
      ingesting := ingesting[jobs[id].slot := true];
    }

    /** Whatever way ingest ends, its first deferred call returns the slot to idle. */
    method ShowIdle(ghost s: State, id: nat)
      requires Shows(s) && Enabled(s, Work(id, SetIdle))
      modifies this
      ensures Shows(Step(s, Work(id, SetIdle)))
    {
      WorkKeepsTable(s, id, SetIdle);
      jobs := jobs[id := jobs[id].(phase := Quiet)];
      ingesting := ingesting[jobs[id].slot := false];
    }

    /** Shutdown cancels every entry, in whatever order the map is visited. */
    method CancelWorkers(ghost s: State)
      requires Shows(s)
      modifies this`jobs
      ensures jobs == CancelAll(s) && jobs.Keys == old(jobs).Keys
      ensures forall id :: id in jobs ==>
        && jobs[id].cancelled == (old(jobs[id]).cancelled || (jobs[id].slot in workers && workers[jobs[id].slot] == id))
        && jobs[id] == old(jobs[id]).(cancelled := jobs[id].cancelled)
    {
      var rest := workers.Keys;
      while rest != {}
        invariant rest <= workers.Keys && jobs.Keys == s.jobs.Keys
        invariant forall id :: id in jobs ==> jobs[id] == Visited(s, rest, id)
        decreases |rest|
      {
        var slot :| slot in rest;
        assert s.jobs[workers[slot]].slot == slot;
        CancelJob(workers[slot]);
        rest := rest - {slot};
      }
      assert forall id :: id in jobs ==> jobs[id] == CancelAll(s)[id];
    }
  }
}
