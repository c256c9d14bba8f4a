/** The per-card lifecycle: mount read-only, ingest, and only after a nil-error ingest remount writable
    and erase; unmount, eject and the return to idle run on every exit. */
module Lifecycle {
  import opened Domain
  import opened Protocol
  import opened ProtocolSafety
  import opened IngestSpec
  import opened Mounter
  import opened ErasePlan
  import Pipeline
  import Rules
  import O = Orchestrator

  /** The calls one job makes that others can see, in order; a status carries the job's record number. */
  datatype Act =
    | Status(ingesting: bool, jobId: nat)
    | PublishStart
    | Mounting(ok: bool)
    | FinishJob(complete: bool, copied: nat, deduped: nat, skipped: nat, erased: nat, bytes: nat)
    | PublishError
    | PublishComplete(erased: nat)
    | Unmounting
    | Ejecting

  /** The world's answers during one job; jobId 0 means the job is not recorded. */
  datatype CardIo = CardIo(jobId: nat, mount: bool, scan: Option<seq<Rules.Entry>>, files: seq<FileIo>,
                           remount: bool, removes: string -> bool)

  function IfRecorded(io: CardIo, act: Act): seq<Act> { if io.jobId == 0 then [] else [act] }

  function Failure(io: CardIo): seq<Act> { IfRecorded(io, FinishJob(false, 0, 0, 0, 0, 0)) + [PublishError] }

  function Success(io: CardIo, res: Result, planned: nat): seq<Act> {
    IfRecorded(io, FinishJob(true, res.copied, res.deduped, res.skipped, planned, res.bytesCopied)) +
      [PublishComplete(planned)]
  }

  // ---------- the calls as moves of a worker ----------

  /** The move of module Orchestrator a call is, if it is one, for a job already begun. */
  function MoveOf(a: Act): Option<O.Move> {
    match a
    case Status(ingesting, id) => Some(if ingesting then O.Begin(id != 0) else O.SetIdle)
    case Mounting(ok) => Some(O.Mount(ok))
    case FinishJob(c, _, _, _, _, _) => Some(O.FinishJob(c))
    case PublishError => Some(O.Publish(false))
    case PublishComplete(_) => Some(O.Publish(true))
    case Unmounting => Some(O.Unmount)
    case _ => None
  }

  const IDLE: O.Job := O.Job("", "", false, O.Quiet, false)

  /** The job after one more call; None when no worker of the machine would make it. A new job may begin
      only when the one before is idle. */
  function Observe(j: O.Job, a: Act): Option<O.Job> {
    var now := if a.Status? && a.ingesting && j.phase.Quiet? then j.(phase := O.Spawned) else j;
    match MoveOf(a)
    case None => Some(j)
    case Some(m) => if O.CanMove(now, m) then Some(O.Moved(now, m)) else None
  }

  function Watch(acts: seq<Act>): Option<O.Job> {
    if acts == [] then Some(IDLE) else
      var before := Watch(acts[..|acts| - 1]);
      if before.None? then None else Observe(before.value, acts[|acts| - 1])
  }

  // ---------- one job ----------

  class App {
    const pipe: Pipeline.Pipeline
    const ejectWhenDone: bool
    var acts: seq<Act>
    ghost var job: O.Job

    /** All the calls so far are moves of workers, one after the other; job is where the last one stands. */
    ghost predicate Watched()
      reads this
    {
      Watch(acts) == Some(job)
    }

    constructor (pipe: Pipeline.Pipeline, ejectWhenDone: bool)
      ensures this.pipe == pipe && this.ejectWhenDone == ejectWhenDone && acts == [] && Watched() && job == IDLE
    {
      this.pipe, this.ejectWhenDone, acts, job := pipe, ejectWhenDone, [], IDLE;
    }

    /** Makes one call. */
    method Show(a: Act)
      requires Watched() && Observe(job, a).Some?
      modifies this
      ensures Watched() && acts == old(acts) + [a] && Some(job) == Observe(old(job), a)
    {
      assert (acts + [a])[..|acts|] == acts;
      acts := acts + [a];
      job := Observe(job, a).value;
    }

    /** The worker has told nothing of its outcome yet. */
    ghost predicate Undecided(io: CardIo, mounted: bool)
      reads this
    {
      Watched() && job.phase == O.Attended(mounted, O.Nothing) && job.recorded == (io.jobId != 0)
    }

    method FinishRecord(io: CardIo, a: Act)
      requires a.FinishJob? && (a.complete ==> job.phase.Attended? && job.phase.mounted)
      requires job.phase.Attended? && Undecided(io, job.phase.mounted)
      modifies this
      ensures Watched() && acts == old(acts) + IfRecorded(io, a)
      ensures job == old(job).(phase := O.Attended(old(job).phase.mounted,
                                                   if io.jobId == 0 then O.Nothing else O.Record(a.complete)))
    {
      if io.jobId == 0 { return; }
      Show(a);
    }

    /** Every failure is recorded, then published. */
    method FailJob(io: CardIo)
      requires job.phase.Attended? && Undecided(io, job.phase.mounted)
      modifies this
      ensures Watched() && acts == old(acts) + Failure(io)
      ensures job.phase == O.Attended(old(job).phase.mounted, O.Verdict(false))
    {
      FinishRecord(io, FinishJob(false, 0, 0, 0, 0, 0));
      Show(PublishError);
    }

    method CompleteJob(io: CardIo, res: Result, erased: nat)
      requires Undecided(io, true)
      modifies this
      ensures Watched() && acts == old(acts) + Success(io, res, erased)
      ensures job.phase == O.Attended(true, O.Verdict(true))
    {
      FinishRecord(io, FinishJob(true, res.copied, res.deduped, res.skipped, erased, res.bytesCopied));
      Show(PublishComplete(erased));
    }

    /** Startup, up to the attempt to mount read-only. */
    method Start(device: Device, io: CardIo) returns (mounted: bool)
      requires Watched() && job.phase.Quiet? && !device.mounted
      modifies this, device`mounted, device`writable
      ensures mounted == io.mount == device.mounted && !device.writable && Undecided(io, mounted)
      ensures acts == old(acts) + [Status(true, io.jobId), PublishStart, Mounting(io.mount)]
    {
      Show(Status(true, io.jobId));
      Show(PublishStart);
      mounted := device.Mount(io.mount);
      Show(Mounting(mounted));
    }

    /** The outermost deferred call. */
    method ShowIdle()
      requires Watched()
      requires job.phase.TornDown? || (job.phase.Attended? && !job.phase.mounted && job.phase.told.Verdict?)
      modifies this
      ensures Watched() && acts == old(acts) + [Status(false, 0)] && job.phase.Quiet?
    {
      Show(Status(false, 0));
    }

    /** What teardown after a successful mount shows. */
    function Teardown(): seq<Act> { [Unmounting] + if ejectWhenDone then [Ejecting] else [] }

    method TearDown(device: Device)
      requires Watched() && job.phase.Attended? && job.phase.mounted && job.phase.told.Verdict? && device.mounted
      modifies this, device`mounted, device`writable
      ensures Watched() && acts == old(acts) + Teardown() && job.phase.TornDown? && !device.mounted
    {
      device.Unmount();
      Show(Unmounting);
      if ejectWhenDone { Show(Ejecting); }
    }

    /** What the card holds after a job. */
    function CardAfter(ok: bool, w: Worker, io: CardIo, before: map<string, Bytes>): map<string, Bytes>
      requires |w.done| <= |w.scan|
    {
      if ok && Plan(pipe.cfg, w) != [] && io.remount then Survivors(pipe.cfg, w, io.removes) else before
    }

    /** How a job that was mounted ends. */
    function Report(ok: bool, w: Worker, io: CardIo, res: Result): seq<Act>
      requires |w.done| <= |w.scan|
    {
      if ok && (Plan(pipe.cfg, w) == [] || io.remount) then Success(io, res, |Plan(pipe.cfg, w)|) else Failure(io)
    }

    /** Everything one job shows; the report is the recorded outcome and the published one. */
    function Script(io: CardIo, report: seq<Act>): seq<Act> {
      [Status(true, io.jobId), PublishStart, Mounting(io.mount)] +
      report + (if io.mount then Teardown() else []) + [Status(false, 0)]
    }

    /** What a job tells of its outcome, the verdict published and the record finished if there is one: it completes
        if the ingest returned no error and, when anything is to be erased, the card could be remounted. */
    ghost predicate Tells(ok: bool, w: Worker, io: CardIo, res: Result, told: seq<Act>)
      requires |w.done| <= |w.scan|
    {
      var planned, completed := |Plan(pipe.cfg, w)|, ok && (Plan(pipe.cfg, w) == [] || io.remount);
      && (forall n :: PublishComplete(n) in told <==> completed && n == planned)
      && (PublishError in told <==> !completed)
      && (forall complete, copied, deduped, skipped, erased, bytes ::
            FinishJob(complete, copied, deduped, skipped, erased, bytes) in told <==>
            && io.jobId != 0 && complete == completed
            && copied == (if completed then res.copied else 0) && deduped == (if completed then res.deduped else 0)
            && skipped == (if completed then res.skipped else 0) && bytes == (if completed then res.bytesCopied else 0)
            && erased == (if completed then planned else 0))
    }

    lemma ReportTells(ok: bool, w: Worker, io: CardIo, res: Result)
      requires |w.done| <= |w.scan|
      ensures Tells(ok, w, io, res, Report(ok, w, io, res))
    {
      hide Plan;
    }

    /** What a job shows from start to end: how it begins and ends, that it unmounts if and only if it mounted and
        then ejects if asked to, and what it tells. */
    ghost predicate Shows(ok: bool, w: Worker, io: CardIo, res: Result, shown: seq<Act>)
      requires |w.done| <= |w.scan|
    {
      && |shown| >= 5 && shown[..3] == [Status(true, io.jobId), PublishStart, Mounting(io.mount)]
      && shown[|shown| - 1] == Status(false, 0)
      && (Unmounting in shown <==> io.mount) && (Ejecting in shown <==> io.mount && ejectWhenDone)
      && (io.mount ==> shown[|shown| - if ejectWhenDone then 3 else 2] == Unmounting)
      && (io.mount && ejectWhenDone ==> shown[|shown| - 2] == Ejecting)
      && Tells(ok, w, io, res, shown)
    }

    lemma ScriptShows(ok: bool, w: Worker, io: CardIo, res: Result)
      requires |w.done| <= |w.scan|
      ensures Shows(ok, w, io, res, Script(io, Report(ok, w, io, res)))
    {
      hide Plan, Tells;
      var report := Report(ok, w, io, res);
      var head := [Status(true, io.jobId), PublishStart, Mounting(io.mount)];
      var tail := (if io.mount then Teardown() else []) + [Status(false, 0)];
      var shown := Script(io, report);
      assert shown == head + report + tail;
      ReportTells(ok, w, io, res);
      TellsWithin(ok, w, io, res, head, report, tail);
    }

    lemma TellsWithin(ok: bool, w: Worker, io: CardIo, res: Result, head: seq<Act>, told: seq<Act>, tail: seq<Act>)
      requires |w.done| <= |w.scan| && Tells(ok, w, io, res, told)
      requires forall a :: a in head || a in tail ==> !a.FinishJob? && !a.PublishError? && !a.PublishComplete?
      ensures Tells(ok, w, io, res, head + told + tail)
    {
      hide Plan;
      forall a: Act | a.FinishJob? || a.PublishError? || a.PublishComplete?
        ensures a in head + told + tail <==> a in told
      {
        assert head + told + tail == head + (told + tail);
      }
    }

    /** The whole lifecycle. ok says that Ingest returned no error, w is then the worker it leaves, and
        jobs and l are the files it looked at and the ledger they lead to. */
    method IngestCard(slot: Slot, device: Device, io: CardIo, policy: Policy)
      returns (ghost ok: bool, ghost w: Worker, ghost jobs: seq<Job>, ghost l: Ledger)
      requires pipe.Valid() && Initial(pipe.origin) && slot !in pipe.sys.workers && !device.mounted
      requires io.scan.Some? ==> |io.files| == |io.scan.value| && WholeScan(Paths(io.scan.value), device.files)
      requires Watched() && job.phase.Quiet?
      modifies this, pipe, device
      ensures pipe.Valid() && pipe.sys.workers == old(pipe.sys.workers) && !device.mounted
      ensures !io.mount ==> !ok && pipe.finals == old(pipe.finals) && pipe.index == old(pipe.index)
      ensures io.mount ==> Outcome(slot, io, policy, old(device.files), old(pipe.index), old(pipe.finals), ok, w,
                                   jobs, l)
      ensures |w.done| <= |w.scan| && device.files == CardAfter(ok, w, io, old(device.files))
      ensures acts == old(acts) + Script(io, Report(ok, w, io, l.res))
      ensures Watched() && job.phase.Quiet?
      ensures !io.mount || !ok || !io.remount ==> device.files == old(device.files)
      ensures old(acts) <= acts && Shows(ok, w, io, l.res, acts[|old(acts)|..])
      ensures !ok ==>
        && PublishError in acts[|old(acts)|..] && (forall n :: PublishComplete(n) !in acts[|old(acts)|..])
        && (io.jobId != 0 ==> FinishJob(false, 0, 0, 0, 0, 0) in acts[|old(acts)|..])
      ensures ok ==> Plan(pipe.cfg, w) == Planned(l.res)
    {
      hide Plan, Survivors, Success, Failure, Outcome, Initial, WholeScan, After, Watch, Observe, Planned;
      hide Tells, Shows;
      var mounted := Start(device, io);
      if mounted {
        ok, w, jobs, l := IngestMounted(slot, device, io, policy);
        TearDown(device);
      } else {
        ok, w, jobs := false, Worker([], map[], map[], [], Ready), [];
        l := Ledger(pipe.index, pipe.finals, [], NOTHING, [], false);
        FailJob(io);
      }
      ShowIdle();
      NowShown(ok, w, io, l.res, old(acts), acts);
    }

    /** What a mounted card's ingest did: nothing at all when the scan fails; otherwise the ledger of its
        jobs, and after a nil error every file accounted for and every verified hash in the index. */
    ghost predicate Outcome(slot: Slot, io: CardIo, policy: Policy, files: map<string, Bytes>, index: set<Hash>,
                            finals: map<Place, Bytes>, ok: bool, w: Worker, jobs: seq<Job>, l: Ledger)
      reads pipe
    {
      && (io.scan.None? ==> !ok && pipe.index == index && pipe.finals == finals)
      && (io.scan.Some? ==>
            && Played(pipe.ContextOf(slot, io.scan.value), index, finals, policy, files, io.files, jobs, l)
            && pipe.index == l.index && pipe.finals == l.finals
            && (ok <==> !l.stopped && |l.done| == |io.scan.value|))
      && (ok ==>
            && io.scan.Some? && !l.stopped && |l.done| == |io.scan.value|
            && w == Worker(Paths(io.scan.value), files, files, l.done, Ingested)
            && WorkerShape(pipe.cfg, w) && Vouched(pipe.cfg, pipe.index, w))
    }

    /** Ingest, and what follows when it returns no error. */
    method IngestMounted(slot: Slot, device: Device, io: CardIo, policy: Policy)
      returns (ghost ok: bool, ghost w: Worker, ghost jobs: seq<Job>, ghost l: Ledger)
      requires pipe.Valid() && Initial(pipe.origin) && slot !in pipe.sys.workers && device.mounted && !device.writable
      requires io.scan.Some? ==> |io.files| == |io.scan.value| && WholeScan(Paths(io.scan.value), device.files)
      requires Undecided(io, true)
      modifies this, pipe, device`files, device`writable
      ensures pipe.Valid() && pipe.sys.workers == old(pipe.sys.workers)
      ensures Outcome(slot, io, policy, old(device.files), old(pipe.index), old(pipe.finals), ok, w, jobs, l)
      ensures |w.done| <= |w.scan| && device.files == CardAfter(ok, w, io, old(device.files))
      ensures acts == old(acts) + Report(ok, w, io, l.res)
      ensures Watched() && job.phase.Attended? && job.phase.mounted && job.phase.told.Verdict?
      ensures !ok || !io.remount ==> device.files == old(device.files)
      ensures old(acts) <= acts && Tells(ok, w, io, l.res, acts[|old(acts)|..])
      ensures !ok ==>
        && PublishError in acts[|old(acts)|..] && (forall n :: PublishComplete(n) !in acts[|old(acts)|..])
        && (io.jobId != 0 ==> FinishJob(false, 0, 0, 0, 0, 0) in acts[|old(acts)|..])
      ensures ok ==> Plan(pipe.cfg, w) == Planned(l.res)
    {
      hide Played, Watch, Tells, Plan, Planned;
      w := Worker([], map[], map[], [], Ready);
      var res, nilError;
      res, nilError, jobs, l := pipe.Ingest(slot, io.scan, device.files, io.files, policy);
      ok := nilError;
      if !nilError {
        FailJob(io);
        ReportTells(ok, w, io, l.res);
        assert acts[|old(acts)|..] == Report(ok, w, io, l.res);
        TellsFailure(ok, w, io, l.res, acts[|old(acts)|..]);
        return ok, w, jobs, l;
      }
      w := Worker(Paths(io.scan.value), device.files, device.files, l.done, Ingested);
      CheckVouched(slot, w);
      ResultOfPlayed(pipe.ContextOf(slot, io.scan.value), old(pipe.index), old(pipe.finals), policy, device.files,
                     io.files, jobs, l);
      PlanIsPlanned(w, res);
      EraseCard(slot, device, io, res, w, old(pipe.sys.workers));
      ReportTells(ok, w, io, l.res);
      assert acts[|old(acts)|..] == Report(ok, w, io, l.res);
    }

    lemma PlanIsPlanned(w: Worker, res: Result)
      requires |w.done| <= |w.scan| && res.verified == Verified(w) && res.skippedPath == Pick(w.scan, w.done, {Skipped})
      ensures Plan(pipe.cfg, w) == Planned(res)
    {
    }

    lemma TellsFailure(ok: bool, w: Worker, io: CardIo, res: Result, told: seq<Act>)
      requires |w.done| <= |w.scan| && Tells(ok, w, io, res, told) && !ok
      ensures PublishError in told && (forall n :: PublishComplete(n) !in told)
      ensures io.jobId != 0 ==> FinishJob(false, 0, 0, 0, 0, 0) in told
    {
      hide Plan;
    }

    lemma NowShown(ok: bool, w: Worker, io: CardIo, res: Result, before: seq<Act>, now: seq<Act>)
      requires |w.done| <= |w.scan| && now == before + Script(io, Report(ok, w, io, res))
      ensures before <= now && Shows(ok, w, io, res, now[|before|..])
      ensures !ok ==>
        && PublishError in now[|before|..] && (forall n :: PublishComplete(n) !in now[|before|..])
        && (io.jobId != 0 ==> FinishJob(false, 0, 0, 0, 0, 0) in now[|before|..])
    {
      hide Plan, Tells, Script, Report;
      ScriptShows(ok, w, io, res);
      assert now[|before|..] == Script(io, Report(ok, w, io, res));
      if !ok { TellsFailure(ok, w, io, res, now[|before|..]); }
    }

    lemma CheckVouched(slot: Slot, w: Worker)
      requires pipe.Valid() && Initial(pipe.origin) && slot in pipe.sys.workers && pipe.sys.workers[slot] == w
      ensures WorkerShape(pipe.cfg, w) && Vouched(pipe.cfg, pipe.index, w)
    {
      RunKeepsInv(pipe.cfg, pipe.origin, pipe.trace);
      assert WorkerOk(pipe.cfg, pipe.sys, slot, w);
    }

    /** What is to be erased after a nil-error ingest. */
    function Planned(res: Result): seq<string> {
      (if pipe.cfg.eraseIngested then res.verified else []) + (if pipe.cfg.eraseSkipped then res.skippedPath else [])
    }

    /** After a nil-error ingest: decide what to erase, remount, erase, report. */
    method EraseCard(slot: Slot, device: Device, io: CardIo, res: Result, ghost w: Worker,
                     ghost others: map<Slot, Worker>)
      requires pipe.Valid() && slot !in others && pipe.sys.workers == others[slot := w] && w.pc.Ingested?
      requires |w.done| == |w.scan| && WholeScan(w.scan, w.files) && w.card == w.files == device.files
      requires res.verified == Verified(w) && res.skippedPath == Pick(w.scan, w.done, {Skipped})
      requires device.mounted && !device.writable && Undecided(io, true)
      modifies this, pipe`trace, pipe`sys, device`files, device`writable
      ensures pipe.Valid() && pipe.sys.workers == others
      ensures device.files ==
        if Plan(pipe.cfg, w) != [] && io.remount then Survivors(pipe.cfg, w, io.removes) else old(device.files)
      ensures acts == old(acts) +
        if Plan(pipe.cfg, w) == [] || io.remount then Success(io, res, |Plan(pipe.cfg, w)|) else Failure(io)
      ensures Watched() && job.phase.Attended? && job.phase.mounted && job.phase.told.Verdict?
    {
      var toErase := Planned(res);
      assert toErase == Plan(pipe.cfg, w);
      hide Plan, Verified, Pick, Survivors, Success, Failure, Watch, Observe;
      if |toErase| == 0 {
        pipe.Leaves(slot, others);
      } else {
        var writable := EraseFiles(slot, device, io, toErase, w, others);
        if !writable {
          FailJob(io);
          return;
        }
      }
      CompleteJob(io, res, |toErase|);
    }

    /** Remounts the card and erases the planned files; false when the card stays read-only. */
    method EraseFiles(slot: Slot, device: Device, io: CardIo, plan: seq<string>, ghost w: Worker,
                      ghost others: map<Slot, Worker>)
      returns (writable: bool)
      requires pipe.Valid() && slot !in others && pipe.sys.workers == others[slot := w] && w.pc.Ingested?
      requires |w.done| == |w.scan| && WholeScan(w.scan, w.files) && w.card == w.files == device.files
      requires plan == Plan(pipe.cfg, w) != [] && device.mounted && !device.writable
      modifies pipe`trace, pipe`sys, device`files, device`writable
      ensures writable == io.remount && pipe.Valid() && pipe.sys.workers == others
      ensures device.files == if io.remount then Survivors(pipe.cfg, w, io.removes) else old(device.files)
    {
      writable := device.Remount(false, io.remount);
      hide Plan, After, Pick, Verified;
      if writable {
        PlanDistinct(pipe.cfg, w);
        pipe.Remounts(slot, others, w);
        var failed := pipe.Erase(slot, device, plan, io.removes, w, others);
      }
      pipe.Leaves(slot, others);
    }
  }

  // ---------- what follows for every history of calls ----------

  /** How many calls of each kind there were; recordable counts the jobs that got a record. */
  datatype Calls = Calls(started: nat, recordable: nat, mounted: nat, unmounted: nat, recorded: nat, judged: nat)

  function One(b: bool): nat { if b then 1 else 0 }

  /** The counts after one more call. */
  function Counted(c: Calls, a: Act): Calls {
    match a
    case Status(ingesting, id) =>
      c.(started := c.started + One(ingesting), recordable := c.recordable + One(ingesting && id != 0))
    case Mounting(ok) => c.(mounted := c.mounted + One(ok))
    case Unmounting => c.(unmounted := c.unmounted + 1)
    case FinishJob(_, _, _, _, _, _) => c.(recorded := c.recorded + 1)
    case PublishError => c.(judged := c.judged + 1)
    case PublishComplete(_) => c.(judged := c.judged + 1)
    case _ => c
  }

  function Count(acts: seq<Act>): Calls {
    if acts == [] then Calls(0, 0, 0, 0, 0, 0) else Counted(Count(acts[..|acts| - 1]), acts[|acts| - 1])
  }

  /** The job under way has published no verdict yet. */
  predicate Open(j: O.Job) {
    j.phase.Spawned? || j.phase.Ingesting? || (j.phase.Attended? && !j.phase.told.Verdict?)
  }

  predicate HasRecord(j: O.Job) { j.phase.Attended? && j.phase.told.Record? }

  /** How the counts go with where the job under way stands. */
  predicate Balanced(c: Calls, j: O.Job) {
    && !j.phase.Spawned? && (HasRecord(j) ==> j.recorded)
    && c.judged + One(Open(j)) == c.started
    && c.recorded + One(j.recorded && Open(j) && !HasRecord(j)) == c.recordable
    && c.unmounted + One(j.phase.Attended? && j.phase.mounted) == c.mounted
  }

  lemma ObserveBalances(c: Calls, j: O.Job, a: Act)
    requires Balanced(c, j) && Observe(j, a).Some?
    ensures Balanced(Counted(c, a), Observe(j, a).value)
  {
  }

  /** Over any number of cards: each started job but the one under way has published exactly one verdict,
      each recordable one has finished its record exactly once, and each successful mount but the one under
      way has been unmounted. */
  lemma {:induction false} WatchedCallsBalance(acts: seq<Act>)
    requires Watch(acts).Some?
    ensures Balanced(Count(acts), Watch(acts).value)
  {
    if acts != [] {
      hide Balanced, Observe, Counted;
      var n := |acts| - 1;
      WatchedCallsBalance(acts[..n]);
      ObserveBalances(Count(acts[..n]), Watch(acts[..n]).value, acts[n]);
    } else {
      assert Balanced(Count(acts), IDLE);
    }
  }

  /** Of what a completed job reports: the number erased is the number of files gone from the card if and only
      if every planned removal succeeded. */
  lemma ReportedErasedIsExactIff(app: App, w: Worker, io: CardIo, res: Result)
    requires WholeScan(w.scan, w.files) && |w.done| <= |w.scan| && (Plan(app.pipe.cfg, w) == [] || io.remount)
    ensures var report := app.Report(true, w, io, res);
      && report != [] && report[|report| - 1].PublishComplete?
      && (report[|report| - 1].erased == |w.files| - |app.CardAfter(true, w, io, w.files)| <==>
          forall p :: p in Plan(app.pipe.cfg, w) ==> io.removes(p))
  {
    PlannedIsRemovedIff(app.pipe.cfg, w, io.removes);
  }

  /** Whatever a pipeline object has been through, its history is one the safety results speak about. */
  lemma PipelineHistoryIsSafe(pipe: Pipeline.Pipeline)
    requires pipe.Valid() && Initial(pipe.origin)
    ensures HistoryOk(pipe.cfg, pipe.sys.log) && pipe.finals == Replay(pipe.origin.finals, pipe.sys.log)
    ensures forall h :: h in pipe.index <==> IndexedBefore(pipe.sys.log, |pipe.sys.log|, h)
  {
    RunKeepsInv(pipe.cfg, pipe.origin, pipe.trace);
  }
}
