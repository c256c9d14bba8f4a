/** One worker's code: copyAndVerify, Ingest and Erase over the mutable destination, index and ticket
    counter. The outcome of every I/O call is an argument. A ghost history shows each method to be a
    run of the step machine of module Protocol, whatever other workers are in the middle of. */
module Pipeline {
  import opened Domain
  import opened Protocol
  import Rules
  import Categories
  import opened IngestSpec
  import opened Mounter
  import opened ErasePlan

  class Pipeline {
    const cfg: Config
    const dirOf: (string, string) -> string               // the layout: category and date to directory
    var finals: map<Place, Bytes>
    var temps: map<Path, Bytes>
    var index: set<Hash>
    var seqNo: nat
    var progress: seq<Progress>                           // OnProgress calls, in order

    ghost const origin: System
    ghost var trace: seq<Action>
    ghost var sys: System

    ghost predicate Traced()
      reads this
    {
      After(cfg, origin, trace) == Some(sys)
    }

    /** The history leads from the origin to a state with these very disks. */
    ghost predicate Valid()
      reads this
    {
      Traced() && sys.finals == finals && sys.temps == temps && sys.index == index && sys.seqNo == seqNo
    }

    constructor (cfg: Config, dirOf: (string, string) -> string, finals: map<Place, Bytes>)
      ensures Valid() && this.cfg == cfg && this.dirOf == dirOf
      ensures trace == [] && Initial(origin) && origin.finals == finals
      ensures sys == origin
    {
      this.cfg, this.dirOf := cfg, dirOf;
      this.finals, temps, index, seqNo, progress := finals, map[], {}, 0, [];
      origin := System(finals, map[], {}, 0, map[], []);
      trace, sys := [], System(finals, map[], {}, 0, map[], []);
    }

    /** Records one action of the step machine. */
    ghost method Act(a: Action)
      requires Traced() && Enabled(cfg, sys, a)
      modifies this`trace, this`sys
      ensures Traced() && sys == Step(cfg, old(sys), a) && trace == old(trace) + [a]
    {
      AfterSnoc(cfg, origin, trace, a);
      sys := Step(cfg, sys, a);
      trace := trace + [a];
    }

    /** Records one move of a worker, stated part by part. */
    ghost method Take(slot: Slot, move: Move)
      requires Traced() && slot in sys.workers && CanMove(cfg, sys, slot, sys.workers[slot], move)
      modifies this`trace, this`sys
      ensures Traced() && old(trace) <= trace
      ensures var s, w := old(sys), old(sys).workers[slot];
        var effect := Effect(cfg, s, slot, w, move);
        && sys.temps == TempsAfter(cfg, s, slot, w, move)
        && sys.seqNo == (if move.Allocate? then s.seqNo + 1 else s.seqNo)
        && sys.finals == (if effect.Some? && effect.value.Placed?
                          then s.finals[effect.value.at := effect.value.bytes] else s.finals)
        && sys.index == (if effect.Some? && effect.value.Indexed? then s.index + {effect.value.hash} else s.index)
        && sys.workers == (if Moved(cfg, s, slot, w, move).Some?
                           then s.workers[slot := Moved(cfg, s, slot, w, move).value]
                           else s.workers - {slot})
    {
      Act(Do(slot, move));
    }

    /** The worker is between files with path next. */
    ghost predicate At(slot: Slot, path: string)
      reads this
    {
      slot in sys.workers &&
      var w := sys.workers[slot];
      w.pc.Ready? && |w.done| < |w.scan| && w.scan[|w.done|] == path && (forall p :: p in w.scan ==> p in w.files)
    }

    method StreamCopy(slot: Slot, bytes: Bytes, temp: Path, io: FileIo) returns (r: StreamResult)
      modifies this`temps, this`trace, this`sys
      requires Valid() && slot in sys.workers
      requires var w := sys.workers[slot];
        w.pc.Allocated? && temp == TempName(slot, w.pc.n) && |w.done| < |w.scan| &&
        (forall p :: p in w.scan ==> p in w.files) && w.files[w.scan[|w.done|]] == bytes
      ensures Valid() && old(trace) <= trace
      ensures r == if !io.open then CardSide else if !io.create then DestSide else if !io.copied then CardSide
                   else if !io.flush then DestSide else Hashed(cfg.hash(bytes))
      ensures temps == if io.open && io.create then old(temps)[temp := io.arrived] else old(temps)
      ensures var w := old(sys.workers[slot]);
        sys.workers == old(sys.workers)[slot := if r.Hashed? then w.(pc := Streamed(w.pc.n, r.hash)) else w]
    {
      if !io.open { return CardSide; }
      if !io.create { return DestSide; }
      temps := temps[temp := io.arrived];
      if !io.copied {
        Take(slot, Scribble(io.arrived));
        return CardSide;
      }
      if !io.flush {
        Take(slot, Scribble(io.arrived));
        return DestSide;
      }
      Take(slot, Stream(io.arrived));
      r := Hashed(cfg.hash(bytes));
    }

    method HashFile(temp: Path, io: FileIo) returns (hash: Option<Hash>)
      ensures hash == if io.readBack && temp in temps then Some(cfg.hash(temps[temp])) else None
    {
      if !io.readBack || temp !in temps { return None; }
      hash := Some(cfg.hash(temps[temp]));
    }

    /** Drops the temp file and gives up the whole job. */
    method Bail(slot: Slot, temp: Path, io: FileIo)
      requires Valid() && InFlight(slot, temp)
      modifies this`temps, this`trace, this`sys
      ensures Valid() && old(trace) <= trace
      ensures temps == Without(old(temps), temp, io.cleaned)
      ensures sys.workers == old(sys.workers) - {slot}
    {
      if io.cleaned { temps := temps - {temp}; }
      Take(slot, Abort(io.cleaned, false));
    }

    /** Drops the temp file and gives up this one file. */
    method SkipFile(slot: Slot, temp: Path, io: FileIo)
      requires Valid() && InFlight(slot, temp) && sys.workers[slot].pc.Allocated?
      modifies this`temps, this`trace, this`sys
      ensures Valid() && old(trace) <= trace
      ensures temps == Without(old(temps), temp, io.cleaned)
      ensures sys.workers == old(sys.workers)[slot := old(sys.workers[slot]).Next(Failed)]
    {
      if io.cleaned { temps := temps - {temp}; }
      Take(slot, GiveUp(io.cleaned));
    }

    /** The worker is copying its current file through this temp file. */
    ghost predicate InFlight(slot: Slot, temp: Path)
      reads this
    {
      slot in sys.workers &&
      var w := sys.workers[slot];
      w.InFlight() && temp == TempName(slot, w.pc.n) && |w.done| < |w.scan| &&
        (forall p :: p in w.scan ==> p in w.files)
    }

    /** Copies one file, and records it when what landed reads back with the card's hash. */
    method CopyAndVerify(slot: Slot, path: string, bytes: Bytes, category: string, io: FileIo) returns (r: CopyResult)
      requires Valid() && At(slot, path) && sys.workers[slot].files[path] == bytes
      modifies this`finals, this`temps, this`index, this`seqNo, this`trace, this`sys
      ensures Valid() && old(trace) <= trace
      ensures r == CopyOutcome(cfg, old(index), bytes, io)
      ensures finals == if Lands(cfg, old(index), bytes, io)
                        then old(finals)[Place(dirOf(category, io.date), Base(path)) := io.arrived] else old(finals)
      ensures index == IndexAfter(cfg, old(index), bytes, io)
      ensures seqNo == old(seqNo) + if io.tempDir then 1 else 0
      ensures temps == if !io.tempDir then old(temps) else
        Without(if io.open && io.create then old(temps)[TempName(slot, seqNo) := io.arrived] else old(temps),
                TempName(slot, seqNo), io.cleaned || Lands(cfg, old(index), bytes, io))
      ensures sys.workers == WorkersAfter(old(sys), slot, r)
      ensures io.tempDir && io.open && (!io.create || (io.copied && !io.flush)) ==> r.FatalError?
      ensures r.FileError? <==>
        && io.tempDir
        && (|| !io.open || (io.create && !io.copied)
            || (&& io.create && io.flush && io.lookup && cfg.hash(bytes) !in old(index)
                && io.readBack && cfg.hash(io.arrived) != cfg.hash(bytes)))
      ensures r.Known? <==>
        io.tempDir && io.open && io.create && io.copied && io.flush && io.lookup && cfg.hash(bytes) in old(index)
      ensures r.Stored? <==>
        && io.tempDir && io.open && io.create && io.copied && io.flush && io.lookup && cfg.hash(bytes) !in old(index)
        && io.readBack && cfg.hash(io.arrived) == cfg.hash(bytes)
        && io.destDir && io.rename == Renamed && io.record == Recorded
      ensures var verified :=
          && io.tempDir && io.open && io.create && io.copied && io.flush && io.lookup && cfg.hash(bytes) !in old(index)
          && io.readBack && cfg.hash(io.arrived) == cfg.hash(bytes);
        && finals == (if verified && io.destDir && io.rename != RenameFailed(false)
                      then old(finals)[Place(dirOf(category, io.date), Base(path)) := io.arrived] else old(finals))
        && index == (if verified && io.destDir && io.rename == Renamed && io.record != RecordFailed(false)
                     then old(index) + {cfg.hash(bytes)} else old(index))
      ensures io.tempDir && (io.cleaned || r.Stored?) ==> TempName(slot, seqNo) !in temps
    {
      OutcomeIs(cfg, index, bytes, io);
      LandsIs(cfg, index, bytes, io);
      hide CopyOutcome, Lands, IndexAfter, TempName, Base;
      if !io.tempDir {
        Take(slot, Abort(false, false));
        return FatalError;
      }
      seqNo := seqNo + 1;
      var temp := TempName(slot, seqNo);
      Take(slot, Allocate);
      r := CopyThrough(slot, path, bytes, category, temp, io);
    }

    /** copyAndVerify once the temp directory exists and the temp name is drawn. */
    method CopyThrough(slot: Slot, path: string, bytes: Bytes, category: string, temp: Path, io: FileIo)
      returns (r: CopyResult)
      requires Valid() && InFlight(slot, temp) && io.tempDir
      requires var w := sys.workers[slot]; w.pc.Allocated? && w.scan[|w.done|] == path && w.files[path] == bytes
      modifies this`finals, this`temps, this`index, this`trace, this`sys
      ensures Valid() && old(trace) <= trace
      ensures r == CopyOutcome(cfg, old(index), bytes, io)
      ensures finals == if Lands(cfg, old(index), bytes, io)
                        then old(finals)[Place(dirOf(category, io.date), Base(path)) := io.arrived] else old(finals)
      ensures index == IndexAfter(cfg, old(index), bytes, io)
      ensures temps == Without(if io.open && io.create then old(temps)[temp := io.arrived] else old(temps),
                               temp, io.cleaned || Lands(cfg, old(index), bytes, io))
      ensures sys.workers == WorkersAfter(old(sys), slot, r)
      ensures io.tempDir && io.open && (!io.create || (io.copied && !io.flush)) ==> r.FatalError?
      ensures r.FileError? <==>
        && io.tempDir
        && (|| !io.open || (io.create && !io.copied)
            || (&& io.create && io.flush && io.lookup && cfg.hash(bytes) !in old(index)
                && io.readBack && cfg.hash(io.arrived) != cfg.hash(bytes)))
      ensures r.Known? <==>
        io.tempDir && io.open && io.create && io.copied && io.flush && io.lookup && cfg.hash(bytes) in old(index)
      ensures r.Stored? <==>
        && io.tempDir && io.open && io.create && io.copied && io.flush && io.lookup && cfg.hash(bytes) !in old(index)
        && io.readBack && cfg.hash(io.arrived) == cfg.hash(bytes)
        && io.destDir && io.rename == Renamed && io.record == Recorded
    {
      OutcomeIs(cfg, index, bytes, io);
      hide TempName, Base;
      var streamed := StreamCopy(slot, bytes, temp, io);
      match streamed {
        case DestSide =>
          Bail(slot, temp, io);
          r := FatalError;
        case CardSide =>
          SkipFile(slot, temp, io);
          r := FileError;
        case Hashed(hash) =>
          r := VerifyAndPlace(slot, path, category, temp, hash, io);
      }
    }

    /** The middle of copyAndVerify: the index lookup. */
    method VerifyAndPlace(slot: Slot, path: string, category: string, temp: Path, hash: Hash, io: FileIo)
      returns (r: CopyResult)
      requires Valid() && InFlight(slot, temp) && temp in temps
      requires var w := sys.workers[slot]; w.pc.Streamed? && w.pc.hash == hash && w.scan[|w.done|] == path
      modifies this`finals, this`temps, this`index, this`trace, this`sys
      ensures Valid() && old(trace) <= trace
      ensures var verified := io.lookup && hash !in old(index) && io.readBack && cfg.hash(old(temps)[temp]) == hash;
        && finals == FinalsPlaced(old(finals), path, category, old(temps)[temp], verified, io)
        && temps == Without(old(temps), temp, io.cleaned || (verified && Moves(io)))
        && index == (if verified && Records(io) then old(index) + {hash} else old(index))
        && r == if verified && Succeeds(io) then Stored
                else if io.lookup && hash in old(index) then Known
                else if io.lookup && io.readBack && cfg.hash(old(temps)[temp]) != hash then FileError
                else FatalError
      ensures sys.workers == WorkersAfter(old(sys), slot, r)
    {
      if !io.lookup {
        Bail(slot, temp, io);
        return FatalError;
      }
      Take(slot, Lookup(io.cleaned));
      if hash in index {
        if io.cleaned { temps := temps - {temp}; }
        return Known;
      }
      r := ReadBackAndPlace(slot, path, category, temp, hash, io);
    }

    /** Then the read-back of what landed. */
    method ReadBackAndPlace(slot: Slot, path: string, category: string, temp: Path, hash: Hash, io: FileIo)
      returns (r: CopyResult)
      requires Valid() && InFlight(slot, temp) && temp in temps
      requires var w := sys.workers[slot]; w.pc.Unseen? && w.pc.hash == hash && w.scan[|w.done|] == path
      modifies this`finals, this`temps, this`index, this`trace, this`sys
      ensures Valid() && old(trace) <= trace
      ensures var verified := io.readBack && cfg.hash(old(temps)[temp]) == hash;
        && finals == FinalsPlaced(old(finals), path, category, old(temps)[temp], verified, io)
        && temps == Without(old(temps), temp, io.cleaned || (verified && Moves(io)))
        && index == (if verified && Records(io) then old(index) + {hash} else old(index))
        && r == if verified && Succeeds(io) then Stored
                else if io.readBack && cfg.hash(old(temps)[temp]) != hash then FileError
                else FatalError
      ensures sys.workers == WorkersAfter(old(sys), slot, r)
    {
      var landed := HashFile(temp, io);
      if landed.None? {
        Bail(slot, temp, io);
        return FatalError;
      }
      Take(slot, ReadBack(io.cleaned));
      if landed.value != hash {
        if io.cleaned { temps := temps - {temp}; }
        return FileError;
      }
      r := PlaceAndRecord(slot, path, category, temp, hash, io);
    }

    /** The final area once verified bytes have, or have not, been renamed into place. */
    function FinalsPlaced(before: map<Place, Bytes>, path: string, category: string, bytes: Bytes, verified: bool,
                          io: FileIo): map<Place, Bytes>
    {
      if verified && Moves(io) then before[Place(dirOf(category, io.date), Base(path)) := bytes] else before
    }

    /** The workers after copyAndVerify: off its slot after a fatal error, else one outcome further. */
    ghost function WorkersAfter(before: System, slot: Slot, r: CopyResult): map<Slot, Worker>
      requires slot in before.workers
    {
      if r.FatalError? then before.workers - {slot}
      else before.workers[slot := before.workers[slot].Next(OutcomeOf(r))]
    }

    /** The tail of copyAndVerify: create the directory, rename into it, record the hash. */
    method PlaceAndRecord(slot: Slot, path: string, category: string, temp: Path, hash: Hash, io: FileIo)
      returns (r: CopyResult)
      requires Valid() && InFlight(slot, temp) && temp in temps
      requires var w := sys.workers[slot]; w.pc.Matched? && w.pc.hash == hash && w.scan[|w.done|] == path
      modifies this`finals, this`temps, this`index, this`trace, this`sys
      ensures Valid() && old(trace) <= trace
      ensures finals == FinalsPlaced(old(finals), path, category, old(temps)[temp], true, io)
      ensures temps == Without(old(temps), temp, io.cleaned || Moves(io))
      ensures index == if Records(io) then old(index) + {hash} else old(index)
      ensures r == if Succeeds(io) then Stored else FatalError
      ensures sys.workers == WorkersAfter(old(sys), slot, r)
    {
      var at := Place(dirOf(category, io.date), Base(path));
      if !io.destDir || io.rename == RenameFailed(false) {
        Bail(slot, temp, io);
        return FatalError;
      }
      finals, temps := finals[at := temps[temp]], temps - {temp};
      Take(slot, Rename(at));
      r := RecordHash(slot, hash, io);
    }

    /** MarkVerified, unless the rename reported an error although it took effect. */
    method RecordHash(slot: Slot, hash: Hash, io: FileIo) returns (r: CopyResult)
      requires Valid() && slot in sys.workers
      requires var w := sys.workers[slot];
        w.pc == Landed(hash) && |w.done| < |w.scan| && (forall p :: p in w.scan ==> p in w.files)
      requires io.destDir
      modifies this`index, this`trace, this`sys
      ensures Valid() && old(trace) <= trace
      ensures index == if Records(io) then old(index) + {hash} else old(index)
      ensures r == if Succeeds(io) then Stored else FatalError
      ensures sys.workers == WorkersAfter(old(sys), slot, r)
    {
      if io.rename.Renamed? && io.record.Recorded? {
        index := index + {hash};
        Take(slot, Record);
        r := Stored;
      } else {
        var stored := io.rename.Renamed? && io.record.stored;
        if stored { index := index + {hash}; }
        Take(slot, Abort(false, stored));
        r := FatalError;
      }
    }

    // ---------- Ingest ----------

    ghost method Begin(slot: Slot, entries: seq<Rules.Entry>, files: map<string, Bytes>)
      requires Valid() && slot !in sys.workers && WholeScan(Paths(entries), files)
      modifies this`trace, this`sys
      ensures Valid() && sys.workers == old(sys.workers)[slot := Worker(Paths(entries), files, files, [], Ready)]
    {
      Act(Insert(slot, Paths(entries), files));
    }

    ghost method Cancel(slot: Slot, others: map<Slot, Worker>)
      requires Valid() && slot in sys.workers && sys.workers[slot].pc.Ready?
      requires |sys.workers[slot].done| <= |sys.workers[slot].scan|
      requires WholeScan(sys.workers[slot].scan, sys.workers[slot].files)
      requires slot !in others && sys.workers == others[slot := sys.workers[slot]]
      modifies this`trace, this`sys
      ensures Valid() && sys.workers == others
    {
      Take(slot, Abort(false, false));
    }

    ghost method Complete(slot: Slot)
      requires Valid() && slot in sys.workers && sys.workers[slot].pc.Ready?
      requires |sys.workers[slot].done| == |sys.workers[slot].scan|
      requires WholeScan(sys.workers[slot].scan, sys.workers[slot].files)
      modifies this`trace, this`sys
      ensures Valid() && sys.workers == old(sys.workers)[slot := old(sys.workers[slot]).(pc := Ingested)]
    {
      Take(slot, Finish);
    }

    function ContextOf(slot: Slot, entries: seq<Rules.Entry>): Context { Context(cfg, dirOf, slot, entries) }

    method TotalBytes(entries: seq<Rules.Entry>) returns (total: nat)
      ensures total == SizeSum(entries)
    {
      total := 0;
      for i := 0 to |entries|
        invariant total == SizeSum(entries[..i])
      {
        assert entries[..i + 1][..i] == entries[..i];
        total := total + entries[i].size;
      }
      assert entries[..|entries|] == entries;
    }

    /** Ingests one scanned card; jobs are the files looked at, with the decision taken for each, and l
        the ledger they lead to. */
    method Ingest(slot: Slot, scan: Option<seq<Rules.Entry>>, files: map<string, Bytes>, ios: seq<FileIo>,
                  policy: Policy)
      returns (res: Result, ok: bool, ghost jobs: seq<Job>, ghost l: Ledger)
      requires Valid() && slot !in sys.workers
      requires scan.Some? ==> |ios| == |scan.value| && WholeScan(Paths(scan.value), files)
      modifies this
      ensures Valid()
      ensures scan.None? ==> !ok && res == NOTHING && sys == old(sys) && progress == old(progress)
      ensures scan.Some? ==> Played(ContextOf(slot, scan.value), old(index), old(finals), policy, files, ios, jobs, l)
      ensures scan.Some? ==> res == l.res && index == l.index && finals == l.finals
      ensures scan.Some? ==> if ok then |l.done| == |jobs| == |scan.value| && !l.stopped
                             else l.stopped || (|jobs| < |scan.value| && !ios[|jobs|].alive)
      ensures scan.Some? ==> progress == old(progress) + l.reports + FinalReport(slot, scan.value, res, ok)
      ensures scan.Some? ==> |l.done| <= |jobs| <= |scan.value|
      ensures scan.Some? ==> forall k :: 0 <= k < |l.done| ==>
        (l.done[k] == Skipped <==>
         Rules.Decide(policy.lib, policy.engine, scan.value[k]) == Rules.Skip || jobs[k].category == None)
      ensures scan.Some? ==> forall k :: 0 <= k < |jobs| ==> ios[k].alive && scan.value[k].path in files
      ensures ok ==> forall k :: 0 <= k < |jobs| && jobs[k].category != None ==>
        CallsHeld(cfg, Play(ContextOf(slot, scan.value), old(index), old(finals), jobs[..k]).index,
                  files[scan.value[k].path], ios[k])
      ensures sys.workers ==
        if ok then old(sys.workers)[slot := Worker(Paths(scan.value), files, files, l.done, Ingested)]
        else old(sys.workers)
    {
      hide Played, Play, CallsHeld, SizeSum;
      res, ok, jobs, l := NOTHING, false, [], Ledger(index, finals, [], NOTHING, [], false);
      if scan.None? { return; }
      res, ok, jobs, l := IngestScanned(slot, scan.value, files, ios, policy);
      IngestObeys(ContextOf(slot, scan.value), old(index), old(finals), policy, files, ios, jobs, l);
    }

    /** Ingest once the card is scanned. */
    method IngestScanned(slot: Slot, entries: seq<Rules.Entry>, files: map<string, Bytes>, ios: seq<FileIo>,
                         policy: Policy)
      returns (res: Result, ok: bool, ghost jobs: seq<Job>, ghost l: Ledger)
      requires Valid() && slot !in sys.workers && |ios| == |entries| && WholeScan(Paths(entries), files)
      modifies this
      ensures Valid() && Played(ContextOf(slot, entries), old(index), old(finals), policy, files, ios, jobs, l)
      ensures res == l.res && index == l.index && finals == l.finals
      ensures if ok then |l.done| == |jobs| == |entries| && !l.stopped
              else l.stopped || (|jobs| < |entries| && !ios[|jobs|].alive)
      ensures progress == old(progress) + l.reports + FinalReport(slot, entries, res, ok)
      ensures sys.workers ==
        if ok then old(sys.workers)[slot := Worker(Paths(entries), files, files, l.done, Ingested)]
        else old(sys.workers)
    {
      hide Played;
      var totalBytes := TotalBytes(entries);
      Begin(slot, entries, files);
      res, ok, jobs, l := IngestAll(slot, entries, files, ios, policy, totalBytes);
      if ok {
        EmitProgress(slot, |entries|, |entries|, res.bytesCopied, totalBytes, "");
        Complete(slot);
      }
    }

    /** The worker has just finished the files of a ledger. */
    ghost predicate Keeps(slot: Slot, l: Ledger, others: map<Slot, Worker>, entries: seq<Rules.Entry>,
                          files: map<string, Bytes>)
      reads this
    {
      && Valid() && index == l.index && finals == l.finals
      && sys.workers == others[slot := Worker(Paths(entries), files, files, l.done, Ready)]
    }

    /** The loop of Ingest. */
    method IngestAll(slot: Slot, entries: seq<Rules.Entry>, files: map<string, Bytes>, ios: seq<FileIo>,
                     policy: Policy, totalBytes: nat)
      returns (res: Result, ok: bool, ghost jobs: seq<Job>, ghost l: Ledger)
      requires Valid() && slot in sys.workers && sys.workers[slot] == Worker(Paths(entries), files, files, [], Ready)
      requires |ios| == |entries| && WholeScan(Paths(entries), files) && totalBytes == SizeSum(entries)
      modifies this
      ensures Played(ContextOf(slot, entries), old(index), old(finals), policy, files, ios, jobs, l)
      ensures res == l.res && index == l.index && finals == l.finals && progress == old(progress) + l.reports
      ensures if ok then |l.done| == |jobs| == |entries| && !l.stopped
              else l.stopped || (|jobs| < |entries| && !ios[|jobs|].alive)
      ensures Valid() && sys.workers ==
        if ok then old(sys.workers)[slot := Worker(Paths(entries), files, files, l.done, Ready)]
                                        else old(sys.workers) - {slot}
    {
      hide Turned, Played;
      ghost var others := old(sys.workers) - {slot};
      res, ok, jobs, l := NOTHING, true, [], Ledger(index, finals, [], NOTHING, [], false);
      PlayedNone(ContextOf(slot, entries), index, finals, policy, files, ios);
      assert old(sys.workers) == others[slot := old(sys.workers[slot])];
      for i := 0 to |entries|
        invariant ok && |l.done| == |jobs| == i && !l.stopped && res == l.res && progress == old(progress) + l.reports
        invariant Keeps(slot, l, others, entries, files)
        invariant Played(ContextOf(slot, entries), old(index), old(finals), policy, files, ios, jobs, l)
      {
        if !ios[i].alive {
          Cancel(slot, others);
          return res, false, jobs, l;
        }
        ghost var job, l';
        res, ok, job, l' := HandleFile(slot, entries, files, ios, policy, totalBytes, i, res, l, others);
        PlayedNext(ContextOf(slot, entries), old(index), old(finals), policy, files, ios, jobs, l, job, l');
        jobs, l := jobs + [job], l';
        if !ok { return; }
      }
    }

    /** One turn of the loop: report, decide, copy and count one file. */
    method HandleFile(slot: Slot, entries: seq<Rules.Entry>, files: map<string, Bytes>, ios: seq<FileIo>,
                      policy: Policy, totalBytes: nat, i: nat, before: Result, ghost l: Ledger,
                      ghost others: map<Slot, Worker>)
      returns (res: Result, goOn: bool, ghost job: Job, ghost l': Ledger)
      requires Keeps(slot, l, others, entries, files) && WholeScan(Paths(entries), files) && slot !in others
      requires i < |entries| == |ios| && before == l.res && |l.done| == i
      requires !l.stopped && totalBytes == SizeSum(entries)
      modifies this
      ensures Turned(ContextOf(slot, entries), policy, files, ios, i, l, job, l')
      ensures goOn == !l'.stopped && res == l'.res
      ensures |l'.reports| == |l.reports| + 1 && l'.reports == l.reports + [l'.reports[|l.reports|]]
      ensures progress == old(progress) + [l'.reports[|l.reports|]]
      ensures if goOn then |l'.done| == i + 1 && Keeps(slot, l', others, entries, files)
              else Valid() && index == l'.index && finals == l'.finals && sys.workers == others
    {
      var e := entries[i];
      assert Paths(entries)[i] == e.path;
      EmitProgress(slot, i, |entries|, before.bytesCopied, totalBytes, e.path);
      var category := ChooseCategory(policy, e);
      job := Job(e, files[e.path], category, ios[i]);
      l' := Advance(ContextOf(slot, entries), l, job);
      var outcome := CopyDecided(slot, e.path, files[e.path], category, ios[i], others);
      if outcome.None? { return before, false, job, l'; }
      res := Count(before, e, outcome.value, if category.Some? then category.value else "");
      goOn := true;
    }

    /** Rules first, then the categories; None means the file is skipped. */
    method ChooseCategory(policy: Policy, e: Rules.Entry) returns (category: Option<string>)
      ensures Decided(policy, e, category)
    {
      category := None;
      if Rules.Decide(policy.lib, policy.engine, e) == Rules.Keep {
        category := Categories.Categorize(policy.lib, e.path, policy.cats);
      }
    }

    /** Skips or copies the worker's current file; None after a fatal error. */
    method CopyDecided(slot: Slot, path: string, bytes: Bytes, category: Option<string>, io: FileIo,
                       ghost others: map<Slot, Worker>)
      returns (outcome: Option<Outcome>)
      requires Valid() && At(slot, path) && sys.workers[slot].files[path] == bytes
      requires slot !in others && sys.workers == others[slot := sys.workers[slot]]
      modifies this`finals, this`temps, this`index, this`seqNo, this`trace, this`sys
      ensures Valid()
      ensures outcome == JobOutcome(cfg, old(index), category, bytes, io)
      ensures index == if category.Some? then IndexAfter(cfg, old(index), bytes, io) else old(index)
      ensures finals == if category.Some? && Lands(cfg, old(index), bytes, io)
                        then old(finals)[Place(dirOf(category.value, io.date), Base(path)) := io.arrived]
                        else old(finals)
      ensures sys.workers ==
        if outcome.None? then others else others[slot := old(sys.workers[slot]).Next(outcome.value)]
    {
      if category.None? {
        Take(slot, Skip);
        return Some(Skipped);
      }
      var r := CopyAndVerify(slot, path, bytes, category.value, io);
      outcome := if r.FatalError? then None else Some(OutcomeOf(r));
    }

    method EmitProgress(slot: Slot, filesDone: nat, totalFiles: nat, bytesDone: nat, totalBytes: nat, current: string)
      modifies this`progress
      ensures progress == old(progress) + [Progress(slot, filesDone, totalFiles, bytesDone, totalBytes, current)]
    {
      progress := progress + [Progress(slot, filesDone, totalFiles, bytesDone, totalBytes, current)];
    }

    // ---------- Erase ----------

    /** The worker's card has been remounted and the first next paths of its plan were tried. */
    ghost predicate EraseAt(slot: Slot, others: map<Slot, Worker>, w: Worker, next: nat, card: map<string, Bytes>)
      reads this
    {
      && Valid() && |w.done| <= |w.scan| && (forall p :: p in w.scan ==> p in w.files) &&
        (forall p :: p in card ==> p in w.files)
      && sys.workers == others[slot := w.(pc := Erasing(next), card := card)]
    }

    /** Removes the given paths, each one whose removal succeeds; failed tells whether one did not. */
    method Erase(slot: Slot, device: Device, paths: seq<string>, removes: string -> bool, ghost w: Worker,
                 ghost others: map<Slot, Worker>)
      returns (failed: bool)
      requires EraseAt(slot, others, w, 0, device.files) && paths == Plan(cfg, w) && device.writable
      requires forall i, j :: 0 <= i < j < |paths| ==> paths[i] != paths[j]
      modifies this`trace, this`sys, device`files
      ensures device.files == old(device.files) - Cleared(paths, removes)
      ensures failed <==> SomeKept(old(device.files), paths, removes)
      ensures forall p :: p in device.files <==> p in old(device.files) && !(p in paths && removes(p))
      ensures forall p :: p in device.files ==> device.files[p] == old(device.files)[p]
      ensures failed <==> exists p :: p in paths && !(removes(p) && p in old(device.files))
      ensures EraseAt(slot, others, w, |paths|, device.files)
    {
      hide After, Plan, Cleared, SomeKept;
      failed := false;
      ClearNone(device.files, removes);
      for i := 0 to |paths|
        invariant device.files == old(device.files) - Cleared(paths[..i], removes)
        invariant failed <==> SomeKept(old(device.files), paths[..i], removes)
        invariant EraseAt(slot, others, w, i, device.files)
      {
        var rel := paths[i];
        ClearOne(old(device.files), paths, removes, i);
        var removed := device.Remove(rel, removes(rel));
        EraseStep(slot, others, w, i, old(device.files) - Cleared(paths[..i], removes), removed);
        if !removed { failed := true; }
      }
      assert paths[..|paths|] == paths;
      ClearedMeans(old(device.files), paths, removes);
    }

    ghost method Remounts(slot: Slot, others: map<Slot, Worker>, w: Worker)
      requires |w.done| <= |w.scan| && Valid() && sys.workers == others[slot := w]
      requires w.pc.Ingested? && Plan(cfg, w) != []
      requires WholeScan(w.scan, w.files) && w.card == w.files
      modifies this`trace, this`sys
      ensures EraseAt(slot, others, w, 0, w.card)
    {
      Take(slot, Move.Remount);
    }

    ghost method Leaves(slot: Slot, others: map<Slot, Worker>)
      requires Valid() && slot in sys.workers && slot !in others && sys.workers == others[slot := sys.workers[slot]]
      requires var w := sys.workers[slot];
        && (w.pc.Ingested? || w.pc.Erasing?) && |w.done| <= |w.scan| && (forall p :: p in w.scan ==> p in w.files)
      modifies this`trace, this`sys
      ensures Valid() && sys.workers == others
    {
      Take(slot, Leave);
    }

    ghost method EraseStep(slot: Slot, others: map<Slot, Worker>, w: Worker, i: nat, card: map<string, Bytes>,
                           removed: bool)
      requires EraseAt(slot, others, w, i, card) && i < |Plan(cfg, w)| && (removed ==> Plan(cfg, w)[i] in card)
      modifies this`trace, this`sys
      ensures EraseAt(slot, others, w, i + 1, if removed then card - {Plan(cfg, w)[i]} else card)
    {
      assert Plan(cfg, sys.workers[slot]) == Plan(cfg, w);
      Take(slot, Move.Erase(removed));
    }
  }
}
