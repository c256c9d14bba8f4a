/** What can go between a worker's index lookup and its rename: when one content is placed twice. */
module Interleaving {
  import opened Domain
  import opened Protocol
  import opened ProtocolSafety

  // ---------- entries of the history and the actions that made them ----------

  /** The history after the first i actions of a run. */
  function LogAt(cfg: Config, s: System, run: seq<Action>, i: nat): seq<Event>
    requires i <= |run|
  {
    var mid := After(cfg, s, run[..i]);
    if mid.Some? then mid.value.log else []
  }

  lemma {:induction false} LogsGrow(cfg: Config, s: System, run: seq<Action>, i: nat, j: nat)
    requires After(cfg, s, run).Some? && i <= j <= |run|
    ensures LogAt(cfg, s, run, i) <= LogAt(cfg, s, run, j)
  {
    hide Enabled, Step, After;
    RunGrows(cfg, s, run, j);
    RunGrows(cfg, s, run[..j], i);
    assert run[..j][..i] == run[..i];
  }

  /** Action i of the run, enabled where it stands, made entry k of the history. */
  ghost predicate Makes(cfg: Config, s: System, run: seq<Action>, i: int, k: nat) {
    0 <= i < |run| && |LogAt(cfg, s, run, i)| == k < |LogAt(cfg, s, run, i + 1)|
  }

  /** One action appends at most one entry, and only the right moves append any. */
  lemma StepLog(cfg: Config, s: System, a: Action)
    requires Enabled(cfg, s, a)
    ensures var before, after := s.log, Step(cfg, s, a).log;
      && |after| <= |before| + 1
      && (after != before ==> a.Do? && after == before + [after[|before|]])
      && (after != before && after[|before|].Placed? ==> a.move.Rename?)
      && (after != before ==> a.move.Rename? || a.move.Record? || a.move.Abort? || a.move.Erase?)
  {
    hide TempName, TempsAfter, Plan, Moved;
  }

  lemma {:induction false} PrefixStep(cfg: Config, s: System, run: seq<Action>, i: nat)
    requires After(cfg, s, run).Some? && i < |run|
    ensures After(cfg, s, run[..i]).Some? && Enabled(cfg, After(cfg, s, run[..i]).value, run[i])
    ensures After(cfg, s, run[..i + 1]) == Some(Step(cfg, After(cfg, s, run[..i]).value, run[i]))
  {
    RunGrows(cfg, s, run, i + 1);
    assert run[..i + 1][..i] == run[..i];
  }

  lemma {:induction false} LogStep(cfg: Config, s: System, run: seq<Action>, i: nat)
    requires After(cfg, s, run).Some? && i < |run|
    ensures var before, after := LogAt(cfg, s, run, i), LogAt(cfg, s, run, i + 1);
      && |after| <= |before| + 1
      && (after != before ==>
            run[i].Do? && (run[i].move.Rename? || run[i].move.Record? || run[i].move.Abort? || run[i].move.Erase?))
  {
    PrefixStep(cfg, s, run, i);
    StepLog(cfg, After(cfg, s, run[..i]).value, run[i]);
  }

  lemma {:induction false} SomeoneMadeIt(cfg: Config, s: System, run: seq<Action>, k: nat) returns (i: nat)
    requires After(cfg, s, run).Some? && |s.log| <= k < |After(cfg, s, run).value.log|
    ensures Makes(cfg, s, run, i, k)
  {
    var n := |run| - 1;
    assert run != [] && run[..|run|] == run;
    PrefixStep(cfg, s, run, n);
    StepLog(cfg, After(cfg, s, run[..n]).value, run[n]);
    hide Step, Enabled;
    if k < |LogAt(cfg, s, run, n)| {
      i := SomeoneMadeIt(cfg, s, run[..n], k);
      assert run[..n][..i] == run[..i] && run[..n][..i + 1] == run[..i + 1];
    } else {
      i := n;
    }
  }

  // ---------- from lookup to rename ----------

  /** Between j and i the slot's worker does nothing but read back, and nobody takes its place. */
  ghost predicate Untouched(run: seq<Action>, j: int, i: int, slot: Slot) {
    forall k :: 0 <= j < k < i <= |run| ==>
      && !run[k].Crash? && (run[k].Insert? ==> run[k].slot != slot)
      && (run[k].Do? && run[k].slot == slot ==> run[k].move.ReadBack?)
  }

  /** Action j is the slot's worker looking up this hash and not finding it, and by i it has not moved on. */
  ghost predicate LookedUp(cfg: Config, s: System, run: seq<Action>, j: int, i: int, slot: Slot, hash: Hash) {
    && 0 <= j < i <= |run| && run[j].Do? && run[j].slot == slot && run[j].move.Lookup?
    && After(cfg, s, run[..j]).Some?
    && var mid := After(cfg, s, run[..j]).value;
    && slot in mid.workers && mid.workers[slot].pc.Streamed? && mid.workers[slot].pc.hash == hash && hash !in mid.index
    && Untouched(run, j, i, slot)
  }

  lemma LookedUpLonger(cfg: Config, s: System, run: seq<Action>, slot: Slot, hash: Hash, j: nat)
    requires run != [] && LookedUp(cfg, s, run[..|run| - 1], j, |run| - 1, slot, hash)
    requires var a := run[|run| - 1];
      && !a.Crash? && (a.Insert? ==> a.slot != slot) && (a.Do? && a.slot == slot ==> a.move.ReadBack?)
    ensures LookedUp(cfg, s, run, j, |run|, slot, hash)
  {
    var n := |run| - 1;
    assert run[..n][..j] == run[..j];
    forall k | j < k < |run|
      ensures !run[k].Crash? && (run[k].Insert? ==> run[k].slot != slot)
      ensures run[k].Do? && run[k].slot == slot ==> run[k].move.ReadBack?
    {
      if k < n { assert run[..n][k] == run[k]; }
    }
  }

  ghost predicate Pending(s: System, slot: Slot) {
    slot in s.workers && (s.workers[slot].pc.Unseen? || s.workers[slot].pc.Matched?)
  }

  lemma PendingMove(cfg: Config, s: System, slot: Slot, w: Worker, move: Move, w': Worker)
    requires CanMove(cfg, s, slot, w, move) && Moved(cfg, s, slot, w, move) == Some(w')
    requires w'.pc.Unseen? || w'.pc.Matched?
    ensures move.Lookup? || move.ReadBack?
    ensures if move.Lookup? then w.pc.Streamed? && w.pc.hash == w'.pc.hash && w'.pc.hash !in s.index
            else (w.pc.Unseen? || w.pc.Matched?) && w.pc.hash == w'.pc.hash
  {
    hide TempName, Plan;
  }

  /** How a step leaves a worker between its lookup and its rename. */
  lemma PendingStep(cfg: Config, s: System, a: Action, slot: Slot)
    requires Enabled(cfg, s, a) && Pending(Step(cfg, s, a), slot)
    ensures !a.Crash? && (a.Insert? ==> a.slot != slot)
    ensures a.Do? && a.slot == slot ==> a.move.Lookup? || a.move.ReadBack?
    ensures var w' := Step(cfg, s, a).workers[slot];
      if a.Do? && a.slot == slot && a.move.Lookup?
      then slot in s.workers && s.workers[slot].pc.Streamed? && s.workers[slot].pc.hash == w'.pc.hash &&
           w'.pc.hash !in s.index
      else Pending(s, slot) && s.workers[slot].pc.hash == w'.pc.hash
  {
    hide TempName, TempsAfter, Plan, Moved, CanMove, Effect, WholeScan;
    if a.Do? && a.slot == slot {
      PendingMove(cfg, s, slot, s.workers[slot], a.move, Step(cfg, s, a).workers[slot]);
    }
  }

  lemma {:induction false} PendingWasLookedUp(cfg: Config, s: System, run: seq<Action>, slot: Slot) returns (j: nat)
    requires Initial(s) && After(cfg, s, run).Some? && Pending(After(cfg, s, run).value, slot)
    ensures LookedUp(cfg, s, run, j, |run|, slot, After(cfg, s, run).value.workers[slot].pc.hash)
  {
    var n := |run| - 1;
    assert run != [];
    var mid := After(cfg, s, run[..n]).value;
    PendingStep(cfg, mid, run[n], slot);
    hide Step, Enabled;
    if run[n].Do? && run[n].slot == slot && run[n].move.Lookup? {
      j := n;
    } else {
      j := PendingWasLookedUp(cfg, s, run[..n], slot);
      LookedUpLonger(cfg, s, run, slot, mid.workers[slot].pc.hash, j);
    }
  }

  lemma RenameIsPending(cfg: Config, s: System, a: Action)
    requires Enabled(cfg, s, a) && a.Do? && a.move.Rename? && WorkerOk(cfg, s, a.slot, s.workers[a.slot])
    ensures Pending(s, a.slot)
    ensures Step(cfg, s, a).log[|s.log|..] == [Step(cfg, s, a).log[|s.log|]]
    ensures var e := Step(cfg, s, a).log[|s.log|];
      e.Placed? && cfg.hash(e.bytes) == s.workers[a.slot].pc.hash
  {
    hide TempName, Plan;
  }

  lemma PlacementIsRename(cfg: Config, s: System, run: seq<Action>, t: System, k: nat) returns (i: nat)
    requires Reaches(cfg, s, run, t) && k < |t.log| && t.log[k].Placed?
    ensures Makes(cfg, s, run, i, k) && run[i].Do? && run[i].move.Rename? && After(cfg, s, run[..i]).Some?
    ensures var mid, slot := After(cfg, s, run[..i]).value, run[i].slot;
      Pending(mid, slot) && mid.workers[slot].pc.hash == cfg.hash(t.log[k].bytes)
  {
    hide TempName, Plan, HistoryInv, Spared, Vouched;
    i := SomeoneMadeIt(cfg, s, run, k);
    PrefixStep(cfg, s, run, i);
    var before := After(cfg, s, run[..i]).value;
    LogsGrow(cfg, s, run, i + 1, |run|);
    assert run[..|run|] == run;
    assert LogAt(cfg, s, run, i + 1)[k] == t.log[k];
    StepLog(cfg, before, run[i]);
    assert Reaches(cfg, s, run[..i], before);
    ReachedIsInv(cfg, s, run[..i], before);
    RenameIsPending(cfg, before, run[i]);
  }

  /** Every placement in every history was decided by a lookup of the same worker that did not find the
      hash, with nothing but the read-back in between on its side; and that lookup came before every record of
      the hash. */
  lemma PlacementWasLookedUp(cfg: Config, s: System, run: seq<Action>, t: System, k: nat) returns (j: nat, i: nat)
    requires Reaches(cfg, s, run, t) && k < |t.log| && t.log[k].Placed?
    ensures Makes(cfg, s, run, i, k) && run[i].Do? && run[i].move.Rename?
    ensures LookedUp(cfg, s, run, j, i, run[i].slot, cfg.hash(t.log[k].bytes))
    ensures forall m ::
      0 <= m < |t.log| && t.log[m] == Indexed(cfg.hash(t.log[k].bytes)) ==> |LogAt(cfg, s, run, j)| <= m
  {
    hide After, LogAt;
    var hash := cfg.hash(t.log[k].bytes);
    i := PlacementIsRename(cfg, s, run, t, k);
    j := PendingWasLookedUp(cfg, s, run[..i], run[i].slot);
    assert run[..i][..j] == run[..j];
    forall m | j < m < i ensures run[..i][m] == run[m] {}
    forall m | 0 <= m < |t.log| && t.log[m] == Indexed(hash) ensures |LogAt(cfg, s, run, j)| <= m {
      NotRecordedAtLookup(cfg, s, run, t, j, i, run[i].slot, hash, m);
    }
  }

  /** At its lookup the hash was in no entry of the history. */
  lemma NotRecordedAtLookup(cfg: Config, s: System, run: seq<Action>, t: System, j: int, i: int, slot: Slot,
                            hash: Hash, m: nat)
    requires Reaches(cfg, s, run, t) && LookedUp(cfg, s, run, j, i, slot, hash)
    requires m < |t.log| && t.log[m] == Indexed(hash)
    ensures |LogAt(cfg, s, run, j)| <= m
  {
    var mid := After(cfg, s, run[..j]).value;
    LogsGrow(cfg, s, run, j, |run|);
    assert run[..|run|] == run;
    assert Reaches(cfg, s, run[..j], mid);
    ReachedIsInv(cfg, s, run[..j], mid);
    if m < |mid.log| {
      assert mid.log[m] == t.log[m];
      assert IndexedBefore(mid.log, |mid.log|, hash);
    }
  }

  /** A content whose hash is on record is placed again only in a race: its worker looked the hash up before
      the record was made, another slot's worker made the record, and then this one renamed. */
  lemma PlacedAgainOnlyInARace(cfg: Config, s: System, run: seq<Action>, t: System, m: nat, k: nat)
    returns (j: nat, r: nat, i: nat)
    requires Reaches(cfg, s, run, t) && m < k < |t.log| && t.log[k].Placed?
    requires t.log[m] == Indexed(cfg.hash(t.log[k].bytes))
    ensures j < r < i && Makes(cfg, s, run, r, m) && Makes(cfg, s, run, i, k)
    ensures run[i].Do? && run[i].move.Rename? && LookedUp(cfg, s, run, j, i, run[i].slot, cfg.hash(t.log[k].bytes))
    ensures run[r].Do? && run[r].slot != run[i].slot
  {
    var hash := cfg.hash(t.log[k].bytes);
    hide LogAt, After, Step, Enabled, Initial;
    j, i := PlacementWasLookedUp(cfg, s, run, t, k);
    r := SomeoneMadeIt(cfg, s, run, m);
    LogStep(cfg, s, run, j);
    LogStep(cfg, s, run, r);
    if r < j { LogsGrow(cfg, s, run, r + 1, j); }
    if i <= r { LogsGrow(cfg, s, run, i, r); }
  }

  /** So a single slot, through crashes, aborts and reruns, never places a recorded content again. */
  lemma OneSlotNeverPlacesRecorded(cfg: Config, s: System, run: seq<Action>, t: System, slot: Slot, m: nat, k: nat)
    requires Reaches(cfg, s, run, t) && forall n :: 0 <= n < |run| && run[n].Do? ==> run[n].slot == slot
    requires m < k < |t.log| && t.log[k].Placed?
    ensures t.log[m] != Indexed(cfg.hash(t.log[k].bytes))
  {
    if t.log[m] == Indexed(cfg.hash(t.log[k].bytes)) {
      var j, r, i := PlacedAgainOnlyInARace(cfg, s, run, t, m, k);
      assert false;
    }
  }

  // ---------- when the cards allow it ----------

  /** Only files whose contents the slot's cards are said to hold are copied; holds gives the contents of the
      kept files of all cards ever put into a slot. */
  ghost predicate Held(holds: Slot -> iset<Bytes>, s: System, a: Action) {
    a.Do? && a.move.Allocate? && a.slot in s.workers ==>
      var w := s.workers[a.slot];
      |w.done| < |w.scan| && w.scan[|w.done|] in w.files ==> w.files[w.scan[|w.done|]] in holds(a.slot)
  }

  ghost predicate HeldRun(cfg: Config, holds: Slot -> iset<Bytes>, s: System, run: seq<Action>) {
    run == [] ||
    var k := |run| - 1;
    && HeldRun(cfg, holds, s, run[..k])
    && After(cfg, s, run[..k]).Some?
    && Held(holds, After(cfg, s, run[..k]).value, run[k])
  }

  /** Such a run that leads from a fresh start to this state. */
  ghost predicate Holds(cfg: Config, holds: Slot -> iset<Bytes>, s: System, run: seq<Action>, t: System) {
    Reaches(cfg, s, run, t) && HeldRun(cfg, holds, s, run)
  }

  /** The file a worker is busy with is one its slot's cards hold. */
  ghost predicate BusyWith(w: Worker, held: iset<Bytes>) {
    w.InFlight() || w.pc.Landed? ==>
      |w.done| < |w.scan| && w.scan[|w.done|] in w.files && w.files[w.scan[|w.done|]] in held
  }

  ghost predicate Busy(holds: Slot -> iset<Bytes>, s: System, slot: Slot) {
    slot in s.workers ==> BusyWith(s.workers[slot], holds(slot))
  }

  lemma MoveBusy(cfg: Config, holds: Slot -> iset<Bytes>, s: System, slot: Slot, w: Worker, move: Move, w': Worker)
    requires slot in s.workers && s.workers[slot] == w && Held(holds, s, Do(slot, move))
    requires CanMove(cfg, s, slot, w, move) && Moved(cfg, s, slot, w, move) == Some(w') && BusyWith(w, holds(slot))
    ensures BusyWith(w', holds(slot))
  {
    hide TempName, Plan;
  }

  lemma StepBusy(cfg: Config, holds: Slot -> iset<Bytes>, s: System, a: Action, slot: Slot)
    requires Enabled(cfg, s, a) && Held(holds, s, a) && Busy(holds, s, slot)
    ensures Busy(holds, Step(cfg, s, a), slot)
  {
    hide TempName, TempsAfter, Plan, BusyWith, Moved, CanMove, Effect, WholeScan, Held;
    if a.Do? && a.slot == slot && slot in Step(cfg, s, a).workers {
      MoveBusy(cfg, holds, s, slot, s.workers[slot], a.move, Step(cfg, s, a).workers[slot]);
    } else if a.Insert? && a.slot == slot {
      ReadyIsIdle(Worker(a.scan, a.files, a.files, [], Ready), holds(slot));
    }
  }

  lemma ReadyIsIdle(w: Worker, held: iset<Bytes>)
    requires w.pc.Ready?
    ensures BusyWith(w, held)
  {
  }

  lemma {:induction false} HeldPrefix(cfg: Config, holds: Slot -> iset<Bytes>, s: System, run: seq<Action>, k: nat)
    requires HeldRun(cfg, holds, s, run) && k <= |run|
    ensures HeldRun(cfg, holds, s, run[..k])
  {
    if k == |run| {
      assert run[..k] == run;
    } else {
      HeldPrefix(cfg, holds, s, run[..|run| - 1], k);
      assert run[..|run| - 1][..k] == run[..k];
    }
  }

  lemma {:induction false} RunBusy(cfg: Config, holds: Slot -> iset<Bytes>, s: System, run: seq<Action>, t: System,
                                   slot: Slot)
    requires Holds(cfg, holds, s, run, t)
    ensures Busy(holds, t, slot)
  {
    if run != [] {
      hide Step, Enabled, Held, Busy;
      var mid := After(cfg, s, run[..|run| - 1]).value;
      RunBusy(cfg, holds, s, run[..|run| - 1], mid, slot);
      StepBusy(cfg, holds, mid, run[|run| - 1], slot);
    }
  }

  /** The content a busy worker's hash belongs to is one its slot's cards hold. */
  lemma HashIsHeld(cfg: Config, holds: Slot -> iset<Bytes>, s: System, run: seq<Action>, t: System, i: nat, slot: Slot)
    returns (b: Bytes)
    requires Holds(cfg, holds, s, run, t) && i <= |run| && After(cfg, s, run[..i]).Some?
    requires var mid := After(cfg, s, run[..i]).value;
      slot in mid.workers && (mid.workers[slot].pc.Streamed? || mid.workers[slot].pc.Landed?)
    ensures b in holds(slot) && cfg.hash(b) == After(cfg, s, run[..i]).value.workers[slot].pc.hash
  {
    hide HistoryInv, Spared, Vouched, TempName, Plan;
    var mid := After(cfg, s, run[..i]).value;
    HeldPrefix(cfg, holds, s, run, i);
    RunBusy(cfg, holds, s, run[..i], mid, slot);
    ReachedIsInv(cfg, s, run[..i], mid);
    assert WorkerOk(cfg, mid, slot, mid.workers[slot]);
    b := mid.workers[slot].files[mid.workers[slot].scan[|mid.workers[slot].done|]];
  }

  lemma RecordIsLanded(cfg: Config, s: System, a: Action)
    requires Enabled(cfg, s, a)
    ensures var before, after := s.log, Step(cfg, s, a).log;
      |after| > |before| && after[|before|].Indexed? ==>
        a.Do? && s.workers[a.slot].pc.Landed? && s.workers[a.slot].pc.hash == after[|before|].hash
  {
    hide TempName, TempsAfter, Plan, Moved;
  }

  /** Some content was placed although its hash was on record. */
  ghost predicate PlacedAgain(cfg: Config, log: seq<Event>, m: int, k: int) {
    0 <= m < k < |log| && log[k].Placed? && log[m] == Indexed(cfg.hash(log[k].bytes))
  }

  /** Two slots' cards hold contents with one hash. */
  ghost predicate Shared(cfg: Config, holds: Slot -> iset<Bytes>, one: Slot, two: Slot, b: Bytes, c: Bytes) {
    one != two && b in holds(one) && c in holds(two) && cfg.hash(b) == cfg.hash(c)
  }

  lemma PlacedAgainIsShared(cfg: Config, holds: Slot -> iset<Bytes>, s: System, run: seq<Action>, t: System,
                            m: nat, k: nat)
    returns (one: Slot, two: Slot, b: Bytes, c: Bytes)
    requires Holds(cfg, holds, s, run, t) && PlacedAgain(cfg, t.log, m, k)
    ensures Shared(cfg, holds, one, two, b, c)
  {
    hide Step, Enabled, HeldRun, Initial;
    var j, r, i := PlacedAgainOnlyInARace(cfg, s, run, t, m, k);
    PrefixStep(cfg, s, run, r);
    RecordIsLanded(cfg, After(cfg, s, run[..r]).value, run[r]);
    LogsGrow(cfg, s, run, r + 1, |run|);
    assert run[..|run|] == run && LogAt(cfg, s, run, r + 1)[m] == t.log[m];
    one, two := run[i].slot, run[r].slot;
    b := HashIsHeld(cfg, holds, s, run, t, j, one);
    c := HashIsHeld(cfg, holds, s, run, t, r, two);
  }

  // ---------- the race does happen ----------

  lemma Go(cfg: Config, holds: Slot -> iset<Bytes>, s: System, run: seq<Action>, t: System, a: Action)
    requires Holds(cfg, holds, s, run, t) && Enabled(cfg, t, a) && Held(holds, t, a)
    ensures Holds(cfg, holds, s, run + [a], Step(cfg, t, a))
  {
    hide Step, Enabled, Held;
    assert (run + [a])[..|run|] == run;
    AfterSnoc(cfg, s, run, a);
  }

  /** The slot's worker has streamed and looked up its only file. */
  ghost predicate Waits(cfg: Config, t: System, slot: Slot, n: nat, p: string, b: Bytes) {
    && slot in t.workers && t.workers[slot] == Worker([p], map[p := b], map[p := b], [], Unseen(n, cfg.hash(b)))
    && TempName(slot, n) in t.temps && t.temps[TempName(slot, n)] == b
  }

  /** A card with one file is inserted, and a temp name drawn for the file. */
  lemma Come(cfg: Config, holds: Slot -> iset<Bytes>, s: System, run: seq<Action>, t: System, slot: Slot, p: string,
             b: Bytes)
    returns (run': seq<Action>, t': System)
    requires Holds(cfg, holds, s, run, t) && slot !in t.workers && b in holds(slot)
    ensures Holds(cfg, holds, s, run', t')
    ensures t' == t.(seqNo := t.seqNo + 1,
                     workers := t.workers[slot := Worker([p], map[p := b], map[p := b], [], Allocated(t.seqNo + 1))])
  {
    hide TempName, Plan, After, Holds;
    var insert := Insert(slot, [p], map[p := b]);
    Go(cfg, holds, s, run, t, insert);
    Go(cfg, holds, s, run + [insert], Step(cfg, t, insert), Do(slot, Allocate));
    run', t' := run + [insert] + [Do(slot, Allocate)], Step(cfg, Step(cfg, t, insert), Do(slot, Allocate));
  }

  /** It is streamed, and its hash looked up and not found. */
  lemma Copy(cfg: Config, holds: Slot -> iset<Bytes>, s: System, run: seq<Action>, t: System, slot: Slot, n: nat,
             p: string, b: Bytes)
    returns (run': seq<Action>, t': System)
    requires Holds(cfg, holds, s, run, t) && cfg.hash(b) !in t.index
    requires slot in t.workers && t.workers[slot] == Worker([p], map[p := b], map[p := b], [], Allocated(n))
    ensures Holds(cfg, holds, s, run', t') && Waits(cfg, t', slot, n, p, b)
    ensures t' == t.(temps := t.temps[TempName(slot, n) := b], workers := t.workers[slot := t'.workers[slot]])
  {
    hide TempName, Plan, After, Holds;
    var stream, look := Do(slot, Stream(b)), Do(slot, Lookup(false));
    Go(cfg, holds, s, run, t, stream);
    Go(cfg, holds, s, run + [stream], Step(cfg, t, stream), look);
    run', t' := run + [stream] + [look], Step(cfg, Step(cfg, t, stream), look);
  }

  lemma ComeAndCopy(cfg: Config, holds: Slot -> iset<Bytes>, s: System, run: seq<Action>, t: System, slot: Slot,
                    p: string, b: Bytes)
    returns (run': seq<Action>, t': System)
    requires Holds(cfg, holds, s, run, t) && slot !in t.workers && cfg.hash(b) !in t.index && b in holds(slot)
    ensures Holds(cfg, holds, s, run', t') && Waits(cfg, t', slot, t.seqNo + 1, p, b)
    ensures t'.log == t.log && t'.index == t.index && t'.seqNo == t.seqNo + 1
    ensures t'.temps == t.temps[TempName(slot, t.seqNo + 1) := b] && t'.workers == t.workers[slot := t'.workers[slot]]
  {
    hide TempName, Holds, Waits;
    run', t' := Come(cfg, holds, s, run, t, slot, p, b);
    run', t' := Copy(cfg, holds, s, run', t', slot, t.seqNo + 1, p, b);
  }

  /** Its file is read back, renamed and recorded. */
  lemma Put(cfg: Config, holds: Slot -> iset<Bytes>, s: System, run: seq<Action>, t: System, slot: Slot, n: nat,
            p: string, b: Bytes, at: Place)
    returns (run': seq<Action>, t': System)
    requires Holds(cfg, holds, s, run, t) && Waits(cfg, t, slot, n, p, b)
    ensures Holds(cfg, holds, s, run', t') && t'.log == t.log + [Placed(at, b, b), Indexed(cfg.hash(b))]
    ensures t'.temps == t.temps - {TempName(slot, n)} && forall other :: other != slot && other in t.workers ==>
      other in t'.workers && t'.workers[other] == t.workers[other]
  {
    hide TempName, Plan, After, Holds, WholeScan;
    Go(cfg, holds, s, run, t, Do(slot, ReadBack(false)));
    var r1, t1 := run + [Do(slot, ReadBack(false))], Step(cfg, t, Do(slot, ReadBack(false)));
    Go(cfg, holds, s, r1, t1, Do(slot, Rename(at)));
    var r2, t2 := r1 + [Do(slot, Rename(at))], Step(cfg, t1, Do(slot, Rename(at)));
    Go(cfg, holds, s, r2, t2, Do(slot, Record));
    run', t' := r2 + [Do(slot, Record)], Step(cfg, t2, Do(slot, Record));
  }

  lemma {:induction false} HoldsNone(cfg: Config, holds: Slot -> iset<Bytes>, s: System)
    requires Initial(s)
    ensures Holds(cfg, holds, s, [], s) && s.workers == map[] && s.log == [] && s.index == {}
  {
  }

  /** Two slots' cards hold one photo, and both look it up before either records it: it is placed twice. */
  lemma TwoSlotsMayPlaceTwice(cfg: Config, holds: Slot -> iset<Bytes>, s: System, one: Slot, two: Slot,
                              p: string, b: Bytes, at1: Place, q: string, c: Bytes, at2: Place)
    returns (run: seq<Action>, t: System)
    requires Initial(s) && Shared(cfg, holds, one, two, b, c)
    ensures Holds(cfg, holds, s, run, t)
    ensures t.log == [Placed(at1, b, b), Indexed(cfg.hash(b)), Placed(at2, c, c), Indexed(cfg.hash(c))]
  {
    hide Holds, Initial;
    HoldsNone(cfg, holds, s);
    run, t := ComeAndCopy(cfg, holds, s, [], s, one, p, b);
    run, t := ComeAndCopy(cfg, holds, s, run, t, two, q, c);
    if TempName(one, s.seqNo + 1) == TempName(two, s.seqNo + 2) {
      TempNamesHaveOneTicket(one, s.seqNo + 1, two, s.seqNo + 2);
    }
    hide TempName;
    run, t := Put(cfg, holds, s, run, t, one, s.seqNo + 1, p, b, at1);
    run, t := Put(cfg, holds, s, run, t, two, s.seqNo + 2, q, c, at2);
  }

  // ---------- exactly when it can ----------

  ghost predicate PlacesOnce(cfg: Config, holds: Slot -> iset<Bytes>, s: System, run: seq<Action>, t: System) {
    Holds(cfg, holds, s, run, t) ==> forall m, k :: !PlacedAgain(cfg, t.log, m, k)
  }

  /** No run, with whatever failures, crashes and reruns, places a content whose hash is on record, if and only
      if no two slots' cards hold kept files with one hash. */
  lemma NeverPlacedAgainIff(cfg: Config, holds: Slot -> iset<Bytes>, s: System)
    requires Initial(s)
    ensures (forall run, t :: PlacesOnce(cfg, holds, s, run, t)) <==>
      forall one, two, b, c :: !Shared(cfg, holds, one, two, b, c)
  {
    hide Holds, Shared, Initial;
    if one, two, b, c :| Shared(cfg, holds, one, two, b, c) {
      var run, t := TwoSlotsMayPlaceTwice(cfg, holds, s, one, two, "A", b, Place("", "A"), "B", c, Place("", "B"));
      SharedHash(cfg, holds, one, two, b, c);
      assert PlacedAgain(cfg, t.log, 1, 2);
      assert !PlacesOnce(cfg, holds, s, run, t);
    } else {
      forall run, t ensures PlacesOnce(cfg, holds, s, run, t) {
        if Holds(cfg, holds, s, run, t) {
          forall m, k ensures !PlacedAgain(cfg, t.log, m, k) {
            if PlacedAgain(cfg, t.log, m, k) {
              var one, two, b, c := PlacedAgainIsShared(cfg, holds, s, run, t, m, k);
            }
          }
        }
      }
    }
  }

  lemma SharedHash(cfg: Config, holds: Slot -> iset<Bytes>, one: Slot, two: Slot, b: Bytes, c: Bytes)
    requires Shared(cfg, holds, one, two, b, c)
    ensures cfg.hash(b) == cfg.hash(c)
  {
  }
}
