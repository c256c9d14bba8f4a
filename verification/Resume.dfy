/** Interrupting an ingest and running it again. A single slot ingests one card; the process may die,
    or the ingest may abort, between any two steps and any number of times. */
module Resume {
  import opened Domain
  import opened Protocol
  import opened ProtocolSafety

  /** A card together with the decisions rules, categories and dates make about it: lands maps each
      path that is kept and can be copied to its final place; a path outside it is skipped, or fails whenever
      it is tried. */
  datatype Card = Card(scan: seq<string>, files: map<string, Bytes>, lands: map<string, Place>)

  ghost predicate CardOk(card: Card) {
    WholeScan(card.scan, card.files) && card.lands.Keys <= card.files.Keys
  }

  /** The part of the state that outlives the process, temp files aside. */
  datatype Store = Store(finals: map<Place, Bytes>, index: set<Hash>)

  function StoreOf(s: System): Store { Store(s.finals, s.index) }

  // ---------- the uninterrupted ingest, as a function ----------

  ghost function LandFile(cfg: Config, card: Card, st: Store, path: string): Store
    requires CardOk(card)
  {
    if path !in card.lands || cfg.hash(card.files[path]) in st.index then st
    else Store(st.finals[card.lands[path] := card.files[path]], st.index + {cfg.hash(card.files[path])})
  }

  ghost function LandAll(cfg: Config, card: Card, st: Store, paths: seq<string>): Store
    requires CardOk(card)
    decreases |paths|
  {
    if paths == [] then st else LandAll(cfg, card, LandFile(cfg, card, st, paths[0]), paths[1..])
  }

  lemma {:induction false} LandSnoc(cfg: Config, card: Card, st: Store, paths: seq<string>, p: string)
    requires CardOk(card)
    ensures LandAll(cfg, card, st, paths + [p]) == LandFile(cfg, card, LandAll(cfg, card, st, paths), p)
    decreases |paths|
  {
    if paths == [] {
      assert (paths + [p])[1..] == [];
    } else {
      assert (paths + [p])[1..] == paths[1..] + [p];
      LandSnoc(cfg, card, LandFile(cfg, card, st, paths[0]), paths[1..], p);
    }
  }

  /** Every kept file below k is already in the index. */
  ghost predicate Known(cfg: Config, card: Card, index: set<Hash>, k: nat)
    requires CardOk(card) && k <= |card.scan|
  {
    forall i :: 0 <= i < k && card.scan[i] in card.lands ==> cfg.hash(card.files[card.scan[i]]) in index
  }

  lemma {:induction false} KnownPrefixIsIdle(cfg: Config, card: Card, st: Store, i: nat, k: nat)
    requires CardOk(card) && i <= k <= |card.scan| && Known(cfg, card, st.index, k)
    ensures LandAll(cfg, card, st, card.scan[i..]) == LandAll(cfg, card, st, card.scan[k..])
    decreases k - i
  {
    if i < k {
      assert card.scan[i..][0] == card.scan[i] && card.scan[i..][1..] == card.scan[i + 1..];
      KnownPrefixIsIdle(cfg, card, st, i + 1, k);
    }
  }

  /** From a store that knows the files below k, landing the card starts with file k. */
  lemma {:induction false} LandFromKnown(cfg: Config, card: Card, st: Store, k: nat)
    requires CardOk(card) && k < |card.scan| && Known(cfg, card, st.index, k)
    ensures LandAll(cfg, card, st, card.scan) ==
            LandAll(cfg, card, LandFile(cfg, card, st, card.scan[k]), card.scan[k + 1..])
  {
    assert card.scan[0..] == card.scan;
    KnownPrefixIsIdle(cfg, card, st, 0, k);
    assert card.scan[k..][0] == card.scan[k] && card.scan[k..][1..] == card.scan[k + 1..];
  }

  // ---------- steady runs ----------

  /** One slot, one card, fixed decisions, the same files failing at every attempt, and no hash collision
      between the bytes sent and the bytes landed. A file fails because it cannot be opened or copied, or
      because what landed reads back different. Fatal errors, cancellation and crashes are all allowed. */
  ghost predicate Steady(cfg: Config, card: Card, slot: Slot, s: System, a: Action)
    requires CardOk(card) && Enabled(cfg, s, a)
  {
    match a
    case Crash => true
    case Insert(sl, scan, files) => sl == slot && scan == card.scan && files == card.files
    case Do(sl, move) =>
      && sl == slot
      && var w := s.workers[slot];
         |w.done| < |w.scan| ==>
           var path := w.scan[|w.done|];
           match move
           case Skip => path !in card.lands
           case GiveUp(_) => path !in card.lands
           case Stream(landed) =>
             if path in card.lands
             then cfg.hash(landed) == cfg.hash(w.files[path]) ==> landed == w.files[path]
             else cfg.hash(landed) != cfg.hash(w.files[path]) && cfg.hash(w.files[path]) !in s.index
           case ReadBack(_) => path in card.lands ==> cfg.hash(s.temps[TempName(slot, w.pc.n)]) == w.pc.hash
           case Rename(at) => path in card.lands && at == card.lands[path]
           case _ => true
  }

  ghost predicate SteadyRun(cfg: Config, card: Card, slot: Slot, s: System, run: seq<Action>)
    requires CardOk(card)
  {
    run == [] ||
    var k := |run| - 1;
    && SteadyRun(cfg, card, slot, s, run[..k])
    && After(cfg, s, run[..k]).Some?
    && Enabled(cfg, After(cfg, s, run[..k]).value, run[k])
    && Steady(cfg, card, slot, After(cfg, s, run[..k]).value, run[k])
  }

  // ---------- what every step of a steady run keeps ----------

  /** The outcome list says verified for what lands, and Skipped or Failed for what does not. */
  ghost predicate Faithful(card: Card, done: seq<Outcome>)
    requires |done| <= |card.scan|
  {
    forall i :: 0 <= i < |done| ==> (done[i] in VERIFIED <==> card.scan[i] in card.lands)
  }

  ghost predicate ListOnCourse(cfg: Config, card: Card, index: set<Hash>, w: Worker)
    requires CardOk(card)
  {
    && w.scan == card.scan && w.files == card.files
    && |w.done| <= |card.scan|
    && Faithful(card, w.done)
    && Known(cfg, card, index, |w.done|)
    && (w.pc.Ingested? || w.pc.Erasing? ==> |w.done| == |card.scan|)
    && (w.InFlight() || w.pc.Landed? ==> |w.done| < |card.scan|)
    && (w.pc.Matched? || w.pc.Landed? ==> card.scan[|w.done|] in card.lands)
  }

  ghost predicate OnCourse(cfg: Config, card: Card, slot: Slot, s: System, w: Worker)
    requires CardOk(card)
  {
    && ListOnCourse(cfg, card, s.index, w)
    && (w.InFlight() || w.pc.Landed? ==>
          var path := card.scan[|w.done|];
          if path in card.lands then CopyOnCourse(cfg, s, slot, w, card.files[path], card.lands[path])
          else CopyFails(cfg, s, slot, w, card.files[path]))
  }

  /** The copy of a file that fails: should it get as far as the read-back, it reads back different. */
  ghost predicate CopyFails(cfg: Config, s: System, slot: Slot, w: Worker, bytes: Bytes) {
    w.pc.Streamed? || w.pc.Unseen? ==>
      && w.pc.hash == cfg.hash(bytes) && w.pc.hash !in s.index
      && TempName(slot, w.pc.n) in s.temps && cfg.hash(s.temps[TempName(slot, w.pc.n)]) != w.pc.hash
  }

  ghost predicate CopyOnCourse(cfg: Config, s: System, slot: Slot, w: Worker, bytes: Bytes, at: Place) {
    && (!w.pc.Allocated? && !w.pc.Landed? && w.InFlight() ==>
          && w.pc.hash == cfg.hash(bytes)
          && var temp := TempName(slot, w.pc.n);
             temp in s.temps && (w.pc.Matched? || cfg.hash(s.temps[temp]) == cfg.hash(bytes) ==>
                                 s.temps[temp] == bytes))
    && (w.pc.Unseen? || w.pc.Matched? ==> w.pc.hash !in s.index)
    && (w.pc.Landed? ==> w.pc.hash == cfg.hash(bytes) && at in s.finals && s.finals[at] == bytes)
  }

  /** Ingesting the card from here would end where ingesting it from the start would have ended. */
  ghost predicate Resumable(cfg: Config, card: Card, slot: Slot, goal: Store, s: System)
    requires CardOk(card)
  {
    && s.workers.Keys <= {slot}
    && LandAll(cfg, card, StoreOf(s), card.scan) == goal
    && (slot in s.workers ==> OnCourse(cfg, card, slot, s, s.workers[slot]))
  }

  lemma {:induction false} RenameKeepsGoal(cfg: Config, card: Card, s: System, k: nat)
    requires CardOk(card) && k < |card.scan| && Known(cfg, card, s.index, k) && card.scan[k] in card.lands
    requires cfg.hash(card.files[card.scan[k]]) !in s.index
    ensures var path := card.scan[k];
      LandAll(cfg, card, Store(s.finals[card.lands[path] := card.files[path]], s.index), card.scan) ==
      LandAll(cfg, card, StoreOf(s), card.scan)
  {
    var path := card.scan[k];
    var st := Store(s.finals[card.lands[path] := card.files[path]], s.index);
    LandFromKnown(cfg, card, StoreOf(s), k);
    LandFromKnown(cfg, card, st, k);
    assert LandFile(cfg, card, st, path) == LandFile(cfg, card, StoreOf(s), path);
  }

  lemma {:induction false} RecordKeepsGoal(cfg: Config, card: Card, s: System, k: nat)
    requires CardOk(card) && k < |card.scan| && Known(cfg, card, s.index, k) && card.scan[k] in card.lands
    requires card.lands[card.scan[k]] in s.finals && s.finals[card.lands[card.scan[k]]] == card.files[card.scan[k]]
    ensures LandAll(cfg, card, Store(s.finals, s.index + {cfg.hash(card.files[card.scan[k]])}), card.scan) ==
            LandAll(cfg, card, StoreOf(s), card.scan)
  {
    var path := card.scan[k];
    var st := Store(s.finals, s.index + {cfg.hash(card.files[path])});
    LandFromKnown(cfg, card, StoreOf(s), k);
    LandFromKnown(cfg, card, st, k);
    assert LandFile(cfg, card, StoreOf(s), path) == st by {
      assert s.finals[card.lands[path] := card.files[path]] == s.finals;
      if cfg.hash(card.files[path]) in s.index { assert st.index == s.index; }
    }
  }

  lemma {:induction false} StepKeepsGoal(cfg: Config, card: Card, slot: Slot, goal: Store, s: System, a: Action)
    requires CardOk(card) && Resumable(cfg, card, slot, goal, s) && Enabled(cfg, s, a) && Steady(cfg, card, slot, s, a)
    ensures LandAll(cfg, card, StoreOf(Step(cfg, s, a)), card.scan) == goal
  {
    if a.Do? {
      var w := s.workers[slot];
      var e := Effect(cfg, s, slot, w, a.move);
      if e.Some? && e.value.Placed? { RenameKeepsGoal(cfg, card, s, |w.done|); }
      if e.Some? && e.value.Indexed? { RecordKeepsGoal(cfg, card, s, |w.done|); }
    }
  }

  lemma MoveKeepsList(cfg: Config, card: Card, slot: Slot, s: System, w: Worker, move: Move, w': Worker,
                      index: set<Hash>)
    requires CardOk(card) && slot in s.workers && s.workers[slot] == w && OnCourse(cfg, card, slot, s, w)
    requires CanMove(cfg, s, slot, w, move) && Steady(cfg, card, slot, s, Do(slot, move))
    requires Moved(cfg, s, slot, w, move) == Some(w')
    requires s.index <= index && (move.Record? ==> w.pc.hash in index)
    ensures ListOnCourse(cfg, card, index, w')
  {
    hide TempName, Plan, WholeScan;
  }

  lemma MoveKeepsCopy(cfg: Config, card: Card, slot: Slot, s: System, w: Worker, move: Move, w': Worker, t: System)
    requires CardOk(card) && slot in s.workers && s.workers[slot] == w && OnCourse(cfg, card, slot, s, w)
    requires CanMove(cfg, s, slot, w, move) && Steady(cfg, card, slot, s, Do(slot, move))
    requires Moved(cfg, s, slot, w, move) == Some(w') && ListOnCourse(cfg, card, t.index, w')
    requires t == Step(cfg, s, Do(slot, move))
    ensures OnCourse(cfg, card, slot, t, w')
  {
    hide Known, Faithful, WholeScan, TempName, Plan;
    assert t.temps == TempsAfter(cfg, s, slot, w, move);
    if w'.InFlight() {
      assert w'.done == w.done && t.index == s.index;
    }
  }

  lemma StepKeepsCourse(cfg: Config, card: Card, slot: Slot, s: System, move: Move)
    requires CardOk(card) && slot in s.workers && OnCourse(cfg, card, slot, s, s.workers[slot])
    requires CanMove(cfg, s, slot, s.workers[slot], move) && Steady(cfg, card, slot, s, Do(slot, move))
    ensures var t := Step(cfg, s, Do(slot, move));
      t.workers.Keys <= s.workers.Keys && (slot in t.workers ==> OnCourse(cfg, card, slot, t, t.workers[slot]))
  {
    var t := Step(cfg, s, Do(slot, move));
    if slot in t.workers {
      MoveKeepsList(cfg, card, slot, s, s.workers[slot], move, t.workers[slot], t.index);
      MoveKeepsCopy(cfg, card, slot, s, s.workers[slot], move, t.workers[slot], t);
    }
  }

  lemma StepKeepsResumable(cfg: Config, card: Card, slot: Slot, goal: Store, s: System, a: Action)
    requires CardOk(card) && Resumable(cfg, card, slot, goal, s) && Enabled(cfg, s, a) && Steady(cfg, card, slot, s, a)
    ensures Resumable(cfg, card, slot, goal, Step(cfg, s, a))
  {
    StepKeepsGoal(cfg, card, slot, goal, s, a);
    if a.Do? { StepKeepsCourse(cfg, card, slot, s, a.move); }
  }

  lemma {:induction false} RunKeepsResumable(cfg: Config, card: Card, slot: Slot, s: System, run: seq<Action>)
    requires CardOk(card) && s.workers == map[] && SteadyRun(cfg, card, slot, s, run)
    ensures After(cfg, s, run).Some?
    ensures Resumable(cfg, card, slot, LandAll(cfg, card, StoreOf(s), card.scan), After(cfg, s, run).value)
  {
    if run != [] {
      var k := |run| - 1;
      RunKeepsResumable(cfg, card, slot, s, run[..k]);
      StepKeepsResumable(cfg, card, slot, LandAll(cfg, card, StoreOf(s), card.scan), After(cfg, s, run[..k]).value,
                         run[k]);
    }
  }

  // ---------- the theorems ----------

  /** A steady run that leads to this state. */
  ghost predicate Leads(cfg: Config, card: Card, slot: Slot, s: System, run: seq<Action>, t: System)
    requires CardOk(card)
  {
    SteadyRun(cfg, card, slot, s, run) && After(cfg, s, run) == Some(t)
  }

  lemma {:induction false} LeadsNone(cfg: Config, card: Card, slot: Slot, s: System)
    requires CardOk(card)
    ensures Leads(cfg, card, slot, s, [], s)
  {
  }

  /** A steady run from a state without workers. */
  ghost predicate Runs(cfg: Config, card: Card, slot: Slot, s: System, run: seq<Action>, t: System)
    requires CardOk(card)
  {
    s.workers == map[] && Leads(cfg, card, slot, s, run, t)
  }

  /** Such a run that leads to a completed ingest of the card. */
  ghost predicate Completes(cfg: Config, card: Card, slot: Slot, s: System, run: seq<Action>, t: System)
    requires CardOk(card)
  {
    Runs(cfg, card, slot, s, run, t) && slot in t.workers && t.workers[slot].pc.Ingested?
  }

  /** Two steady runs over the same card that both complete the ingest agree on the final area, the
      index and the verified list, however often either was aborted, crashed or rerun on the way, with the
      same files failing every time they are tried, and even when final names clobber each other. */
  lemma {:induction false} ResumeEqualsUninterrupted(cfg: Config, card: Card, slot: Slot, s: System,
                                  run1: seq<Action>, t1: System, run2: seq<Action>, t2: System)
    requires CardOk(card) && Completes(cfg, card, slot, s, run1, t1) && Completes(cfg, card, slot, s, run2, t2)
    ensures t1.finals == t2.finals && t1.index == t2.index
    ensures slot in t1.workers && slot in t2.workers
    ensures |t1.workers[slot].done| <= |t1.workers[slot].scan| && |t2.workers[slot].done| <= |t2.workers[slot].scan|
    ensures Verified(t1.workers[slot]) == Verified(t2.workers[slot])
    ensures StoreOf(t1) == LandAll(cfg, card, StoreOf(s), card.scan)
  {
    CompletedIsLanded(cfg, card, slot, s, run1, t1);
    CompletedIsLanded(cfg, card, slot, s, run2, t2);
    PickSame(card.scan, t1.workers[slot].done, VERIFIED, t2.workers[slot].done, VERIFIED);
  }

  lemma {:induction false} CompletedIsLanded(cfg: Config, card: Card, slot: Slot, s: System, run: seq<Action>,
                                             t: System)
    requires CardOk(card) && Completes(cfg, card, slot, s, run, t)
    ensures StoreOf(t) == LandAll(cfg, card, StoreOf(s), card.scan)
    ensures slot in t.workers && t.workers[slot].scan == card.scan && t.workers[slot].files == card.files
    ensures |t.workers[slot].done| == |card.scan| && Faithful(card, t.workers[slot].done)
  {
    RunKeepsResumable(cfg, card, slot, s, run);
    assert card.scan[0..] == card.scan && card.scan[|card.scan|..] == [];
    KnownPrefixIsIdle(cfg, card, StoreOf(t), 0, |card.scan|);
  }

  // ---------- the ingest can always be completed ----------

  lemma RunOne(cfg: Config, card: Card, slot: Slot, s: System, run: seq<Action>, t: System, a: Action)
    requires CardOk(card) && Leads(cfg, card, slot, s, run, t) && Enabled(cfg, t, a) && Steady(cfg, card, slot, t, a)
    ensures Leads(cfg, card, slot, s, run + [a], Step(cfg, t, a))
  {
    hide Enabled, Steady, Step;
    assert (run + [a])[..|run|] == run;
    AfterSnoc(cfg, s, run, a);
  }

  /** The slot's worker has dealt with the first n files of the card and is between files. */
  ghost predicate Between(card: Card, slot: Slot, t: System, n: nat) {
    slot in t.workers && var w := t.workers[slot];
      w.scan == card.scan && w.files == card.files && |w.done| == n && w.pc.Ready?
  }

  /** The next file, when it is kept: copied into a temp file, and looked up. */
  lemma StreamOne(cfg: Config, card: Card, slot: Slot, s: System, run: seq<Action>, t: System, n: nat)
    returns (run': seq<Action>, t': System)
    requires CardOk(card) && Leads(cfg, card, slot, s, run, t) && Between(card, slot, t, n)
    requires n < |card.scan| && card.scan[n] in card.lands
    ensures Leads(cfg, card, slot, s, run', t') && slot in t'.workers && StoreOf(t') == StoreOf(t)
    ensures t'.workers.Keys == t.workers.Keys
    ensures var w, bytes := t'.workers[slot], card.files[card.scan[n]];
      if cfg.hash(bytes) in t.index then Between(card, slot, t', n + 1) && w.done == t.workers[slot].done + [Deduped]
      else
        && w.done == t.workers[slot].done && w.scan == card.scan && w.files == card.files && |w.done| == n
        && w.pc.Unseen? && w.pc.hash == cfg.hash(bytes)
        && TempName(slot, w.pc.n) in t'.temps && t'.temps[TempName(slot, w.pc.n)] == bytes
  {
    hide TempName, Plan, Leads;
    var bytes := card.files[card.scan[n]];
    RunOne(cfg, card, slot, s, run, t, Do(slot, Allocate));
    var t1, r1 := Step(cfg, t, Do(slot, Allocate)), run + [Do(slot, Allocate)];
    RunOne(cfg, card, slot, s, r1, t1, Do(slot, Stream(bytes)));
    var t2, r2 := Step(cfg, t1, Do(slot, Stream(bytes))), r1 + [Do(slot, Stream(bytes))];
    RunOne(cfg, card, slot, s, r2, t2, Do(slot, Lookup(false)));
    run', t' := r2 + [Do(slot, Lookup(false))], Step(cfg, t2, Do(slot, Lookup(false)));
  }

  /** Then read back, renamed into place and recorded. */
  lemma PlaceOne(cfg: Config, card: Card, slot: Slot, s: System, run: seq<Action>, t: System, n: nat)
    returns (run': seq<Action>, t': System)
    requires CardOk(card) && Leads(cfg, card, slot, s, run, t) && slot in t.workers
    requires n < |card.scan| && card.scan[n] in card.lands && cfg.hash(card.files[card.scan[n]]) !in t.index
    requires var w, bytes := t.workers[slot], card.files[card.scan[n]];
      w.scan == card.scan && w.files == card.files && |w.done| == n && w.pc.Unseen? && w.pc.hash == cfg.hash(bytes)
      && TempName(slot, w.pc.n) in t.temps && t.temps[TempName(slot, w.pc.n)] == bytes
    ensures Leads(cfg, card, slot, s, run', t') && Between(card, slot, t', n + 1) && t'.workers.Keys == t.workers.Keys
    ensures StoreOf(t') == LandFile(cfg, card, StoreOf(t), card.scan[n])
    ensures t'.workers[slot].done == t.workers[slot].done + [Copied]
  {
    hide TempName, Plan, Leads;
    var at := card.lands[card.scan[n]];
    RunOne(cfg, card, slot, s, run, t, Do(slot, ReadBack(false)));
    var t1, r1 := Step(cfg, t, Do(slot, ReadBack(false))), run + [Do(slot, ReadBack(false))];
    RunOne(cfg, card, slot, s, r1, t1, Do(slot, Rename(at)));
    var t2, r2 := Step(cfg, t1, Do(slot, Rename(at))), r1 + [Do(slot, Rename(at))];
    RunOne(cfg, card, slot, s, r2, t2, Do(slot, Record));
    run', t' := r2 + [Do(slot, Record)], Step(cfg, t2, Do(slot, Record));
  }

  /** A file dealt with whole: skipped, deduplicated, or landed. */
  lemma HandleOne(cfg: Config, card: Card, slot: Slot, s: System, run: seq<Action>, t: System, n: nat)
    returns (run': seq<Action>, t': System, o: Outcome)
    requires CardOk(card) && Leads(cfg, card, slot, s, run, t) && Between(card, slot, t, n) && n < |card.scan|
    ensures Leads(cfg, card, slot, s, run', t') && Between(card, slot, t', n + 1) && t'.workers.Keys == t.workers.Keys
    ensures StoreOf(t') == LandFile(cfg, card, StoreOf(t), card.scan[n])
    ensures o != Failed && t'.workers[slot].done == t.workers[slot].done + [o]
  {
    hide Leads;
    if card.scan[n] in card.lands {
      run', t' := StreamOne(cfg, card, slot, s, run, t, n);
      o := Deduped;
      if cfg.hash(card.files[card.scan[n]]) !in t.index {
        run', t' := PlaceOne(cfg, card, slot, s, run', t', n);
        o := Copied;
      }
    } else {
      RunOne(cfg, card, slot, s, run, t, Do(slot, Move.Skip));
      run', t', o := run + [Do(slot, Move.Skip)], Step(cfg, t, Do(slot, Move.Skip)), Skipped;
    }
  }

  lemma {:induction false} HandleAll(cfg: Config, card: Card, slot: Slot, s: System, run: seq<Action>, t: System,
                                     n: nat)
    returns (run': seq<Action>, t': System)
    requires CardOk(card) && Leads(cfg, card, slot, s, run, t) && Between(card, slot, t, n) && n <= |card.scan|
    ensures Leads(cfg, card, slot, s, run', t') && Between(card, slot, t', |card.scan|)
    decreases |card.scan| - n
  {
    run', t' := run, t;
    if n < |card.scan| {
      hide Leads;
      var o;
      run', t', o := HandleOne(cfg, card, slot, s, run, t, n);
      run', t' := HandleAll(cfg, card, slot, s, run', t', n + 1);
    }
  }

  /** Whatever earlier runs left on the disks, there is a steady run that ingests the whole card. */
  lemma IngestCanComplete(cfg: Config, card: Card, slot: Slot, s: System) returns (run: seq<Action>, t: System)
    requires CardOk(card) && s.workers == map[]
    ensures Completes(cfg, card, slot, s, run, t)
  {
    var insert := Insert(slot, card.scan, card.files);
    hide Leads;
    LeadsNone(cfg, card, slot, s);
    RunOne(cfg, card, slot, s, [], s, insert);
    run, t := HandleAll(cfg, card, slot, s, [] + [insert], Step(cfg, s, insert), 0);
    RunOne(cfg, card, slot, s, run, t, Do(slot, Finish));
    run, t := run + [Do(slot, Finish)], Step(cfg, t, Do(slot, Finish));
  }
}
