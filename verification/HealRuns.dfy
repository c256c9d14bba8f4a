/** Runs of the step machine in which a worker gives up single files, and the reruns after them. */
module HealRuns {
  import opened Domain
  import opened Protocol
  import opened ProtocolSafety
  import opened Resume
  import opened Heal

  /** Exactly the kept files of fails are reported as failed. */
  ghost predicate FailedAre(card: Card, fails: set<string>, done: seq<Outcome>)
    requires |done| <= |card.scan|
  {
    forall i :: 0 <= i < |done| ==> (done[i] == Failed <==> card.scan[i] in card.lands && card.scan[i] in fails)
  }

  // ---------- the card without its failing files ----------

  /** The card when the files of fails fail at every attempt. */
  function Except(card: Card, fails: set<string>): (rest: Card)
    ensures CardOk(card) ==> CardOk(rest)
  {
    card.(lands := card.lands - fails)
  }

  lemma {:induction false} LandExcept(cfg: Config, card: Card, st: Store, fails: set<string>, paths: seq<string>)
    requires CardOk(card)
    ensures LandAll(cfg, Except(card, fails), st, paths) == LandAll(cfg, card, st, Among(paths, fails, false))
  {
    if paths != [] {
      hide LandAll, Among;
      var n := |paths| - 1;
      LandExcept(cfg, card, st, fails, paths[..n]);
      LandLast(cfg, Except(card, fails), st, paths);
      assert paths[..n + 1] == paths;
      AmongNext(paths, n, fails, false);
      if paths[n] !in fails { LandSnoc(cfg, card, st, Among(paths[..n], fails, false), paths[n]); }
    }
  }

  // ---------- every such run ----------

  /** A steady run that completed an ingest of the card at some point. */
  ghost predicate Passes(cfg: Config, card: Card, slot: Slot, s: System, run: seq<Action>, t: System)
    requires CardOk(card)
  {
    Runs(cfg, card, slot, s, run, t) && exists k :: 0 <= k <= |run| && IngestedAt(cfg, slot, s, run, k)
  }

  ghost predicate IngestedAt(cfg: Config, slot: Slot, s: System, run: seq<Action>, k: int) {
    && 0 <= k <= |run| && After(cfg, s, run[..k]).Some?
    && var mid := After(cfg, s, run[..k]).value;
    && slot in mid.workers && mid.workers[slot].pc.Ingested?
  }

  lemma {:induction false} SteadyPrefix(cfg: Config, card: Card, slot: Slot, s: System, run: seq<Action>, k: nat)
    requires CardOk(card) && SteadyRun(cfg, card, slot, s, run) && k <= |run|
    ensures SteadyRun(cfg, card, slot, s, run[..k])
  {
    if k == |run| {
      assert run[..k] == run;
    } else {
      SteadyPrefix(cfg, card, slot, s, run[..|run| - 1], k);
      assert run[..|run| - 1][..k] == run[..k];
    }
  }

  /** From a completed ingest on, the disks are those of the uninterrupted one. */
  lemma {:induction false} PassedIsLanded(cfg: Config, card: Card, slot: Slot, s: System, run: seq<Action>, t: System)
    requires CardOk(card) && Passes(cfg, card, slot, s, run, t)
    ensures StoreOf(t) == LandAll(cfg, card, StoreOf(s), card.scan)
  {
    hide LandAll, Steady;
    var k :| 0 <= k <= |run| && IngestedAt(cfg, slot, s, run, k);
    SteadyPrefix(cfg, card, slot, s, run, k);
    RunKeepsResumable(cfg, card, slot, s, run[..k]);
    RunKeepsResumable(cfg, card, slot, s, run);
    RunGrows(cfg, s, run, k);
    assert Known(cfg, card, t.index, |card.scan|);
    KnownIsIdle(cfg, card, StoreOf(t));
  }

  lemma {:induction false} KnownIsIdle(cfg: Config, card: Card, st: Store)
    requires CardOk(card) && Known(cfg, card, st.index, |card.scan|)
    ensures LandAll(cfg, card, st, card.scan) == st
  {
    assert card.scan[0..] == card.scan && card.scan[|card.scan|..] == [];
    KnownPrefixIsIdle(cfg, card, st, 0, |card.scan|);
  }

  /** Every ingest of a card in which exactly the files of fails fail, through whatever aborts and crashes,
      followed by every rerun of it without such failures: the two end where every ingest without such failures
      ends, if and only if they place the same last files. */
  lemma {:induction false} EveryRerunHealsIff(cfg: Config, card: Card, slot: Slot, s: System, fails: set<string>,
                                              broken: seq<Action>, idle: System, rerun: seq<Action>, t: System,
                                              clean: seq<Action>, t0: System)
    requires CardOk(card) && Passes(cfg, Except(card, fails), slot, s, broken, idle)
    requires Passes(cfg, card, slot, idle, rerun, t) && Passes(cfg, card, slot, s, clean, t0)
    ensures t.finals == t0.finals && t.index == t0.index <==> SamePlacements(cfg, card, StoreOf(s), fails)
    ensures StoreOf(t) == AfterRerun(cfg, card, StoreOf(s), fails)
    ensures StoreOf(t0) == LandAll(cfg, card, StoreOf(s), card.scan)
  {
    hide Passes, SamePlacements, LandAll;
    PassedIsLanded(cfg, Except(card, fails), slot, s, broken, idle);
    LandExcept(cfg, card, StoreOf(s), fails, card.scan);
    PassedIsLanded(cfg, card, slot, idle, rerun, t);
    PassedIsLanded(cfg, card, slot, s, clean, t0);
    RerunHealsIff(cfg, card, StoreOf(s), fails);
  }

  // ---------- there are such runs ----------

  /** The next file, when it cannot be copied. */
  lemma GiveUpOne(cfg: Config, card: Card, slot: Slot, s: System, run: seq<Action>, t: System, n: nat)
    returns (run': seq<Action>, t': System)
    requires CardOk(card) && Leads(cfg, card, slot, s, run, t) && Between(card, slot, t, n)
    requires n < |card.scan| && card.scan[n] !in card.lands
    ensures Leads(cfg, card, slot, s, run', t') && Between(card, slot, t', n + 1) && t'.workers.Keys == t.workers.Keys
    ensures t'.workers[slot].done == t.workers[slot].done + [Failed]
  {
    hide TempName, Plan, Leads;
    var first, second := Do(slot, Allocate), Do(slot, GiveUp(true));
    RunOne(cfg, card, slot, s, run, t, first);
    RunOne(cfg, card, slot, s, run + [first], Step(cfg, t, first), second);
    run', t' := run + [first] + [second], Step(cfg, Step(cfg, t, first), second);
  }

  /** From file n on, giving up the kept files of fails and handling the others. */
  lemma {:induction false} BrokenFrom(cfg: Config, card: Card, slot: Slot, s: System, fails: set<string>,
                                      run: seq<Action>, t: System, n: nat)
    returns (run': seq<Action>, t': System)
    requires CardOk(card) && n <= |card.scan| && Leads(cfg, Except(card, fails), slot, s, run, t)
    requires Between(card, slot, t, n) && FailedAre(card, fails, t.workers[slot].done)
    ensures Leads(cfg, Except(card, fails), slot, s, run', t') && Between(card, slot, t', |card.scan|)
    ensures FailedAre(card, fails, t'.workers[slot].done) && t'.workers.Keys == t.workers.Keys
    decreases |card.scan| - n
  {
    hide Leads;
    run', t' := run, t;
    if n < |card.scan| {
      var rest := Except(card, fails);
      if card.scan[n] in card.lands && card.scan[n] in fails {
        run', t' := GiveUpOne(cfg, rest, slot, s, run, t, n);
      } else {
        var o;
        run', t', o := HandleOne(cfg, rest, slot, s, run, t, n);
      }
      run', t' := BrokenFrom(cfg, card, slot, s, fails, run', t', n + 1);
    }
  }

  /** The run ends with the slot's worker leaving an ingest of the whole card, in which exactly the kept files
      of fails failed. */
  ghost predicate GivesUp(cfg: Config, card: Card, slot: Slot, s: System, run: seq<Action>, t: System,
                          fails: set<string>)
  {
    && run != [] && run[|run| - 1] == Do(slot, Leave) && After(cfg, s, run) == Some(t)
    && After(cfg, s, run[..|run| - 1]).Some?
    && var done := After(cfg, s, run[..|run| - 1]).value;
    && slot in done.workers && done.workers[slot].pc.Ingested?
    && done.workers[slot].scan == card.scan && done.workers[slot].files == card.files
    && |done.workers[slot].done| == |card.scan| && FailedAre(card, fails, done.workers[slot].done)
  }

  lemma FailedNone(card: Card, fails: set<string>)
    ensures FailedAre(card, fails, [])
  {
  }

  lemma GivesUpPasses(cfg: Config, card: Card, slot: Slot, s: System, fails: set<string>)
    returns (run: seq<Action>, idle: System)
    requires CardOk(card) && s.workers == map[]
    ensures GivesUp(cfg, card, slot, s, run, idle, fails) && Passes(cfg, Except(card, fails), slot, s, run, idle)
    ensures idle.workers == map[]
  {
    hide Leads, After, TempName, Plan, FailedAre;
    var rest, insert := Except(card, fails), Insert(slot, card.scan, card.files);
    var finish, leave := Do(slot, Finish), Do(slot, Leave);
    FailedNone(card, fails);
    LeadsNone(cfg, rest, slot, s);
    RunOne(cfg, rest, slot, s, [], s, insert);
    var before, t;
    before, t := BrokenFrom(cfg, card, slot, s, fails, [] + [insert], Step(cfg, s, insert), 0);
    RunOne(cfg, rest, slot, s, before, t, finish);
    var done, t1 := before + [finish], Step(cfg, t, finish);
    RunOne(cfg, rest, slot, s, done, t1, leave);
    run, idle := done + [leave], Step(cfg, t1, leave);
    assert run[..|run| - 1] == done;
    LeadsAfter(cfg, rest, slot, s, done, t1);
    LeadsAfter(cfg, rest, slot, s, run, idle);
    assert IngestedAt(cfg, slot, s, run, |done|);
    assert idle.workers.Keys == {};
  }

  lemma {:induction false} LeadsAfter(cfg: Config, card: Card, slot: Slot, s: System, run: seq<Action>, t: System)
    requires CardOk(card) && Leads(cfg, card, slot, s, run, t)
    ensures After(cfg, s, run) == Some(t)
  {
  }

  lemma CompletesPasses(cfg: Config, card: Card, slot: Slot, s: System, run: seq<Action>, t: System)
    requires CardOk(card) && Completes(cfg, card, slot, s, run, t)
    ensures Passes(cfg, card, slot, s, run, t)
  {
    assert run[..|run|] == run;
    assert IngestedAt(cfg, slot, s, run, |run|);
  }

  /** There are such runs for any card and any files: one in which exactly the kept files of fails are reported
      as failed, one that reruns it, and one that never fails. */
  lemma GivenUpFilesHealIff(cfg: Config, card: Card, slot: Slot, s: System, fails: set<string>)
    returns (broken: seq<Action>, idle: System, rerun: seq<Action>, t: System, clean: seq<Action>, t0: System)
    requires CardOk(card) && s.workers == map[]
    ensures GivesUp(cfg, card, slot, s, broken, idle, fails) && Passes(cfg, Except(card, fails), slot, s, broken, idle)
    ensures Completes(cfg, card, slot, idle, rerun, t) && Completes(cfg, card, slot, s, clean, t0)
    ensures StoreOf(t) == AfterRerun(cfg, card, StoreOf(s), fails)
    ensures StoreOf(t0) == LandAll(cfg, card, StoreOf(s), card.scan)
    ensures t.finals == t0.finals && t.index == t0.index <==> SamePlacements(cfg, card, StoreOf(s), fails)
  {
    hide Passes, GivesUp, Completes, SamePlacements, AfterRerun, LandAll;
    broken, idle := GivesUpPasses(cfg, card, slot, s, fails);
    rerun, t := IngestCanComplete(cfg, card, slot, idle);
    clean, t0 := IngestCanComplete(cfg, card, slot, s);
    CompletesPasses(cfg, card, slot, idle, rerun, t);
    CompletesPasses(cfg, card, slot, s, clean, t0);
    EveryRerunHealsIff(cfg, card, slot, s, fails, broken, idle, rerun, t, clean, t0);
  }

  /** The concrete case: two files share a place, the first is given up once, and after the rerun its bytes
      have replaced those a clean ingest leaves there. */
  lemma RerunAfterFileFailureMayDiffer(cfg: Config, card: Card, slot: Slot, s: System, at: Place)
    returns (broken: seq<Action>, idle: System, rerun: seq<Action>, t: System, clean: seq<Action>, t0: System)
    requires card.scan == ["DCIM/100/A.JPG", "DCIM/101/A.JPG"]
    requires card.files == map["DCIM/100/A.JPG" := [1], "DCIM/101/A.JPG" := [2]]
    requires card.lands == map["DCIM/100/A.JPG" := at, "DCIM/101/A.JPG" := at] && cfg.hash([1]) != cfg.hash([2])
    requires s.workers == map[] && s.finals == map[] && s.index == {}
    ensures CardOk(card) && GivesUp(cfg, card, slot, s, broken, idle, {"DCIM/100/A.JPG"})
    ensures Completes(cfg, card, slot, idle, rerun, t) && t.finals == map[at := [1]]
    ensures Completes(cfg, card, slot, s, clean, t0) && t0.finals == map[at := [2]]
  {
    FailedFileMayOverwrite(cfg, card, at);
    hide AfterRerun, LandAll, Completes, CardOk;
    broken, idle, rerun, t, clean, t0 := GivenUpFilesHealIff(cfg, card, slot, s, {"DCIM/100/A.JPG"});
  }
}
