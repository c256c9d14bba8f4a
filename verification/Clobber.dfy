/** Losing a verified file: an ingest overwrites a file of the same name, and then erases it from the card.
    Which cards this can happen to, over every run of one slot onto an empty destination. */
module Clobber {
  import opened Domain
  import opened Protocol
  import opened ProtocolSafety
  import opened Resume
  import opened Rerun
  import opened ErasePlan
  import opened Heal

  /** Any run that completes the ingest of a card onto an empty destination leaves every kept file there if
      and only if the destination names of distinct contents are distinct. */
  lemma CompletedKeepsAllIffNamesDistinct(cfg: Config, card: Card, slot: Slot, s: System, run: seq<Action>, t: System)
    requires CardOk(card) && CardInjective(cfg, card) && s.finals == map[] && s.index == {}
    requires Completes(cfg, card, slot, s, run, t)
    ensures NamesDistinct(cfg, card) <==>
      forall i :: 0 <= i < |card.scan| && card.scan[i] in card.lands ==>
        OnDestination(t.finals, card.files[card.scan[i]])
  {
    hide NamesDistinct, OnDestination, Completes;
    CompletedIsLanded(cfg, card, slot, s, run, t);
    FirstIngestKeepsAllIffNamesDistinct(cfg, card);
  }

  // ---------- erasing a whole plan ----------

  /** The worker w, done ingesting, has since had its card remounted and erased the first n paths of its plan. */
  ghost predicate Erased(cfg: Config, slot: Slot, w: Worker, t: System, n: nat) {
    && |w.done| <= |w.scan| && n <= |Plan(cfg, w)| && slot in t.workers
    && t.workers[slot] == w.(pc := Erasing(n), card := w.files - PathsOf(Plan(cfg, w)[..n]))
  }

  function Erasure(cfg: Config, slot: Slot, w: Worker, p: string): Event
    requires |w.done| <= |w.scan| && p in w.files
  {
    Event.Erased(slot, p, w.files[p], p in Verified(w))
  }

  lemma EraseStep(cfg: Config, slot: Slot, t: System, w: Worker, n: nat)
    requires Erased(cfg, slot, w, t, n) && n < |Plan(cfg, w)| && |w.done| == |w.scan|
    requires WholeScan(w.scan, w.files) && Plan(cfg, w)[n] in w.files
    ensures var a := Do(slot, Move.Erase(true));
      Enabled(cfg, t, a) && Erased(cfg, slot, w, Step(cfg, t, a), n + 1) && StoreOf(Step(cfg, t, a)) == StoreOf(t)
      && Step(cfg, t, a).log == t.log + [Erasure(cfg, slot, w, Plan(cfg, w)[n])]
  {
    var plan, a := Plan(cfg, w), Do(slot, Move.Erase(true));
    PlanDistinct(cfg, w);
    assert Plan(cfg, t.workers[slot]) == plan && Verified(t.workers[slot]) == Verified(w);
    hide Plan, Verified, PathsOf;
    PathsOfNext(plan, n);
    assert w.files - PathsOf(plan[..n]) - {plan[n]} == w.files - PathsOf(plan[..n + 1]);
  }

  lemma EraseOne(cfg: Config, card: Card, slot: Slot, s: System, run: seq<Action>, t: System, w: Worker, n: nat)
    returns (run': seq<Action>, t': System)
    requires CardOk(card) && Leads(cfg, card, slot, s, run, t) && Erased(cfg, slot, w, t, n) && n < |Plan(cfg, w)|
    requires WholeScan(w.scan, w.files) && |w.done| == |w.scan| && Plan(cfg, w)[n] in w.files
    ensures Leads(cfg, card, slot, s, run', t') && Erased(cfg, slot, w, t', n + 1) && StoreOf(t') == StoreOf(t)
    ensures t'.log == t.log + [Erasure(cfg, slot, w, Plan(cfg, w)[n])]
  {
    hide Leads, Plan, Enabled, Step;
    var a := Do(slot, Move.Erase(true));
    EraseStep(cfg, slot, t, w, n);
    RunOne(cfg, card, slot, s, run, t, a);
    run', t' := run + [a], Step(cfg, t, a);
  }

  lemma {:induction false} EraseAll(cfg: Config, card: Card, slot: Slot, s: System, run: seq<Action>, t: System,
                                    w: Worker, n: nat)
    returns (run': seq<Action>, t': System)
    requires CardOk(card) && Leads(cfg, card, slot, s, run, t) && Erased(cfg, slot, w, t, n)
    requires WholeScan(w.scan, w.files) && |w.done| == |w.scan| && forall p :: p in Plan(cfg, w) ==> p in w.files
    ensures Leads(cfg, card, slot, s, run', t') && StoreOf(t') == StoreOf(t) && t.log <= t'.log
    ensures forall i :: n <= i < |Plan(cfg, w)| ==> Erasure(cfg, slot, w, Plan(cfg, w)[i]) in t'.log
    decreases |Plan(cfg, w)| - n
  {
    hide Leads;
    run', t' := run, t;
    if n < |Plan(cfg, w)| {
      run', t' := EraseOne(cfg, card, slot, s, run, t, w, n);
      assert t'.log[|t.log|] == Erasure(cfg, slot, w, Plan(cfg, w)[n]);
      run', t' := EraseAll(cfg, card, slot, s, run', t', w, n + 1);
    }
  }

  /** After any completed ingest of a card with something to erase, there is a run that erases all of it. */
  lemma EraseCanComplete(cfg: Config, card: Card, slot: Slot, s: System, run: seq<Action>, t: System)
    returns (run': seq<Action>, t': System)
    requires CardOk(card) && Initial(s) && Completes(cfg, card, slot, s, run, t) && cfg.eraseIngested
    ensures Runs(cfg, card, slot, s, run', t') && StoreOf(t') == StoreOf(t)
    ensures forall i :: 0 <= i < |card.scan| && card.scan[i] in card.lands ==>
      Event.Erased(slot, card.scan[i], card.files[card.scan[i]], true) in t'.log
  {
    CompletedIsLanded(cfg, card, slot, s, run, t);
    CardIsSafe(cfg, s, run, t, slot);
    var w := t.workers[slot];
    PlanIsScanned(cfg, w);
    hide Leads;
    if Plan(cfg, w) == [] {
      run', t' := run, t;
    } else {
      var run1, t1 := RemountOne(cfg, card, slot, s, run, t, w);
      run', t' := EraseAll(cfg, card, slot, s, run1, t1, w, 0);
    }
    forall i | 0 <= i < |card.scan| && card.scan[i] in card.lands
      ensures Event.Erased(slot, card.scan[i], card.files[card.scan[i]], true) in t'.log
    {
      VerifiedIsKept(card, w, card.scan[i]);
      ErasureOf(cfg, slot, w, card.scan[i], t');
    }
  }

  lemma RemountOne(cfg: Config, card: Card, slot: Slot, s: System, run: seq<Action>, t: System, w: Worker)
    returns (run': seq<Action>, t': System)
    requires CardOk(card) && Leads(cfg, card, slot, s, run, t)
    requires slot in t.workers && t.workers[slot] == w && w.pc.Ingested?
    requires WholeScan(w.scan, w.files) && w.card == w.files && |w.done| == |w.scan| && Plan(cfg, w) != []
    ensures Leads(cfg, card, slot, s, run', t') && Erased(cfg, slot, w, t', 0)
    ensures StoreOf(t') == StoreOf(t) && t'.log == t.log
  {
    hide Leads, Plan;
    var a := Do(slot, Move.Remount);
    RunOne(cfg, card, slot, s, run, t, a);
    run', t' := run + [a], Step(cfg, t, a);
    assert Plan(cfg, w)[..0] == [] && w.files - PathsOf([]) == w.files;
  }

  lemma ErasureOf(cfg: Config, slot: Slot, w: Worker, p: string, t: System)
    requires |w.done| <= |w.scan| && p in Verified(w) && p in w.files && cfg.eraseIngested
    requires forall q :: q in Plan(cfg, w) ==> q in w.files
    requires forall i :: 0 <= i < |Plan(cfg, w)| ==> Erasure(cfg, slot, w, Plan(cfg, w)[i]) in t.log
    ensures Event.Erased(slot, p, w.files[p], true) in t.log
  {
    assert p in Plan(cfg, w);
    var k :| 0 <= k < |Plan(cfg, w)| && Plan(cfg, w)[k] == p;
    assert Erasure(cfg, slot, w, Plan(cfg, w)[k]) in t.log;
  }

  lemma VerifiedIsKept(card: Card, w: Worker, p: string)
    requires CardOk(card) && w.scan == card.scan && |w.done| == |card.scan| && Faithful(card, w.done)
    ensures p in Verified(w) <==> p in card.lands
  {
    PickHas(w.scan, w.done, VERIFIED, p);
    if p in card.lands {
      var i :| 0 <= i < |card.scan| && card.scan[i] == p;
      assert w.done[i] in VERIFIED;
    }
  }

  // ---------- the loss ----------

  /** Two files of different contents that share a destination name: some run without any failure erases the
      first of them from the card as verified although its bytes are nowhere on the destination. */
  lemma SharedNameErasesLost(cfg: Config, card: Card, slot: Slot, s: System, i: nat, j: nat)
    returns (run: seq<Action>, t: System, k: nat)
    requires CardOk(card) && Initial(s) && s.finals == map[] && cfg.eraseIngested
    requires i < j < |card.scan| && FirstOfKind(cfg, card, i) && FirstOfKind(cfg, card, j)
    requires card.lands[card.scan[i]] == card.lands[card.scan[j]]
    ensures Runs(cfg, card, slot, s, run, t) && Reaches(cfg, s, run, t)
    ensures ErasesVerified(t, k) && t.log[k].bytes == card.files[card.scan[i]]
    ensures !OnDestination(t.finals, t.log[k].bytes)
    ensures StoreOf(t) == LandAll(cfg, card, Fresh(), card.scan)
  {
    hide Completes, OnDestination, LandAll;
    var run1, t1 := IngestCanComplete(cfg, card, slot, s);
    CompletedIsLanded(cfg, card, slot, s, run1, t1);
    run, t := EraseCanComplete(cfg, card, slot, s, run1, t1);
    SharedNameLoses(cfg, card, i, j);
    k :| 0 <= k < |t.log| && t.log[k] == Event.Erased(slot, card.scan[i], card.files[card.scan[i]], true);
  }

  /** The concrete case: two different photos named A.JPG in two folders, taken on one day. */
  lemma TwoPhotosOneName(cfg: Config, card: Card, slot: Slot, s: System, at: Place)
    returns (run: seq<Action>, t: System, k: nat)
    requires card.scan == ["DCIM/100/A.JPG", "DCIM/101/A.JPG"]
    requires card.files == map["DCIM/100/A.JPG" := [1], "DCIM/101/A.JPG" := [2]]
    requires card.lands == map["DCIM/100/A.JPG" := at, "DCIM/101/A.JPG" := at] && cfg.hash([1]) != cfg.hash([2])
    requires Initial(s) && s.finals == map[] && cfg.eraseIngested
    ensures CardOk(card) && Runs(cfg, card, slot, s, run, t)
    ensures ErasesVerified(t, k) && t.log[k].bytes == [1] && t.finals == map[at := [2]]
  {
    FailedFileMayOverwrite(cfg, card, at);
    hide LandAll, Runs;
    run, t, k := SharedNameErasesLost(cfg, card, slot, s, 0, 1);
  }

  // ---------- exactly when nothing is lost ----------

  /** Whatever was erased as verified is a kept file of the card, and by then the index knew all of them. */
  ghost predicate ErasedWhenKnown(cfg: Config, card: Card, t: System)
    requires CardOk(card)
  {
    forall k :: ErasesVerified(t, k) ==>
      Known(cfg, card, t.index, |card.scan|) && exists p :: p in card.lands && card.files[p] == t.log[k].bytes
  }

  lemma StepErasesWhenKnown(cfg: Config, card: Card, slot: Slot, s: System, a: Action)
    requires CardOk(card) && ErasedWhenKnown(cfg, card, s) && Enabled(cfg, s, a) && Steady(cfg, card, slot, s, a)
    requires slot in s.workers ==> OnCourse(cfg, card, slot, s, s.workers[slot])
    ensures ErasedWhenKnown(cfg, card, Step(cfg, s, a))
  {
    var t := Step(cfg, s, a);
    forall k | ErasesVerified(t, k)
      ensures Known(cfg, card, t.index, |card.scan|) && exists p :: p in card.lands && card.files[p] == t.log[k].bytes
    {
      if k < |s.log| {
        assert t.log[k] == s.log[k];
        assert ErasesVerified(s, k);
      } else {
        var w := s.workers[slot];
        VerifiedIsKept(card, w, t.log[k].path);
      }
    }
  }

  lemma {:induction false} RunErasesWhenKnown(cfg: Config, card: Card, slot: Slot, s: System, run: seq<Action>,
                                              t: System)
    requires CardOk(card) && Runs(cfg, card, slot, s, run, t) && s.log == []
    ensures ErasedWhenKnown(cfg, card, t)
  {
    if run != [] {
      var k := |run| - 1;
      var mid := After(cfg, s, run[..k]).value;
      RunErasesWhenKnown(cfg, card, slot, s, run[..k], mid);
      RunKeepsResumable(cfg, card, slot, s, run[..k]);
      StepErasesWhenKnown(cfg, card, slot, mid, run[k]);
    }
  }

  /** Once something was erased as verified, the disks are those of the finished ingest, for ever. */
  lemma {:induction false} StoreOfErased(cfg: Config, card: Card, slot: Slot, s: System, run: seq<Action>, t: System,
                                         k: nat)
    requires CardOk(card) && Runs(cfg, card, slot, s, run, t) && s.log == [] && ErasesVerified(t, k)
    ensures StoreOf(t) == LandAll(cfg, card, StoreOf(s), card.scan)
    ensures exists p :: p in card.lands && card.files[p] == t.log[k].bytes
  {
    RunErasesWhenKnown(cfg, card, slot, s, run, t);
    RunKeepsResumable(cfg, card, slot, s, run);
    assert card.scan[0..] == card.scan && card.scan[|card.scan|..] == [];
    KnownPrefixIsIdle(cfg, card, StoreOf(t), 0, |card.scan|);
  }

  /** What this run erases as verified is on the destination. */
  ghost predicate Keeps(cfg: Config, card: Card, slot: Slot, s: System, run: seq<Action>, t: System)
    requires CardOk(card)
  {
    Runs(cfg, card, slot, s, run, t) ==> forall k :: ErasesVerified(t, k) ==> OnDestination(t.finals, t.log[k].bytes)
  }

  lemma DistinctNamesLoseNothing(cfg: Config, card: Card, slot: Slot, s: System, run: seq<Action>, t: System)
    requires CardOk(card) && CardInjective(cfg, card) && NamesDistinct(cfg, card)
    requires Runs(cfg, card, slot, s, run, t) && Initial(s) && s.finals == map[]
    ensures Keeps(cfg, card, slot, s, run, t)
  {
    hide Runs, NamesDistinct, OnDestination;
    forall k | ErasesVerified(t, k) ensures OnDestination(t.finals, t.log[k].bytes) {
      StoreOfErased(cfg, card, slot, s, run, t, k);
      var p :| p in card.lands && card.files[p] == t.log[k].bytes;
      var i :| 0 <= i < |card.scan| && card.scan[i] == p;
      DistinctNamesKeep(cfg, card, i);
    }
  }

  /** For one card onto an empty destination, with erasing on: no run, with whatever aborts, crashes and
      reruns but no per-file failure, ever loses a file it erases as verified, if and only if the destination
      names of distinct contents are distinct. */
  lemma NothingLostIffNamesDistinct(cfg: Config, card: Card, slot: Slot, s: System)
    requires CardOk(card) && CardInjective(cfg, card) && Initial(s) && s.finals == map[] && cfg.eraseIngested
    ensures NamesDistinct(cfg, card) <==> forall run, t :: Keeps(cfg, card, slot, s, run, t)
  {
    hide Runs, ErasesVerified;
    if NamesDistinct(cfg, card) {
      forall run, t ensures Keeps(cfg, card, slot, s, run, t) {
        if Runs(cfg, card, slot, s, run, t) { DistinctNamesLoseNothing(cfg, card, slot, s, run, t); }
      }
    } else {
      var i, j :| 0 <= i < j < |card.scan| && FirstOfKind(cfg, card, i) && FirstOfKind(cfg, card, j) &&
                  card.lands[card.scan[i]] == card.lands[card.scan[j]];
      var run, t, k := SharedNameErasesLost(cfg, card, slot, s, i, j);
      assert !Keeps(cfg, card, slot, s, run, t);
    }
  }
}
