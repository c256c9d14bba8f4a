/** Ingesting a card whose kept contents are already recorded, whatever goes wrong meanwhile; and
    exactly when a first ingest leaves every kept file on the destination. */
module Rerun {
  import opened Domain
  import opened Protocol
  import opened ProtocolSafety
  import opened Resume

  // ---------- idempotence ----------

  /** One slot handles one card with fixed decisions; every kind of failure is allowed. */
  ghost predicate SameCard(card: Card, slot: Slot, s: System, a: Action) {
    match a
    case Crash => true
    case Insert(sl, scan, files) => sl == slot && scan == card.scan && files == card.files
    case Do(sl, move) =>
      && sl == slot && slot in s.workers
      && var w := s.workers[slot];
         |w.done| < |w.scan| ==>
           && (move.Skip? ==> w.scan[|w.done|] !in card.lands)
           && (move.Allocate? ==> w.scan[|w.done|] in card.lands)
  }

  ghost predicate SameCardRun(cfg: Config, card: Card, slot: Slot, s: System, run: seq<Action>) {
    run == [] ||
    var k := |run| - 1;
    && SameCardRun(cfg, card, slot, s, run[..k])
    && After(cfg, s, run[..k]).Some?
    && Enabled(cfg, After(cfg, s, run[..k]).value, run[k])
    && SameCard(card, slot, After(cfg, s, run[..k]).value, run[k])
  }

  /** No kept file gets past the index lookup. */
  ghost predicate Stale(cfg: Config, card: Card, w: Worker)
    requires CardOk(card)
  {
    && w.scan == card.scan && w.files == card.files
    && |w.done| <= |card.scan|
    && !w.pc.Unseen? && !w.pc.Matched? && !w.pc.Landed?
    && (w.InFlight() ==> |w.done| < |card.scan| && card.scan[|w.done|] in card.lands)
    && (w.pc.Streamed? ==> w.pc.hash == cfg.hash(card.files[card.scan[|w.done|]]))
    && (w.pc.Ingested? || w.pc.Erasing? ==> |w.done| == |card.scan|)
    && (forall i :: 0 <= i < |w.done| ==>
          w.done[i] in (if card.scan[i] in card.lands then {Deduped, Failed} else {Skipped}))
  }

  lemma StaleMove(cfg: Config, card: Card, slot: Slot, s: System, w: Worker, move: Move)
    requires CardOk(card) && Known(cfg, card, s.index, |card.scan|)
    requires slot in s.workers && s.workers[slot] == w && Stale(cfg, card, w)
    requires CanMove(cfg, s, slot, w, move) && SameCard(card, slot, s, Do(slot, move))
    ensures Effect(cfg, s, slot, w, move).Some? ==> Effect(cfg, s, slot, w, move).value.Erased?
    ensures var next := Moved(cfg, s, slot, w, move);
      next.Some? ==> Stale(cfg, card, next.value) && (!move.GiveUp? && Failed !in w.done ==> Failed !in next.value.done)
  {
    hide WholeScan, TempName, Plan;
  }

  lemma StaleStep(cfg: Config, card: Card, slot: Slot, s: System, a: Action)
    requires CardOk(card) && Known(cfg, card, s.index, |card.scan|)
    requires s.workers.Keys <= {slot} && (slot in s.workers ==> Stale(cfg, card, s.workers[slot]))
    requires Enabled(cfg, s, a) && SameCard(card, slot, s, a)
    ensures var t := Step(cfg, s, a);
      && t.finals == s.finals && t.index == s.index
      && t.workers.Keys <= {slot} && (slot in t.workers ==> Stale(cfg, card, t.workers[slot]))
    ensures !(a.Do? && a.move.GiveUp?) && slot in Step(cfg, s, a).workers &&
            (slot in s.workers ==> Failed !in s.workers[slot].done)
            ==> Failed !in Step(cfg, s, a).workers[slot].done
  {
    if a.Do? { StaleMove(cfg, card, slot, s, s.workers[slot], a.move); }
  }

  /** However it goes, ingesting a card whose kept hashes are all recorded touches neither the final
      area nor the index and copies nothing; unless a card-side error intervenes, every kept file is
      reported as deduplicated. */
  lemma {:induction false} KnownCardChangesNothing(cfg: Config, card: Card, slot: Slot, s: System, run: seq<Action>)
    requires CardOk(card) && s.workers == map[] && Known(cfg, card, s.index, |card.scan|)
    requires SameCardRun(cfg, card, slot, s, run)
    ensures After(cfg, s, run).Some?
    ensures var t := After(cfg, s, run).value;
      && t.finals == s.finals && t.index == s.index
      && t.workers.Keys <= {slot}
      && (slot in t.workers ==> Stale(cfg, card, t.workers[slot]))
      && (slot in t.workers && (forall i :: 0 <= i < |run| ==> !(run[i].Do? && run[i].move.GiveUp?)) ==>
            Failed !in t.workers[slot].done)
  {
    if run != [] {
      var k := |run| - 1;
      KnownCardChangesNothing(cfg, card, slot, s, run[..k]);
      StaleStep(cfg, card, slot, After(cfg, s, run[..k]).value, run[k]);
      assert forall i :: 0 <= i < k ==> run[..k][i] == run[i];
    }
  }

  /** In the state t that some run from a fresh start leads to, a slot has ingested the card without a
      failed file. */
  ghost predicate Ingests(cfg: Config, card: Card, slot: Slot, s: System, run: seq<Action>, t: System) {
    && Initial(s) && After(cfg, s, run) == Some(t) && slot in t.workers && t.workers[slot].pc.Ingested?
      && t.workers[slot].scan == card.scan && t.workers[slot].files == card.files
      && |t.workers[slot].done| == |card.scan| && Faithful(card, t.workers[slot].done)
  }

  /** A run of one slot over the card, without card-side errors, that leads to a completed ingest. */
  ghost predicate IngestsAgain(cfg: Config, card: Card, slot: Slot, s: System, run: seq<Action>, t: System) {
    && s.workers == map[] && SameCardRun(cfg, card, slot, s, run) && After(cfg, s, run) == Some(t)
      && slot in t.workers && t.workers[slot].pc.Ingested?
      && (forall i :: 0 <= i < |run| ==> !(run[i].Do? && run[i].move.GiveUp?))
  }

  /** After any interleaving in which some slot ingested the card without a failed file, the index
      knows all of it. */
  lemma FinishedCardIsKnown(cfg: Config, card: Card, slot: Slot, s: System, run: seq<Action>, t: System)
    requires CardOk(card) && Ingests(cfg, card, slot, s, run, t)
    ensures Known(cfg, card, t.index, |card.scan|)
  {
    RunKeepsInv(cfg, s, run);
    assert Vouched(cfg, t.index, t.workers[slot]);
  }

  lemma AgainIsStale(cfg: Config, card: Card, slot: Slot, s: System, run: seq<Action>, t: System)
    requires CardOk(card) && Known(cfg, card, s.index, |card.scan|) && IngestsAgain(cfg, card, slot, s, run, t)
    ensures t.finals == s.finals && t.index == s.index
    ensures slot in t.workers && Stale(cfg, card, t.workers[slot]) && |t.workers[slot].done| == |card.scan|
    ensures Failed !in t.workers[slot].done
  {
    KnownCardChangesNothing(cfg, card, slot, s, run);
  }

  lemma {:induction false} PickNone(scan: seq<string>, done: seq<Outcome>, wanted: set<Outcome>)
    requires |done| <= |scan| && forall i :: 0 <= i < |done| ==> done[i] !in wanted
    ensures Pick(scan, done, wanted) == []
  {
    if done != [] { PickNone(scan, done[..|done| - 1], wanted); }
  }

  /** A second ingest of a card already ingested without failures copies nothing, dedupes exactly the
      files the first one verified, and leaves final area and index alone; whatever other slots did
      in between. */
  lemma IngestIsIdempotent(cfg: Config, card: Card, slot: Slot, s: System, run: seq<Action>, t: System,
                           idle: System, again: seq<Action>, t': System)
    requires CardOk(card) && Ingests(cfg, card, slot, s, run, t)
    requires t.index <= idle.index && IngestsAgain(cfg, card, slot, idle, again, t')
    ensures t'.finals == idle.finals && t'.index == idle.index
    ensures slot in t.workers && |t.workers[slot].done| <= |t.workers[slot].scan|
    ensures slot in t'.workers && |t'.workers[slot].done| == |t'.workers[slot].scan|
    ensures Pick(t'.workers[slot].scan, t'.workers[slot].done, {Copied}) == []
    ensures Pick(t'.workers[slot].scan, t'.workers[slot].done, {Deduped}) == Verified(t.workers[slot])
  {
    FinishedCardIsKnown(cfg, card, slot, s, run, t);
    AgainIsStale(cfg, card, slot, idle, again, t');
    FirstIsFaithful(cfg, card, slot, s, run, t);
    var first, second := t.workers[slot], t'.workers[slot];
    PickNone(second.scan, second.done, {Copied});
    PickSame(card.scan, second.done, {Deduped}, first.done, VERIFIED);
  }

  lemma FirstIsFaithful(cfg: Config, card: Card, slot: Slot, s: System, run: seq<Action>, t: System)
    requires CardOk(card) && Ingests(cfg, card, slot, s, run, t)
    ensures slot in t.workers && t.workers[slot].scan == card.scan && |t.workers[slot].done| == |card.scan|
    ensures Faithful(card, t.workers[slot].done)
  {
  }

  // ---------- when a first ingest keeps every file ----------

  /** File i is kept and no kept file before it has the same hash: it is the one that gets placed. */
  ghost predicate FirstOfKind(cfg: Config, card: Card, i: nat)
    requires CardOk(card) && i < |card.scan|
  {
    card.scan[i] in card.lands &&
    forall j :: 0 <= j < i && card.scan[j] in card.lands ==>
      cfg.hash(card.files[card.scan[j]]) != cfg.hash(card.files[card.scan[i]])
  }

  ghost predicate CardInjective(cfg: Config, card: Card)
    requires CardOk(card)
  {
    forall p, q :: p in card.files && q in card.files && cfg.hash(card.files[p]) == cfg.hash(card.files[q])
      ==> card.files[p] == card.files[q]
  }

  /** File m is the last first-of-its-kind below k to land at this place. */
  ghost predicate Owner(cfg: Config, card: Card, k: nat, at: Place, m: nat)
    requires CardOk(card) && k <= |card.scan|
  {
    && m < k && FirstOfKind(cfg, card, m) && card.lands[card.scan[m]] == at
    && forall n :: m < n < k && FirstOfKind(cfg, card, n) ==> card.lands[card.scan[n]] != at
  }

  function Fresh(): Store { Store(map[], {}) }

  lemma {:induction false} FreshIndex(cfg: Config, card: Card, k: nat, h: Hash)
    requires CardOk(card) && k <= |card.scan|
    ensures h in LandAll(cfg, card, Fresh(), card.scan[..k]).index <==>
      exists i :: 0 <= i < k && card.scan[i] in card.lands && cfg.hash(card.files[card.scan[i]]) == h
  {
    if k > 0 {
      FreshIndex(cfg, card, k - 1, h);
      assert card.scan[..k] == card.scan[..k - 1] + [card.scan[k - 1]];
      LandSnoc(cfg, card, Fresh(), card.scan[..k - 1], card.scan[k - 1]);
    }
  }

  /** Landing file k after the files below it changes something exactly when it is first of its kind. */
  lemma {:induction false} FreshStep(cfg: Config, card: Card, k: nat)
    requires CardOk(card) && k < |card.scan|
    ensures var before, path := LandAll(cfg, card, Fresh(), card.scan[..k]), card.scan[k];
      LandAll(cfg, card, Fresh(), card.scan[..k + 1]).finals ==
        if FirstOfKind(cfg, card, k) then before.finals[card.lands[path] := card.files[path]] else before.finals
  {
    assert card.scan[..k + 1] == card.scan[..k] + [card.scan[k]];
    LandSnoc(cfg, card, Fresh(), card.scan[..k], card.scan[k]);
    if card.scan[k] in card.lands { FreshIndex(cfg, card, k, cfg.hash(card.files[card.scan[k]])); }
  }

  /** Each place of the final area holds its last owner's bytes. */
  lemma {:induction false} FreshOwner(cfg: Config, card: Card, k: nat, at: Place) returns (m: nat)
    requires CardOk(card) && k <= |card.scan|
    requires at in LandAll(cfg, card, Fresh(), card.scan[..k]).finals
    ensures Owner(cfg, card, k, at, m)
    ensures LandAll(cfg, card, Fresh(), card.scan[..k]).finals[at] == card.files[card.scan[m]]
  {
    if k == 0 {
      assert false;
    } else {
      FreshStep(cfg, card, k - 1);
      if FirstOfKind(cfg, card, k - 1) && card.lands[card.scan[k - 1]] == at {
        m := k - 1;
      } else {
        m := FreshOwner(cfg, card, k - 1, at);
      }
    }
  }

  lemma {:induction false} FreshHolds(cfg: Config, card: Card, k: nat, m: nat)
    requires CardOk(card) && m < k <= |card.scan| && FirstOfKind(cfg, card, m)
    ensures card.lands[card.scan[m]] in LandAll(cfg, card, Fresh(), card.scan[..k]).finals
  {
    FreshStep(cfg, card, k - 1);
    if m < k - 1 { FreshHolds(cfg, card, k - 1, m); }
  }

  lemma {:induction false} SomeFirstOfKind(cfg: Config, card: Card, i: nat) returns (m: nat)
    requires CardOk(card) && i < |card.scan| && card.scan[i] in card.lands
    ensures m <= i && FirstOfKind(cfg, card, m)
    ensures cfg.hash(card.files[card.scan[m]]) == cfg.hash(card.files[card.scan[i]])
  {
    if j :| 0 <= j < i && card.scan[j] in card.lands &&
            cfg.hash(card.files[card.scan[j]]) == cfg.hash(card.files[card.scan[i]]) {
      m := SomeFirstOfKind(cfg, card, j);
    } else {
      m := i;
    }
  }

  /** Two files with different contents, each the first of its kind, never share a destination path. */
  ghost predicate NamesDistinct(cfg: Config, card: Card)
    requires CardOk(card)
  {
    forall i, j :: 0 <= i < j < |card.scan| && FirstOfKind(cfg, card, i) && FirstOfKind(cfg, card, j) ==>
      card.lands[card.scan[i]] != card.lands[card.scan[j]]
  }

  lemma {:induction false} DistinctNamesKeep(cfg: Config, card: Card, i: nat)
    requires CardOk(card) && CardInjective(cfg, card) && NamesDistinct(cfg, card)
    requires i < |card.scan| && card.scan[i] in card.lands
    ensures OnDestination(LandAll(cfg, card, Fresh(), card.scan).finals, card.files[card.scan[i]])
  {
    assert card.scan[..|card.scan|] == card.scan;
    var m := SomeFirstOfKind(cfg, card, i);
    FreshHolds(cfg, card, |card.scan|, m);
    var owner := FreshOwner(cfg, card, |card.scan|, card.lands[card.scan[m]]);
    assert owner == m;
  }

  /** The earlier of two files that share a name is overwritten and kept nowhere else. */
  lemma {:induction false} SharedNameLoses(cfg: Config, card: Card, i: nat, j: nat)
    requires CardOk(card) && i < j < |card.scan| && FirstOfKind(cfg, card, i) && FirstOfKind(cfg, card, j)
    requires card.lands[card.scan[i]] == card.lands[card.scan[j]]
    ensures !OnDestination(LandAll(cfg, card, Fresh(), card.scan).finals, card.files[card.scan[i]])
  {
    var st := LandAll(cfg, card, Fresh(), card.scan);
    assert card.scan[..|card.scan|] == card.scan;
    forall at | at in st.finals ensures st.finals[at] != card.files[card.scan[i]] {
      var owner := FreshOwner(cfg, card, |card.scan|, at);
      assert owner != i;
    }
  }

  /** A first ingest into an empty destination leaves every kept file there if and only if the
      destination names of distinct contents are distinct. */
  lemma {:induction false} FirstIngestKeepsAllIffNamesDistinct(cfg: Config, card: Card)
    requires CardOk(card) && CardInjective(cfg, card)
    ensures NamesDistinct(cfg, card) <==>
      forall i :: 0 <= i < |card.scan| && card.scan[i] in card.lands ==>
        OnDestination(LandAll(cfg, card, Fresh(), card.scan).finals, card.files[card.scan[i]])
  {
    if NamesDistinct(cfg, card) {
      forall i | 0 <= i < |card.scan| && card.scan[i] in card.lands
        ensures OnDestination(LandAll(cfg, card, Fresh(), card.scan).finals, card.files[card.scan[i]])
      {
        DistinctNamesKeep(cfg, card, i);
      }
    } else {
      var i, j :| 0 <= i < j < |card.scan| && FirstOfKind(cfg, card, i) && FirstOfKind(cfg, card, j) &&
                  card.lands[card.scan[i]] == card.lands[card.scan[j]];
      SharedNameLoses(cfg, card, i, j);
    }
  }
}
