/** When a rerun makes up for files that failed, for the code: two calls of Ingest against one. */
module HealIngest {
  import opened Domain
  import opened Protocol
  import opened Resume
  import opened Heal
  import opened IngestSpec
  import P = Pipeline
  import Rules

  // ---------- two calls of Ingest ----------

  predicate Healthy(j: Job) {
    Streams(j.io) && j.io.arrived == j.bytes && j.io.lookup && j.io.readBack && Succeeds(j.io)
  }

  /** The failures that cost one file: it cannot be opened or copied, or what landed reads back different. */
  predicate Breaks(cfg: Config, j: Job) {
    || (j.io.tempDir && (!j.io.open || (j.io.create && !j.io.copied)))
    || (Streams(j.io) && j.io.lookup && j.io.readBack && cfg.hash(j.io.arrived) != cfg.hash(j.bytes))
  }

  /** The job handles this file of the card, with the card's decision and place for it. */
  ghost predicate Fits(ctx: Context, card: Card, fails: set<string>, path: string, j: Job)
    requires CardOk(card)
  {
    && j.entry.path == path && path in card.files && j.bytes == card.files[path]
    && (j.category.Some? <==> path in card.lands)
    && (path in card.lands ==>
          && card.lands[path] == Place(ctx.dirOf(j.category.value, j.io.date), Base(path))
          && if path in fails then Breaks(ctx.cfg, j) else Healthy(j))
  }

  ghost predicate AllFit(ctx: Context, card: Card, fails: set<string>, jobs: seq<Job>)
    requires CardOk(card)
  {
    |jobs| <= |card.scan| && forall i :: 0 <= i < |jobs| ==> Fits(ctx, card, fails, card.scan[i], jobs[i])
  }

  /** The card is the scanned one, nobody cancels, and whatever decision the policy allows for a file is the
      card's, with that file's I/O broken or healthy as fails says. */
  ghost predicate Follows(ctx: Context, card: Card, policy: Policy, files: map<string, Bytes>, ios: seq<FileIo>,
                          fails: set<string>)
    requires CardOk(card)
  {
    && card.scan == Paths(ctx.entries) && card.files == files && |ios| == |ctx.entries|
    && (forall k :: 0 <= k < |ios| ==> ios[k].alive)
    && forall k, c :: 0 <= k < |ios| && Decided(policy, ctx.entries[k], c) ==>
         Fits(ctx, card, fails, card.scan[k], Job(ctx.entries[k], files[card.scan[k]], c, ios[k]))
  }

  lemma AdvanceIsLand(ctx: Context, card: Card, fails: set<string>, path: string, l: Ledger, j: Job)
    requires CardOk(card) && Fits(ctx, card, fails, path, j) && !l.stopped
    ensures var l' := Advance(ctx, l, j);
      !l'.stopped && Store(l'.finals, l'.index) ==
        if path in fails then Store(l.finals, l.index) else LandFile(ctx.cfg, card, Store(l.finals, l.index), path)
  {
    if path in card.lands && path !in fails { assert Healthy(j); }
  }

  /** An ingest some of whose files break and whose other files are healthy lands exactly the others, in
      order. */
  lemma {:induction false} LedgerIsLand(ctx: Context, card: Card, st: Store, fails: set<string>, jobs: seq<Job>)
    requires CardOk(card) && AllFit(ctx, card, fails, jobs)
    ensures var l := Play(ctx, st.index, st.finals, jobs);
      !l.stopped && Store(l.finals, l.index) == LandAll(ctx.cfg, card, st, Among(card.scan[..|jobs|], fails, false))
  {
    hide Fits, LandFile, Advance;
    if jobs != [] {
      var n := |jobs| - 1;
      LedgerIsLand(ctx, card, st, fails, jobs[..n]);
      AdvanceIsLand(ctx, card, fails, card.scan[n], Play(ctx, st.index, st.finals, jobs[..n]), jobs[n]);
      assert card.scan[..|jobs|][..n] == card.scan[..n];
      var a := Among(card.scan[..n], fails, false);
      if card.scan[n] in fails {
        assert a + [] == a;
      } else {
        LandSnoc(ctx.cfg, card, st, a, card.scan[n]);
      }
    }
  }

  lemma {:induction false} AmongAll(paths: seq<string>)
    ensures Among(paths, {}, false) == paths
  {
    if paths != [] {
      AmongAll(paths[..|paths| - 1]);
      assert paths == paths[..|paths| - 1] + [paths[|paths| - 1]];
    }
  }

  lemma {:induction false} JobsFollow(ctx: Context, index: set<Hash>, finals: map<Place, Bytes>, card: Card,
                                      policy: Policy, files: map<string, Bytes>, ios: seq<FileIo>, fails: set<string>,
                                      jobs: seq<Job>)
    requires CardOk(card) && Follows(ctx, card, policy, files, ios, fails)
    requires JobsFit(ctx, index, finals, policy, files, ios, jobs)
    ensures AllFit(ctx, card, fails, jobs)
  {
    hide Fits, Play, Decided;
    if jobs != [] {
      var n := |jobs| - 1;
      JobsFollow(ctx, index, finals, card, policy, files, ios, fails, jobs[..n]);
      assert jobs[n] == Job(ctx.entries[n], files[card.scan[n]], jobs[n].category, ios[n]);
      forall i | 0 <= i < |jobs| ensures Fits(ctx, card, fails, card.scan[i], jobs[i]) {
        if i < n { assert Fits(ctx, card, fails, card.scan[i], jobs[..n][i]); }
      }
    }
  }

  /** What one call of Ingest over such a card does: it succeeds, and lands the files that do not break. */
  lemma IngestLands(ctx: Context, st: Store, card: Card, policy: Policy, files: map<string, Bytes>, ios: seq<FileIo>,
                    fails: set<string>, jobs: seq<Job>, l: Ledger)
    requires CardOk(card) && Follows(ctx, card, policy, files, ios, fails)
    requires Played(ctx, st.index, st.finals, policy, files, ios, jobs, l)
    ensures !l.stopped
    ensures |jobs| == |card.scan| ==> Store(l.finals, l.index) == AfterFailures(ctx.cfg, card, st, fails)
  {
    JobsFollow(ctx, st.index, st.finals, card, policy, files, ios, fails, jobs);
    LedgerIsLand(ctx, card, st, fails, jobs);
    if |jobs| == |card.scan| { assert card.scan[..|jobs|] == card.scan; }
  }

  /** One pipeline ingests a card twice, first with some files breaking and then without failures; another,
      with the same disks, ingests it once without failures. They end with the same final area and index if
      and only if the two ingests place the same last files as the one. */
  method IngestTwice(twice: P.Pipeline, once: P.Pipeline, slot: Slot, entries: seq<Rules.Entry>,
                     files: map<string, Bytes>, breaking: seq<FileIo>, healthy: seq<FileIo>, policy: Policy,
                     ghost card: Card, ghost fails: set<string>)
    requires twice != once && twice.Valid() && once.Valid() && slot !in twice.sys.workers && slot !in once.sys.workers
    requires twice.cfg == once.cfg && twice.dirOf == once.dirOf
    requires twice.finals == once.finals && twice.index == once.index
    requires CardOk(card) && WholeScan(Paths(entries), files)
    requires Follows(twice.ContextOf(slot, entries), card, policy, files, breaking, fails)
    requires Follows(twice.ContextOf(slot, entries), card, policy, files, healthy, {})
    modifies twice, once
    ensures twice.Valid() && once.Valid()
    ensures twice.finals == once.finals && twice.index == once.index <==>
            SamePlacements(twice.cfg, card, Store(old(once.finals), old(once.index)), fails)
  {
    hide SamePlacements, Played, Follows, WholeScan;
    ghost var ctx, st, others := twice.ContextOf(slot, entries), Store(once.finals, once.index), twice.sys.workers;
    FollowsShape(ctx, card, policy, files, breaking, fails);
    FollowsShape(ctx, card, policy, files, healthy, {});
    var res1, ok1, jobs1, l1 := twice.Ingest(slot, Some(entries), files, breaking, policy);
    IngestLands(ctx, st, card, policy, files, breaking, fails, jobs1, l1);
    ScanIsHeld(entries, files);
    twice.Leaves(slot, others);
    var res2, ok2, jobs2, l2 := twice.Ingest(slot, Some(entries), files, healthy, policy);
    IngestLands(ctx, Store(l1.finals, l1.index), card, policy, files, healthy, {}, jobs2, l2);
    var res0, ok0, jobs0, l0 := once.Ingest(slot, Some(entries), files, healthy, policy);
    IngestLands(ctx, st, card, policy, files, healthy, {}, jobs0, l0);
    AmongAll(card.scan);
    RerunHealsIff(ctx.cfg, card, st, fails);
  }

  lemma FollowsShape(ctx: Context, card: Card, policy: Policy, files: map<string, Bytes>, ios: seq<FileIo>,
                     fails: set<string>)
    requires CardOk(card) && Follows(ctx, card, policy, files, ios, fails)
    ensures card.scan == Paths(ctx.entries) && |ios| == |ctx.entries| == |card.scan|
    ensures forall k :: 0 <= k < |ios| ==> ios[k].alive
  {
  }

  lemma ScanIsHeld(entries: seq<Rules.Entry>, files: map<string, Bytes>)
    requires WholeScan(Paths(entries), files)
    ensures forall p :: p in Paths(entries) ==> p in files
  {
  }
}
