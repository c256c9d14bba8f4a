/** Rerunning an ingest in which single files failed: exactly when it heals to what an ingest without
    failures would have left. */
module Heal {
  import opened Domain
  import opened Protocol
  import opened Resume

  /** The paths that are, or are not, in a set, in order. */
  function Among(paths: seq<string>, chosen: set<string>, wanted: bool): seq<string> {
    if paths == [] then [] else
      var n := |paths| - 1;
      Among(paths[..n], chosen, wanted) + if (paths[n] in chosen) == wanted then [paths[n]] else []
  }

  lemma {:induction false} AmongNext(paths: seq<string>, n: nat, chosen: set<string>, wanted: bool)
    requires n < |paths|
    ensures Among(paths[..n + 1], chosen, wanted) ==
      var before := Among(paths[..n], chosen, wanted);
      if (paths[n] in chosen) == wanted then before + [paths[n]] else before
  {
    assert paths[..n + 1][..n] == paths[..n];
    assert Among(paths[..n], chosen, wanted) + [] == Among(paths[..n], chosen, wanted);
  }

  // ---------- which files an ingest places, and where ----------

  /** Some kept path of the list has this hash. */
  ghost predicate Borne(cfg: Config, card: Card, paths: seq<string>, h: Hash)
    requires CardOk(card)
  {
    exists p :: p in paths && p in card.lands && cfg.hash(card.files[p]) == h
  }

  /** The paths an ingest of the list places: those kept whose hash is neither in the index nor borne by an
      earlier kept path of the list. */
  ghost function Placed(cfg: Config, card: Card, index: set<Hash>, paths: seq<string>): seq<string>
    requires CardOk(card)
  {
    if paths == [] then [] else
      var n := |paths| - 1;
      Placed(cfg, card, index, paths[..n]) + if IsPlaced(cfg, card, index, paths[..n], paths[n]) then [paths[n]] else []
  }

  ghost predicate IsPlaced(cfg: Config, card: Card, index: set<Hash>, before: seq<string>, p: string)
    requires CardOk(card)
  {
    p in card.lands && cfg.hash(card.files[p]) !in index && !Borne(cfg, card, before, cfg.hash(card.files[p]))
  }

  /** The index once the list has been ingested. */
  ghost function Recorded(cfg: Config, card: Card, index: set<Hash>, paths: seq<string>): set<Hash>
    requires CardOk(card)
  {
    index + set p | p in paths && p in card.lands :: cfg.hash(card.files[p])
  }

  /** The last kept path of the list that lands at this place. */
  function LastLanding(card: Card, paths: seq<string>, at: Place): (last: Option<string>)
    ensures last.Some? ==> last.value in paths && last.value in card.lands && card.lands[last.value] == at
  {
    if paths == [] then None else
      var p := paths[|paths| - 1];
      if p in card.lands && card.lands[p] == at then Some(p) else LastLanding(card, paths[..|paths| - 1], at)
  }

  function LookUp(finals: map<Place, Bytes>, at: Place): Option<Bytes> {
    if at in finals then Some(finals[at]) else None
  }

  /** What a place shows once the listed files were placed over what was there. */
  function Shown(card: Card, finals: map<Place, Bytes>, placed: seq<string>, at: Place): Option<Bytes>
    requires CardOk(card)
  {
    var last := LastLanding(card, placed, at);
    if last.Some? then Some(card.files[last.value]) else LookUp(finals, at)
  }

  lemma {:induction false} LandLast(cfg: Config, card: Card, st: Store, paths: seq<string>)
    requires CardOk(card) && paths != []
    ensures var n := |paths| - 1;
      LandAll(cfg, card, st, paths) == LandFile(cfg, card, LandAll(cfg, card, st, paths[..n]), paths[n])
  {
    LandSnoc(cfg, card, st, paths[..|paths| - 1], paths[|paths| - 1]);
    assert paths[..|paths| - 1] + [paths[|paths| - 1]] == paths;
  }

  /** The index then holds exactly the old hashes and those of the kept paths. */
  lemma {:induction false} LandedIndex(cfg: Config, card: Card, st: Store, paths: seq<string>)
    requires CardOk(card)
    ensures LandAll(cfg, card, st, paths).index == Recorded(cfg, card, st.index, paths)
  {
    if paths != [] {
      var n := |paths| - 1;
      LandLast(cfg, card, st, paths);
      LandedIndex(cfg, card, st, paths[..n]);
      assert forall p :: p in paths <==> p in paths[..n] || p == paths[n];
    }
  }

  lemma NewlyRecorded(cfg: Config, card: Card, index: set<Hash>, paths: seq<string>, p: string)
    requires CardOk(card)
    ensures IsPlaced(cfg, card, index, paths, p) <==>
            p in card.lands && cfg.hash(card.files[p]) !in Recorded(cfg, card, index, paths)
  {
  }

  /** Each place then shows the last file placed there. */
  lemma {:induction false} LandedFinals(cfg: Config, card: Card, st: Store, paths: seq<string>, at: Place)
    requires CardOk(card)
    ensures LookUp(LandAll(cfg, card, st, paths).finals, at) ==
      Shown(card, st.finals, Placed(cfg, card, st.index, paths), at)
  {
    if paths != [] {
      var n := |paths| - 1;
      LandLast(cfg, card, st, paths);
      LandedFinals(cfg, card, st, paths[..n], at);
      LandedIndex(cfg, card, st, paths[..n]);
      NewlyRecorded(cfg, card, st.index, paths[..n], paths[n]);
      hide LandAll, Recorded, IsPlaced;
      var placed := Placed(cfg, card, st.index, paths[..n]);
      assert (placed + [paths[n]])[..|placed|] == placed && placed + [] == placed;
    }
  }

  lemma {:induction false} LastLandingAppend(card: Card, a: seq<string>, b: seq<string>, at: Place)
    ensures LastLanding(card, a + b, at) ==
      if LastLanding(card, b, at).Some? then LastLanding(card, b, at) else LastLanding(card, a, at)
  {
    if b == [] {
      assert a + b == a;
    } else {
      assert (a + b)[..|a + b| - 1] == a + b[..|b| - 1];
      LastLandingAppend(card, a, b[..|b| - 1], at);
    }
  }

  // ---------- the rerun ----------

  /** The stores after a first ingest, in which the files of fails failed, and after its clean rerun. */
  ghost function AfterFailures(cfg: Config, card: Card, st: Store, fails: set<string>): Store
    requires CardOk(card)
  {
    LandAll(cfg, card, st, Among(card.scan, fails, false))
  }

  ghost function AfterRerun(cfg: Config, card: Card, st: Store, fails: set<string>): Store
    requires CardOk(card)
  {
    LandAll(cfg, card, AfterFailures(cfg, card, st, fails), card.scan)
  }

  /** The files the two ingests place, in order. */
  ghost function PlacedInTwo(cfg: Config, card: Card, index: set<Hash>, fails: set<string>): seq<string>
    requires CardOk(card)
  {
    var good := Among(card.scan, fails, false);
    Placed(cfg, card, index, good) + Placed(cfg, card, Recorded(cfg, card, index, good), card.scan)
  }

  /** At every place the last file placed by the rerun, or failing that by the first ingest, has the bytes of
      the last file a clean ingest places there; a place that one of them leaves alone already shows those. */
  ghost predicate SamePlacements(cfg: Config, card: Card, st: Store, fails: set<string>)
    requires CardOk(card)
  {
    forall at :: Shown(card, st.finals, PlacedInTwo(cfg, card, st.index, fails), at)
              == Shown(card, st.finals, Placed(cfg, card, st.index, card.scan), at)
  }

  lemma {:induction false} AmongHas(paths: seq<string>, chosen: set<string>, wanted: bool, p: string)
    ensures p in Among(paths, chosen, wanted) <==> p in paths && ((p in chosen) == wanted)
  {
    if paths != [] {
      AmongHas(paths[..|paths| - 1], chosen, wanted, p);
      assert p in paths <==> p in paths[..|paths| - 1] || p == paths[|paths| - 1];
    }
  }

  lemma {:induction false} SameIndex(cfg: Config, card: Card, st: Store, fails: set<string>)
    requires CardOk(card)
    ensures AfterRerun(cfg, card, st, fails).index == LandAll(cfg, card, st, card.scan).index
  {
    var good := Among(card.scan, fails, false);
    LandedIndex(cfg, card, AfterFailures(cfg, card, st, fails), card.scan);
    LandedIndex(cfg, card, st, good);
    LandedIndex(cfg, card, st, card.scan);
    forall p ensures p in good ==> p in card.scan { AmongHas(card.scan, fails, false, p); }
  }

  lemma {:induction false} RerunShows(cfg: Config, card: Card, st: Store, fails: set<string>, at: Place)
    requires CardOk(card)
    ensures LookUp(AfterRerun(cfg, card, st, fails).finals, at) ==
      Shown(card, st.finals, PlacedInTwo(cfg, card, st.index, fails), at)
  {
    var good := Among(card.scan, fails, false);
    LandedFinals(cfg, card, st, good, at);
    LandedIndex(cfg, card, st, good);
    LandedFinals(cfg, card, AfterFailures(cfg, card, st, fails), card.scan, at);
    LastLandingAppend(card, Placed(cfg, card, st.index, good),
                      Placed(cfg, card, Recorded(cfg, card, st.index, good), card.scan), at);
  }

  /** A rerun without failures heals an ingest in which some files failed, final area and index alike, if
      and only if the two together place the same last files as one clean ingest would; whatever the disks
      held before, and whatever contents repeat. */
  lemma {:induction false} RerunHealsIff(cfg: Config, card: Card, st: Store, fails: set<string>)
    requires CardOk(card)
    ensures AfterRerun(cfg, card, st, fails) == LandAll(cfg, card, st, card.scan) <==>
      SamePlacements(cfg, card, st, fails)
  {
    var healed, clean := AfterRerun(cfg, card, st, fails), LandAll(cfg, card, st, card.scan);
    SameIndex(cfg, card, st, fails);
    forall at
      ensures LookUp(healed.finals, at) == Shown(card, st.finals, PlacedInTwo(cfg, card, st.index, fails), at)
      ensures LookUp(clean.finals, at) == Shown(card, st.finals, Placed(cfg, card, st.index, card.scan), at)
    {
      RerunShows(cfg, card, st, fails, at);
      LandedFinals(cfg, card, st, card.scan, at);
    }
    SameFinals(healed.finals, clean.finals);
  }

  lemma {:induction false} SameFinals(a: map<Place, Bytes>, b: map<Place, Bytes>)
    ensures a == b <==> forall at :: LookUp(a, at) == LookUp(b, at)
  {
    if forall at :: LookUp(a, at) == LookUp(b, at) {
      forall at ensures (at in a <==> at in b) && (at in a ==> a[at] == b[at]) {
        assert LookUp(a, at) == LookUp(b, at);
      }
      assert a == b;
    }
  }

  // ---------- cards without repeated contents ----------

  ghost predicate DistinctContents(cfg: Config, card: Card)
    requires CardOk(card)
  {
    forall p, q :: p in card.lands && q in card.lands && p != q ==> cfg.hash(card.files[p]) != cfg.hash(card.files[q])
  }

  /** The card with only the files that are kept and new to the index. */
  ghost function NewOnly(cfg: Config, card: Card, index: set<Hash>): (c: Card)
    requires CardOk(card)
    ensures CardOk(c)
  {
    card.(lands := map p | p in card.lands && cfg.hash(card.files[p]) !in index :: card.lands[p])
  }

  /** Every failed new file shares its place with no later new file that did not fail: the last new file at
      the place failed too. */
  ghost predicate LastOnesFailed(cfg: Config, card: Card, index: set<Hash>, fails: set<string>)
    requires CardOk(card)
  {
    var c := NewOnly(cfg, card, index);
    forall p :: p in c.scan && p in c.lands && p in fails ==>
      var last := LastLanding(c, c.scan, c.lands[p]);
      last.Some? && last.value in fails
  }

  /** Without repeats, what is placed at a place last is the last new file there that the list names. */
  lemma {:induction false} LastPlacedIsLastNew(cfg: Config, card: Card, index: set<Hash>, paths: seq<string>, at: Place)
    requires CardOk(card) && DistinctContents(cfg, card) && Distinct(paths)
    ensures LastLanding(card, Placed(cfg, card, index, paths), at) == LastLanding(NewOnly(cfg, card, index), paths, at)
  {
    if paths != [] {
      var n := |paths| - 1;
      LastPlacedIsLastNew(cfg, card, index, paths[..n], at);
      var placed := Placed(cfg, card, index, paths[..n]);
      assert (placed + [paths[n]])[..|placed|] == placed && placed + [] == placed;
    }
  }

  lemma {:induction false} AmongDistinct(paths: seq<string>, chosen: set<string>, wanted: bool)
    requires Distinct(paths)
    ensures Distinct(Among(paths, chosen, wanted))
  {
    if paths != [] {
      var n := |paths| - 1;
      AmongDistinct(paths[..n], chosen, wanted);
      AmongHas(paths[..n], chosen, wanted, paths[n]);
    }
  }

  /** The last at a place among some paths, in terms of the last of all. */
  lemma {:induction false} LastAmong(card: Card, paths: seq<string>, chosen: set<string>, wanted: bool, at: Place)
    ensures var all, some := LastLanding(card, paths, at), LastLanding(card, Among(paths, chosen, wanted), at);
      && (some.Some? ==> all.Some? && ((some.value in chosen) == wanted))
      && (all.Some? && (all.value in chosen) == wanted ==> some == all)
  {
    if paths != [] {
      var n := |paths| - 1;
      LastAmong(card, paths[..n], chosen, wanted, at);
      var a := Among(paths[..n], chosen, wanted);
      assert (a + [paths[n]])[..|a|] == a && a + [] == a;
    }
  }

  lemma {:induction false} NewAgain(cfg: Config, card: Card, index: set<Hash>, fails: set<string>, p: string)
    requires CardOk(card) && DistinctContents(cfg, card) && p in card.scan
    ensures p in NewOnly(cfg, card, Recorded(cfg, card, index, Among(card.scan, fails, false))).lands <==>
      p in NewOnly(cfg, card, index).lands && p in fails
  {
    AmongHas(card.scan, fails, false, p);
  }

  /** What is new to the rerun is what was new and failed. */
  lemma {:induction false} NewToRerun(cfg: Config, card: Card, index: set<Hash>, fails: set<string>,
                                      paths: seq<string>, at: Place)
    requires CardOk(card) && DistinctContents(cfg, card) && forall p :: p in paths ==> p in card.scan
    ensures LastLanding(NewOnly(cfg, card, Recorded(cfg, card, index, Among(card.scan, fails, false))), paths, at)
         == LastLanding(NewOnly(cfg, card, index), Among(paths, fails, true), at)
  {
    hide Recorded;
    if paths != [] {
      var n := |paths| - 1;
      assert paths[..n + 1] == paths;
      NewToRerun(cfg, card, index, fails, paths[..n], at);
      var a := Among(paths[..n], fails, true);
      AmongNext(paths, n, fails, true);
      assert (a + [paths[n]])[..|a|] == a;
      NewAgain(cfg, card, index, fails, paths[n]);
    }
  }

  lemma {:induction false} SomeLanding(card: Card, paths: seq<string>, p: string)
    requires p in paths && p in card.lands
    ensures LastLanding(card, paths, card.lands[p]).Some?
  {
    var n := |paths| - 1;
    if p != paths[n] {
      assert p in paths[..n];
      SomeLanding(card, paths[..n], p);
    }
  }

  /** Place by place, in terms of the new files. */
  lemma {:induction false} ShownInTwo(cfg: Config, card: Card, st: Store, fails: set<string>, at: Place)
    requires CardOk(card) && DistinctContents(cfg, card)
    ensures var c := NewOnly(cfg, card, st.index);
      var failed, last := LastLanding(c, Among(card.scan, fails, true), at), LastLanding(c, card.scan, at);
      && Shown(card, st.finals, Placed(cfg, card, st.index, card.scan), at) == Shown(c, st.finals, card.scan, at)
      && Shown(card, st.finals, PlacedInTwo(cfg, card, st.index, fails), at) ==
           Shown(c, st.finals, if failed.Some? then Among(card.scan, fails, true) else card.scan, at)
  {
    var good := Among(card.scan, fails, false);
    var index1 := Recorded(cfg, card, st.index, good);
    AmongDistinct(card.scan, fails, false);
    LastPlacedIsLastNew(cfg, card, st.index, card.scan, at);
    LastPlacedIsLastNew(cfg, card, st.index, good, at);
    LastPlacedIsLastNew(cfg, card, index1, card.scan, at);
    NewToRerun(cfg, card, st.index, fails, card.scan, at);
    LastLandingAppend(card, Placed(cfg, card, st.index, good), Placed(cfg, card, index1, card.scan), at);
    LastAmong(NewOnly(cfg, card, st.index), card.scan, fails, true, at);
    LastAmong(NewOnly(cfg, card, st.index), card.scan, fails, false, at);
  }

  /** When no content is repeated, the rerun heals if and only if, at each failed new file's place, the last
      new file failed too. */
  lemma {:induction false} DistinctRerunHealsIff(cfg: Config, card: Card, st: Store, fails: set<string>)
    requires CardOk(card) && DistinctContents(cfg, card)
    ensures AfterRerun(cfg, card, st, fails) == LandAll(cfg, card, st, card.scan) <==>
      LastOnesFailed(cfg, card, st.index, fails)
  {
    var c, bad := NewOnly(cfg, card, st.index), Among(card.scan, fails, true);
    RerunHealsIff(cfg, card, st, fails);
    if LastOnesFailed(cfg, card, st.index, fails) {
      forall at
        ensures Shown(card, st.finals, PlacedInTwo(cfg, card, st.index, fails), at)
             == Shown(card, st.finals, Placed(cfg, card, st.index, card.scan), at)
      {
        ShownInTwo(cfg, card, st, fails, at);
        LastAmong(c, card.scan, fails, true, at);
        var failed := LastLanding(c, bad, at);
        if failed.Some? { AmongHas(card.scan, fails, true, failed.value); }
      }
    } else {
      var p :| p in c.scan && p in c.lands && p in fails &&
        !(LastLanding(c, c.scan, c.lands[p]).Some? && LastLanding(c, c.scan, c.lands[p]).value in fails);
      var at := c.lands[p];
      AmongHas(card.scan, fails, true, p);
      SomeLanding(c, card.scan, p);
      SomeLanding(c, bad, p);
      LastAmong(c, card.scan, fails, true, at);
      ShownInTwo(cfg, card, st, fails, at);
    }
  }

  lemma {:induction false} LandTwo(cfg: Config, card: Card, st: Store, p: string, q: string)
    requires CardOk(card)
    ensures LandAll(cfg, card, st, [p]) == LandFile(cfg, card, st, p)
    ensures LandAll(cfg, card, st, [p, q]) == LandFile(cfg, card, LandFile(cfg, card, st, p), q)
  {
    hide LandFile;
    assert [p][1..] == [] && [p, q][1..] == [q] && [q][1..] == [];
    assert LandAll(cfg, card, LandFile(cfg, card, st, p), [q]) ==
      LandAll(cfg, card, LandFile(cfg, card, LandFile(cfg, card, st, p), q), []);
  }

  lemma SecondAmong(p: string, q: string)
    requires p != q
    ensures Among([p, q], {p}, false) == [q]
  {
    assert [p, q][..1] == [p] && [p][..0] == [];
    assert Among([p], {p}, false) == [];
  }

  /** Why failures matter at all: the first of two files that share a place fails once, and lands on the rerun
      over the second. */
  lemma {:induction false} FailedFileMayOverwrite(cfg: Config, card: Card, at: Place)
    requires card.scan == ["DCIM/100/A.JPG", "DCIM/101/A.JPG"]
    requires card.files == map["DCIM/100/A.JPG" := [1], "DCIM/101/A.JPG" := [2]]
    requires card.lands == map["DCIM/100/A.JPG" := at, "DCIM/101/A.JPG" := at] && cfg.hash([1]) != cfg.hash([2])
    ensures CardOk(card)
    ensures AfterRerun(cfg, card, Store(map[], {}), {"DCIM/100/A.JPG"}).finals == map[at := [1]]
    ensures LandAll(cfg, card, Store(map[], {}), card.scan).finals == map[at := [2]]
  {
    hide LandAll, Among;
    var p, q, a, b := "DCIM/100/A.JPG", "DCIM/101/A.JPG", cfg.hash([1]), cfg.hash([2]);
    var empty, first, second := Store(map[], {}), Store(map[at := [1]], {a}), Store(map[at := [2]], {b});
    assert LandFile(cfg, card, empty, p) == first && LandFile(cfg, card, empty, q) == second;
    assert LandFile(cfg, card, first, q) == Store(map[at := [2]], {a, b});
    assert LandFile(cfg, card, second, p) == Store(map[at := [1]], {a, b}) ==
      LandFile(cfg, card, Store(map[at := [1]], {a, b}), q);
    hide LandFile;
    SecondAmong(p, q);
    LandTwo(cfg, card, empty, p, q);
    LandTwo(cfg, card, empty, q, p);
    LandTwo(cfg, card, second, p, q);
  }

  /** Why repeats need the general condition: the first of two copies of one photo fails once, no other file
      goes to either place, and yet the rerun leaves the photo under the other name. */
  lemma {:induction false} DuplicateMayMove(cfg: Config, card: Card, a: Place, b: Place)
    requires card.scan == ["A.JPG", "B.JPG"] && card.files == map["A.JPG" := [1], "B.JPG" := [1]]
    requires card.lands == map["A.JPG" := a, "B.JPG" := b] && a != b
    ensures CardOk(card) && LastOnesFailed(cfg, card, {}, {"A.JPG"})
    ensures AfterRerun(cfg, card, Store(map[], {}), {"A.JPG"}).finals == map[b := [1]]
    ensures LandAll(cfg, card, Store(map[], {}), card.scan).finals == map[a := [1]]
  {
    hide LandAll, Among;
    var empty := Store(map[], {});
    SecondAmong("A.JPG", "B.JPG");
    LandTwo(cfg, card, empty, "A.JPG", "B.JPG");
    LandTwo(cfg, card, empty, "B.JPG", "A.JPG");
    assert AfterFailures(cfg, card, empty, {"A.JPG"}) == Store(map[b := [1]], {cfg.hash([1])});
    LandTwo(cfg, card, Store(map[b := [1]], {cfg.hash([1])}), "A.JPG", "B.JPG");
    var c := NewOnly(cfg, card, {});
    assert c.lands == card.lands && c.scan[..1] == ["A.JPG"];
    assert LastLanding(c, c.scan, a) == LastLanding(c, c.scan[..1], a) == Some("A.JPG");
  }
}
