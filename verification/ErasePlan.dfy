/** What app.ingest plans to erase, and what a card keeps when the plan is carried out. */
module ErasePlan {
  import opened Domain
  import opened Protocol
  import opened ProtocolSafety

  // ---------- removing a list of paths ----------

  /** The paths whose removal succeeds. */
  function Cleared(paths: seq<string>, removes: string -> bool): set<string> { set p | p in paths && removes(p) }

  ghost predicate SomeKept(files: map<string, Bytes>, paths: seq<string>, removes: string -> bool) {
    exists p :: p in paths && !(removes(p) && p in files)
  }

  lemma ClearNone(files: map<string, Bytes>, removes: string -> bool)
    ensures files - Cleared([], removes) == files && !SomeKept(files, [], removes)
  {
  }

  lemma ClearedMeans(files: map<string, Bytes>, paths: seq<string>, removes: string -> bool)
    ensures var left := files - Cleared(paths, removes);
      && (forall p :: p in left <==> p in files && !(p in paths && removes(p)))
      && (forall p :: p in left ==> left[p] == files[p])
    ensures SomeKept(files, paths, removes) <==> exists p :: p in paths && !(removes(p) && p in files)
  {
  }

  lemma ClearOne(files: map<string, Bytes>, paths: seq<string>, removes: string -> bool, i: nat)
    requires i < |paths| && Distinct(paths)
    ensures paths[i] in files - Cleared(paths[..i], removes) <==> paths[i] in files
    ensures files - Cleared(paths[..i + 1], removes) ==
      if removes(paths[i]) then files - Cleared(paths[..i], removes) - {paths[i]}
      else files - Cleared(paths[..i], removes)
    ensures SomeKept(files, paths[..i + 1], removes) <==>
      SomeKept(files, paths[..i], removes) || !(removes(paths[i]) && paths[i] in files)
  {
    assert paths[..i + 1] == paths[..i] + [paths[i]] && paths[i] !in paths[..i];
    if !(removes(paths[i]) && paths[i] in files) { assert paths[i] in paths[..i + 1]; }
  }

  // ---------- the plan ----------

  lemma ConcatDistinct(a: seq<string>, b: seq<string>)
    requires Distinct(a) && Distinct(b) && forall x :: x in a ==> x !in b
    ensures Distinct(a + b)
  {
    forall i, j | 0 <= i < j < |a + b| ensures (a + b)[i] != (a + b)[j] {
      if i < |a| <= j { assert a[i] in a && b[j - |a|] in b; }
    }
  }

  lemma PlanDistinct(cfg: Config, w: Worker)
    requires WholeScan(w.scan, w.files) && |w.done| <= |w.scan|
    ensures Distinct(Plan(cfg, w))
  {
    PickDistinct(w.scan, w.done, VERIFIED);
    PickDistinct(w.scan, w.done, {Skipped});
    forall x | x in Verified(w) ensures x !in Pick(w.scan, w.done, {Skipped}) {
      PickHas(w.scan, w.done, VERIFIED, x);
      PickHas(w.scan, w.done, {Skipped}, x);
    }
    ConcatDistinct(if cfg.eraseIngested then Verified(w) else [],
                   if cfg.eraseSkipped then Pick(w.scan, w.done, {Skipped}) else []);
  }

  lemma PlanIsScanned(cfg: Config, w: Worker)
    requires WholeScan(w.scan, w.files) && |w.done| <= |w.scan|
    ensures forall p :: p in Plan(cfg, w) ==> p in w.files
  {
    forall p | p in Plan(cfg, w) ensures p in w.files {
      PickHas(w.scan, w.done, VERIFIED, p);
      PickHas(w.scan, w.done, {Skipped}, p);
    }
  }

  // ---------- what the card keeps ----------

  /** The files of a worker's card after its erase plan was carried out as far as removals succeed. */
  function Survivors(cfg: Config, w: Worker, removes: string -> bool): map<string, Bytes>
    requires |w.done| <= |w.scan|
  {
    w.files - Cleared(Plan(cfg, w), removes)
  }

  /** Whatever the policy does not cover survives, and so does every file whose removal fails; if all
      removals succeed, nothing else does. */
  lemma SurvivorsAreUncovered(cfg: Config, w: Worker, removes: string -> bool, i: nat)
    requires WholeScan(w.scan, w.files) && i < |w.done| == |w.scan|
    ensures w.scan[i] in Survivors(cfg, w, removes) <==> w.done[i] in Protected(cfg) || !removes(w.scan[i])
  {
    var p := w.scan[i];
    PickHas(w.scan, w.done, VERIFIED, p);
    PickHas(w.scan, w.done, {Skipped}, p);
    if w.done[i] in Protected(cfg) {
      if p in Plan(cfg, w) { PlanIsUnprotected(cfg, w, p, i); }
    } else if w.done[i] in VERIFIED {
      assert p in Verified(w) && p in Plan(cfg, w);
    } else {
      assert w.done[i] == Skipped && p in Pick(w.scan, w.done, {Skipped}) && p in Plan(cfg, w);
    }
  }

  /** With every removal succeeding, ingested files erased and skipped ones not: exactly the failed and
      the skipped files are left. */
  lemma OnlyFailedAndSkippedSurvive(cfg: Config, w: Worker, removes: string -> bool, p: string)
    requires WholeScan(w.scan, w.files) && |w.done| == |w.scan|
    requires cfg.eraseIngested && !cfg.eraseSkipped && forall q :: removes(q)
    ensures p in Survivors(cfg, w, removes) <==>
      p in Pick(w.scan, w.done, {Failed}) || p in Pick(w.scan, w.done, {Skipped})
  {
    PickHas(w.scan, w.done, {Failed}, p);
    PickHas(w.scan, w.done, {Skipped}, p);
    if i :| 0 <= i < |w.scan| && w.scan[i] == p {
      SurvivorsAreUncovered(cfg, w, removes, i);
      forall j | 0 <= j < |w.done| && w.scan[j] == p ensures j == i { }
    }
  }

  // ---------- the number reported as erased ----------

  function PathsOf(s: seq<string>): set<string> { set p | p in s }

  lemma PathsOfNext(s: seq<string>, n: nat)
    requires n < |s| && Distinct(s)
    ensures PathsOf(s[..n + 1]) == PathsOf(s[..n]) + {s[n]} && s[n] !in PathsOf(s[..n])
  {
    assert s[..n + 1] == s[..n] + [s[n]];
  }

  lemma {:induction false} AsManyPaths(s: seq<string>)
    requires Distinct(s)
    ensures |PathsOf(s)| == |s|
  {
    if s == [] {
      assert PathsOf(s) == {};
    } else {
      var n := |s| - 1;
      AsManyPaths(s[..n]);
      PathsOfNext(s, n);
      assert s[..n + 1] == s;
    }
  }

  lemma ClearedAllIff(plan: seq<string>, removes: string -> bool)
    ensures Cleared(plan, removes) <= PathsOf(plan)
    ensures Cleared(plan, removes) == PathsOf(plan) <==> forall p :: p in plan ==> removes(p)
  {
    if Cleared(plan, removes) == PathsOf(plan) {
      forall p | p in plan ensures removes(p) { assert p in PathsOf(plan); }
    }
  }

  lemma SizeWithout(files: map<string, Bytes>, gone: set<string>)
    requires gone <= files.Keys
    ensures |files - gone| == |files| - |gone|
  {
    assert (files - gone).Keys == files.Keys - gone;
    assert |files - gone| == |(files - gone).Keys| && |files| == |files.Keys|;
  }

  lemma SubsetOfSameSize(a: set<string>, b: set<string>)
    requires a <= b
    ensures |a| == |b| <==> a == b
  {
    assert |b - a| == |b| - |a|;
  }

  /** The length of the plan, which is what gets reported, is the number of files removed if and only if
      every planned removal succeeds. */
  lemma PlannedIsRemovedIff(cfg: Config, w: Worker, removes: string -> bool)
    requires WholeScan(w.scan, w.files) && |w.done| <= |w.scan|
    ensures |w.files| - |Survivors(cfg, w, removes)| == |Plan(cfg, w)| <==> forall p :: p in Plan(cfg, w) ==> removes(p)
  {
    var plan := Plan(cfg, w);
    PlanDistinct(cfg, w);
    PlanIsScanned(cfg, w);
    hide Plan, Cleared;
    AsManyPaths(plan);
    ClearedAllIff(plan, removes);
    SizeWithout(w.files, Cleared(plan, removes));
    SubsetOfSameSize(Cleared(plan, removes), PathsOf(plan));
  }

  /** One ingested file that cannot be removed is reported as erased. */
  lemma RefusedRemovalIsReported(cfg: Config, w: Worker, removes: string -> bool)
    requires cfg.eraseIngested && !cfg.eraseSkipped && !removes("A.JPG")
    requires w.scan == ["A.JPG"] && w.files == map["A.JPG" := [1]] && w.done == [Copied]
    ensures Survivors(cfg, w, removes) == w.files && |Plan(cfg, w)| == 1
  {
    assert w.done[..0] == [] && Pick(w.scan, [], VERIFIED) == [];
    assert Plan(cfg, w) == ["A.JPG"];
  }
}
