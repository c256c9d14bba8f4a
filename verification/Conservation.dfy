/** What every ingest's counters and progress reports add up to, whatever failed in it. */
module Conservation {
  import opened Domain
  import opened Protocol
  import Rules
  import opened IngestSpec
  import Categories

  // ---------- per-category counts ----------

  ghost function SumOver(m: map<string, nat>, keys: set<string>): nat
    requires keys <= m.Keys
  {
    if keys == {} then 0 else
      var c :| c in keys;
      m[c] + SumOver(m, keys - {c})
  }

  /** How many of the names are among the keys. */
  function CountIn(names: seq<string>, keys: set<string>): nat {
    if names == [] then 0 else CountIn(names[..|names| - 1], keys) + if names[|names| - 1] in keys then 1 else 0
  }

  lemma {:induction false} CountWithout(names: seq<string>, keys: set<string>, c: string)
    requires c in keys
    ensures CountIn(names, keys) == CountIn(names, keys - {c}) + multiset(names)[c]
  {
    if names != [] {
      var n := |names| - 1;
      CountWithout(names[..n], keys, c);
      assert names == names[..n] + [names[n]];
    }
  }

  lemma {:induction false} CountInNone(names: seq<string>)
    ensures CountIn(names, {}) == 0
  {
    if names != [] { CountInNone(names[..|names| - 1]); }
  }

  lemma {:induction false} CountInAll(names: seq<string>, keys: set<string>)
    requires forall c :: c in names ==> c in keys
    ensures CountIn(names, keys) == |names|
  {
    if names != [] { CountInAll(names[..|names| - 1], keys); }
  }

  lemma {:induction false} SumIsCount(m: map<string, nat>, names: seq<string>, keys: set<string>)
    requires Tally(m, names) && keys <= m.Keys
    ensures SumOver(m, keys) == CountIn(names, keys)
    decreases keys
  {
    if keys == {} {
      CountInNone(names);
    } else {
      var c :| c in keys && SumOver(m, keys) == m[c] + SumOver(m, keys - {c});
      SumIsCount(m, names, keys - {c});
      CountWithout(names, keys, c);
    }
  }

  lemma {:induction false} TallySums(m: map<string, nat>, names: seq<string>)
    requires Tally(m, names)
    ensures SumOver(m, m.Keys) == |names|
  {
    forall c | c in names ensures c in m.Keys {
      assert multiset(names)[c] > 0;
    }
    SumIsCount(m, names, m.Keys);
    CountInAll(names, m.Keys);
  }

  // ---------- counters ----------

  /** After any number of files, stopped or not: the four counters add up to the files handled, and the
      verified files are the copied and deduplicated ones, each counted under exactly one category. */
  lemma CountersAddUp(ctx: Context, index: set<Hash>, finals: map<Place, Bytes>, policy: Policy,
                      files: map<string, Bytes>, ios: seq<FileIo>, jobs: seq<Job>, l: Ledger)
    requires Played(ctx, index, finals, policy, files, ios, jobs, l)
    ensures l.res.copied + l.res.deduped + l.res.skipped + l.res.failed == |l.done|
    ensures |l.res.verified| == l.res.copied + l.res.deduped == SumOver(l.res.byCategory, l.res.byCategory.Keys)
    ensures |l.res.skippedPath| == l.res.skipped && |l.res.failedPath| == l.res.failed
    ensures |l.done| == |jobs| - (if l.stopped then 1 else 0)
  {
    ResultOfPlayed(ctx, index, finals, policy, files, ios, jobs, l);
    CountsAddUp(Paths(ctx.entries), l.done);
    TallySums(l.res.byCategory, LandedNames(jobs, l.done));
    ResultReflectsOutcomes(ctx, index, finals, policy, files, ios, jobs);
  }

  /** The verified files put under a category. */
  ghost function Under(jobs: seq<Job>, done: seq<Outcome>, c: string): set<int>
    requires |done| <= |jobs|
  {
    set k | 0 <= k < |done| && done[k] in {Copied, Deduped} && jobs[k].category == Some(c)
  }

  lemma UnderNext(jobs: seq<Job>, done: seq<Outcome>, c: string)
    requires 0 < |done| <= |jobs|
    ensures var k := |done| - 1;
      Under(jobs, done, c) == if done[k] in {Copied, Deduped} && jobs[k].category == Some(c)
                              then Under(jobs, done[..k], c) + {k} else Under(jobs, done[..k], c)
    ensures |done| - 1 !in Under(jobs, done[..|done| - 1], c)
  {
  }

  lemma {:induction false} NamesAreUnder(jobs: seq<Job>, done: seq<Outcome>, c: string)
    requires |done| <= |jobs|
    requires forall k :: 0 <= k < |done| && done[k] in {Copied, Deduped} ==> jobs[k].category != None
    ensures multiset(LandedNames(jobs, done))[c] == |Under(jobs, done, c)|
  {
    hide Under;
    if done == [] {
      assert Under(jobs, done, c) == {} by { UnderNone(jobs, c); }
    } else {
      var k := |done| - 1;
      NamesAreUnder(jobs, done[..k], c);
      UnderNext(jobs, done, c);
    }
  }

  lemma UnderNone(jobs: seq<Job>, c: string)
    ensures Under(jobs, [], c) == {}
  {
  }

  /** Each category is counted once for every verified file whose decision it was, and for no other. */
  lemma CategoriesAreCounted(ctx: Context, index: set<Hash>, finals: map<Place, Bytes>, policy: Policy,
                             files: map<string, Bytes>, ios: seq<FileIo>, jobs: seq<Job>, l: Ledger, c: string)
    requires Played(ctx, index, finals, policy, files, ios, jobs, l)
    ensures |l.done| <= |jobs|
    ensures (if c in l.res.byCategory then l.res.byCategory[c] else 0) ==
      |set k | 0 <= k < |l.done| && l.done[k] in {Copied, Deduped} && jobs[k].category == Some(c)|
  {
    hide Play, JobsFit, LandedNames, Categories.Legit;
    ResultOfPlayed(ctx, index, finals, policy, files, ios, jobs, l);
    IngestObeys(ctx, index, finals, policy, files, ios, jobs, l);
    NamesAreUnder(jobs, l.done, c);
  }

  // ---------- bytes ----------

  /** The total is what adding up sizes means. */
  lemma {:induction false} SizesAdd(a: seq<Rules.Entry>, b: seq<Rules.Entry>, e: Rules.Entry)
    ensures SizeSum([]) == 0 && SizeSum([e]) == e.size && SizeSum(a + b) == SizeSum(a) + SizeSum(b)
  {
    assert [e][..0] == [];
    if b == [] {
      assert a + b == a;
    } else {
      var n := |b| - 1;
      SizesAdd(a, b[..n], e);
      assert (a + b)[..|a + b| - 1] == a + b[..n];
    }
  }

  /** The entries with this outcome, in scan order. */
  function Chosen(entries: seq<Rules.Entry>, done: seq<Outcome>, o: Outcome): seq<Rules.Entry>
    requires |done| <= |entries|
  {
    if done == [] then [] else
      var k := |done| - 1;
      Chosen(entries, done[..k], o) + if done[k] == o then [entries[k]] else []
  }

  /** The bytes reported as copied are the sizes of exactly the copied files. */
  lemma {:induction false} BytesAreOfCopied(entries: seq<Rules.Entry>, done: seq<Outcome>)
    requires |done| <= |entries|
    ensures Paths(Chosen(entries, done, Copied)) == ByOutcome(Paths(entries), done, Copied)
    ensures forall e :: e in Chosen(entries, done, Copied) ==> e in entries
    ensures CopiedBytes(entries, done) == SizeSum(Chosen(entries, done, Copied))
  {
    if done != [] {
      var k := |done| - 1;
      BytesAreOfCopied(entries, done[..k]);
      var before := Chosen(entries, done[..k], Copied);
      assert (before + [entries[k]])[..|before|] == before && before + [] == before;
    }
  }

  // ---------- progress ----------

  /** The report made before file k. */
  function ReportAt(ctx: Context, done: seq<Outcome>, k: nat): Progress
    requires k <= |done| <= |ctx.entries| && k < |ctx.entries|
  {
    Progress(ctx.slot, k, |ctx.entries|, CopiedBytes(ctx.entries, done[..k]), SizeSum(ctx.entries), ctx.entries[k].path)
  }

  lemma AdvanceReports(ctx: Context, l: Ledger, j: Job)
    ensures var l' := Advance(ctx, l, j);
      && (l'.done == l.done || (|l'.done| == |l.done| + 1 && l'.done[..|l.done|] == l.done))
      && l'.reports == l.reports +
        [Progress(ctx.slot, |l.done|, |ctx.entries|, l.res.bytesCopied, SizeSum(ctx.entries), j.entry.path)]
  {
  }

  /** Report k counts k files, and the bytes the first k outcomes copied. */
  lemma {:induction false} ReportsCountUp(ctx: Context, index: set<Hash>, finals: map<Place, Bytes>, policy: Policy,
                                          files: map<string, Bytes>, ios: seq<FileIo>, jobs: seq<Job>, k: nat)
    requires JobsFit(ctx, index, finals, policy, files, ios, jobs) && k < |jobs|
    ensures var l := Play(ctx, index, finals, jobs);
      && |jobs| == |l.reports| && |l.reports| <= |ctx.entries| && k <= |l.done| <= |ctx.entries|
      && l.reports[k] == ReportAt(ctx, l.done, k)
  {
    hide Advance, Decided, CopiedBytes, SizeSum;
    var n := |jobs| - 1;
    BytesOfPlay(ctx, index, finals, policy, files, ios, jobs);
    BytesOfPlay(ctx, index, finals, policy, files, ios, jobs[..n]);
    var before, l := Play(ctx, index, finals, jobs[..n]), Play(ctx, index, finals, jobs);
    AdvanceReports(ctx, before, jobs[n]);
    if k < n {
      ReportsCountUp(ctx, index, finals, policy, files, ios, jobs[..n], k);
      assert l.done[..k] == before.done[..k];
    } else {
      assert l.done[..n] == before.done;
    }
  }

  /** The reports of an ingest, the final one included when it ended without an error: they count 0, 1, 2, … up
      to the number of files scanned, and the bytes they show never decrease and never pass the total. */
  lemma ReportsNeverRunBackwards(ctx: Context, index: set<Hash>, finals: map<Place, Bytes>, policy: Policy,
                                 files: map<string, Bytes>, ios: seq<FileIo>, jobs: seq<Job>, l: Ledger, ok: bool,
                                 i: nat, k: nat)
    requires Played(ctx, index, finals, policy, files, ios, jobs, l) && (ok ==> !l.stopped && |l.done| == |ctx.entries|)
    requires i <= k < |l.reports + FinalReport(ctx.slot, ctx.entries, l.res, ok)|
    ensures var reports := l.reports + FinalReport(ctx.slot, ctx.entries, l.res, ok);
      && reports[i].filesDone == i && reports[k].filesDone == k <= reports[k].totalFiles == |ctx.entries|
      && reports[i].bytesDone <= reports[k].bytesDone <= l.res.bytesCopied <= SizeSum(ctx.entries)
      && reports[k].totalBytes == SizeSum(ctx.entries) && reports[k].slot == ctx.slot
      && (k < |l.reports| ==>
            && k <= |l.done| <= |ctx.entries| && k < |ctx.entries|
            && reports[k].bytesDone == CopiedBytes(ctx.entries, l.done[..k])
            && reports[k].current == ctx.entries[k].path)
      && (ok ==> reports[|reports| - 1].filesDone == |ctx.entries| && |reports| == |ctx.entries| + 1)
  {
    hide Play, JobsFit, CopiedBytes, SizeSum;
    BytesOfPlay(ctx, index, finals, policy, files, ios, jobs);
    BytesWithinTotal(ctx.entries, l.done);
    ReportsAre(ctx, index, finals, policy, files, ios, jobs, l);
    if i < |l.reports| { ProgressIsMonotone(ctx.entries, l.done, i); }
    if k < |l.reports| {
      ProgressIsMonotone(ctx.entries, l.done, k);
      assert l.done[..k][..i] == l.done[..i];
      ProgressIsMonotone(ctx.entries, l.done[..k], i);
    }
  }

  lemma ReportsAre(ctx: Context, index: set<Hash>, finals: map<Place, Bytes>, policy: Policy,
                   files: map<string, Bytes>, ios: seq<FileIo>, jobs: seq<Job>, l: Ledger)
    requires Played(ctx, index, finals, policy, files, ios, jobs, l)
    ensures |l.reports| == |jobs| && |l.reports| <= |ctx.entries| && |l.done| <= |ctx.entries|
    ensures forall k :: 0 <= k < |l.reports| ==> k <= |l.done| && l.reports[k] == ReportAt(ctx, l.done, k)
  {
    hide Play, JobsFit, CopiedBytes, SizeSum;
    BytesOfPlay(ctx, index, finals, policy, files, ios, jobs);
    forall k | 0 <= k < |jobs|
      ensures |jobs| == |l.reports| && |l.reports| <= |ctx.entries| && k <= |l.done| <= |ctx.entries|
      ensures l.reports[k] == ReportAt(ctx, l.done, k)
    {
      ReportsCountUp(ctx, index, finals, policy, files, ios, jobs, k);
    }
  }
}
