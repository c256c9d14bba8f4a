/** What one file and one whole ingest do, as functions of the outcomes of their I/O calls. */
module IngestSpec {
  import opened Domain
  import opened Protocol
  import opened ProtocolSafety
  import Rules
  import Categories

  datatype RenameIo = Renamed | RenameFailed(moved: bool)
  datatype RecordIo = Recorded | RecordFailed(stored: bool)

  /** What the world does while one file is handled. A call that fails may still have had its effect. */
  datatype FileIo = FileIo(
    alive: bool,                                          // not cancelled before this file
    tempDir: bool,
    open: bool, create: bool,
    copied: bool, arrived: Bytes,                         // io.Copy, and what it left in the temp file
    flush: bool,
    lookup: bool,
    readBack: bool,
    date: string,
    destDir: bool, rename: RenameIo,
    record: RecordIo,
    cleaned: bool)                                        // removing the temp file on a failure

  datatype CopyResult = Stored | Known | FileError | FatalError
  datatype StreamResult = Hashed(hash: Hash) | CardSide | DestSide

  predicate Streams(io: FileIo) { io.tempDir && io.open && io.create && io.copied && io.flush }

  /** The copy is complete, new to the index, and reads back with the card's hash. */
  predicate Verifies(cfg: Config, index: set<Hash>, bytes: Bytes, io: FileIo) {
    Streams(io) && io.lookup && cfg.hash(bytes) !in index && io.readBack && cfg.hash(io.arrived) == cfg.hash(bytes)
  }

  /** The rename takes effect, the hash is stored, all of it reports success. */
  predicate Moves(io: FileIo) { io.destDir && (io.rename.Renamed? || io.rename.moved) }
  predicate Records(io: FileIo) { io.destDir && io.rename.Renamed? && (io.record.Recorded? || io.record.stored) }
  predicate Succeeds(io: FileIo) { io.destDir && io.rename.Renamed? && io.record.Recorded? }

  predicate Lands(cfg: Config, index: set<Hash>, bytes: Bytes, io: FileIo) {
    Verifies(cfg, index, bytes, io) && Moves(io)
  }

  predicate CardSideError(cfg: Config, index: set<Hash>, bytes: Bytes, io: FileIo) {
    || (io.tempDir && (!io.open || (io.create && !io.copied)))
    || (Streams(io) && io.lookup && cfg.hash(bytes) !in index && io.readBack && cfg.hash(io.arrived) != cfg.hash(bytes))
  }

  /** How copyAndVerify ends. */
  function CopyOutcome(cfg: Config, index: set<Hash>, bytes: Bytes, io: FileIo): CopyResult {
    if Verifies(cfg, index, bytes, io) && Succeeds(io) then Stored
    else if Streams(io) && io.lookup && cfg.hash(bytes) in index then Known
    else if CardSideError(cfg, index, bytes, io) then FileError
    else FatalError
  }

  /** The index afterwards: the hash enters only behind a completed rename. */
  function IndexAfter(cfg: Config, index: set<Hash>, bytes: Bytes, io: FileIo): set<Hash> {
    if Verifies(cfg, index, bytes, io) && Records(io) then index + {cfg.hash(bytes)} else index
  }

  function OutcomeOf(r: CopyResult): Outcome
    requires !r.FatalError?
  {
    match r case Stored => Copied case Known => Deduped case FileError => Failed
  }

  /** What an attempt to copy a file may end in, call by call: a failing call on the destination or the index
      ends the whole ingest, while a card that cannot be read, and a copy that reads back different, cost this
      file only. The copy call itself counts as the card's. */
  lemma OutcomeIs(cfg: Config, index: set<Hash>, bytes: Bytes, io: FileIo)
    ensures CopyOutcome(cfg, index, bytes, io).FatalError? <==> !CallsHeld(cfg, index, bytes, io)
    ensures CopyOutcome(cfg, index, bytes, io).FileError? <==>
      && io.tempDir
      && (|| !io.open || (io.create && !io.copied)
          || (&& io.create && io.flush && io.lookup && cfg.hash(bytes) !in index
              && io.readBack && cfg.hash(io.arrived) != cfg.hash(bytes)))
    ensures CopyOutcome(cfg, index, bytes, io).Known? <==>
      io.tempDir && io.open && io.create && io.copied && io.flush && io.lookup && cfg.hash(bytes) in index
    ensures CopyOutcome(cfg, index, bytes, io).Stored? <==>
      && io.tempDir && io.open && io.create && io.copied && io.flush && io.lookup && cfg.hash(bytes) !in index
      && io.readBack && cfg.hash(io.arrived) == cfg.hash(bytes)
      && io.destDir && io.rename == Renamed && io.record == Recorded
  {
  }

  /** When bytes reach the final area and when a hash reaches the index, call by call. */
  lemma LandsIs(cfg: Config, index: set<Hash>, bytes: Bytes, io: FileIo)
    ensures var verified :=
        && io.tempDir && io.open && io.create && io.copied && io.flush && io.lookup && cfg.hash(bytes) !in index
        && io.readBack && cfg.hash(io.arrived) == cfg.hash(bytes);
      && (Lands(cfg, index, bytes, io) <==> verified && io.destDir && io.rename != RenameFailed(false))
      && IndexAfter(cfg, index, bytes, io) ==
           if verified && io.destDir && io.rename == Renamed && io.record != RecordFailed(false)
           then index + {cfg.hash(bytes)} else index
  {
  }

  /** Every call on the destination and on the index that is made for this file reports success. */
  predicate CallsHeld(cfg: Config, index: set<Hash>, bytes: Bytes, io: FileIo) {
    && io.tempDir
    && (io.open ==> io.create)
    && (io.open && io.copied ==>
          && io.flush && io.lookup
          && (cfg.hash(bytes) !in index ==>
                && io.readBack
                && (cfg.hash(io.arrived) == cfg.hash(bytes) ==>
                      io.destDir && io.rename == Renamed && io.record == Recorded)))
  }

  // ---------- a whole ingest ----------

  datatype Result = Result(copied: nat, deduped: nat, skipped: nat, failed: nat, bytesCopied: nat,
                           byCategory: map<string, nat>,
                           verified: seq<string>, skippedPath: seq<string>, failedPath: seq<string>)

  datatype Progress = Progress(slot: Slot, filesDone: nat, totalFiles: nat, bytesDone: nat, totalBytes: nat,
                               current: string)

  function Paths(entries: seq<Rules.Entry>): (paths: seq<string>)
    ensures |paths| == |entries| && forall i :: 0 <= i < |entries| ==> paths[i] == entries[i].path
  {
    seq(|entries|, i requires 0 <= i < |entries| => entries[i].path)
  }

  function SizeSum(entries: seq<Rules.Entry>): nat {
    if entries == [] then 0 else SizeSum(entries[..|entries| - 1]) + entries[|entries| - 1].size
  }

  /** The sizes of the files a list of outcomes reports as copied. */
  function CopiedBytes(entries: seq<Rules.Entry>, done: seq<Outcome>): nat
    requires |done| <= |entries|
  {
    if done == [] then 0 else
      var k := |done| - 1;
      CopiedBytes(entries, done[..k]) + if done[k].Copied? then entries[k].size else 0
  }

  /** The counters of a map are the multiplicities of a list of names. */
  ghost predicate Tally(m: map<string, nat>, names: seq<string>) {
    forall c :: (if c in m then m[c] else 0) == multiset(names)[c]
  }

  /** A result says what a list of outcomes says; landed names the category of each verified file. */
  ghost predicate Reflects(res: Result, entries: seq<Rules.Entry>, done: seq<Outcome>, landed: seq<string>)
    requires |done| <= |entries|
  {
    && res.verified == Pick(Paths(entries), done, VERIFIED)
    && res.skippedPath == Pick(Paths(entries), done, {Skipped})
    && res.failedPath == Pick(Paths(entries), done, {Failed})
    && res.copied == |Pick(Paths(entries), done, {Copied})|
    && res.deduped == |Pick(Paths(entries), done, {Deduped})|
    && res.skipped == |res.skippedPath|
    && res.failed == |res.failedPath|
    && res.bytesCopied == CopiedBytes(entries, done)
    && |landed| == |res.verified| && Tally(res.byCategory, landed)
  }

  function Bump(m: map<string, nat>, c: string): map<string, nat> {
    m[c := (if c in m then m[c] else 0) + 1]
  }

  lemma {:induction false} PickNext(scan: seq<string>, done: seq<Outcome>, o: Outcome, wanted: set<Outcome>)
    requires |done| < |scan|
    ensures Pick(scan, done + [o], wanted) ==
      if o in wanted then Pick(scan, done, wanted) + [scan[|done|]] else Pick(scan, done, wanted)
  {
    assert (done + [o])[..|done|] == done;
    assert Pick(scan, done, wanted) + [] == Pick(scan, done, wanted);
  }

  /** The result after one more outcome, as the loop of Ingest updates it. */
  function Count(res: Result, e: Rules.Entry, o: Outcome, category: string): Result {
    match o
    case Copied => res.(copied := res.copied + 1, bytesCopied := res.bytesCopied + e.size,
                        byCategory := Bump(res.byCategory, category), verified := res.verified + [e.path])
    case Deduped => res.(deduped := res.deduped + 1,
                         byCategory := Bump(res.byCategory, category), verified := res.verified + [e.path])
    case Skipped => res.(skipped := res.skipped + 1, skippedPath := res.skippedPath + [e.path])
    case Failed => res.(failed := res.failed + 1, failedPath := res.failedPath + [e.path])
  }

  lemma TallyNext(m: map<string, nat>, names: seq<string>, c: string)
    requires Tally(m, names)
    ensures Tally(Bump(m, c), names + [c])
  {
    assert multiset(names + [c]) == multiset(names) + multiset{c};
  }

  lemma {:induction false} BytesNext(entries: seq<Rules.Entry>, done: seq<Outcome>, o: Outcome)
    requires |done| < |entries|
    ensures CopiedBytes(entries, done + [o]) ==
      CopiedBytes(entries, done) + if o.Copied? then entries[|done|].size else 0
  {
    assert (done + [o])[..|done|] == done;
  }

  lemma ReflectsNext(res: Result, entries: seq<Rules.Entry>, done: seq<Outcome>, landed: seq<string>, o: Outcome,
                     category: string)
    requires |done| < |entries| && Reflects(res, entries, done, landed)
    ensures Reflects(Count(res, entries[|done|], o, category), entries, done + [o],
                     if o in VERIFIED then landed + [category] else landed)
  {
    hide Pick, Bump, Tally, CopiedBytes, Paths;
    var scan := Paths(entries);
    assert scan[|done|] == entries[|done|].path;
    PickNext(scan, done, o, VERIFIED);
    PickNext(scan, done, o, {Skipped});
    PickNext(scan, done, o, {Failed});
    PickNext(scan, done, o, {Copied});
    PickNext(scan, done, o, {Deduped});
    BytesNext(entries, done, o);
    TallyNext(res.byCategory, landed, category);
  }

  function ByOutcome(scan: seq<string>, done: seq<Outcome>, o: Outcome): seq<string>
    requires |done| <= |scan|
  {
    Pick(scan, done, {o})
  }

  lemma {:induction false} CountsAddUp(scan: seq<string>, done: seq<Outcome>)
    requires |done| <= |scan|
    ensures |ByOutcome(scan, done, Copied)| + |ByOutcome(scan, done, Deduped)| + |ByOutcome(scan, done, Skipped)| +
            |ByOutcome(scan, done, Failed)| == |done|
    ensures |Pick(scan, done, VERIFIED)| == |ByOutcome(scan, done, Copied)| + |ByOutcome(scan, done, Deduped)|
  {
    if done != [] {
      var k := |done| - 1;
      CountsAddUp(scan, done[..k]);
      match done[k] case Copied => case Deduped => case Skipped => case Failed =>
    }
  }

  lemma ByOutcomeHas(scan: seq<string>, done: seq<Outcome>, o: Outcome, p: string)
    requires |done| <= |scan|
    ensures p in ByOutcome(scan, done, o) <==> exists i :: 0 <= i < |done| && done[i] == o && scan[i] == p
  {
    PickHas(scan, done, {o}, p);
  }

  lemma {:induction false} VerifiedHas(scan: seq<string>, done: seq<Outcome>, p: string)
    requires |done| <= |scan|
    ensures p in Pick(scan, done, VERIFIED) <==>
            p in ByOutcome(scan, done, Copied) || p in ByOutcome(scan, done, Deduped)
  {
    PickHas(scan, done, VERIFIED, p);
    ByOutcomeHas(scan, done, Copied, p);
    ByOutcomeHas(scan, done, Deduped, p);
  }

  /** When no path is scanned twice, the four selections partition the files handled: each of those is in exactly
      one of them, none is in one of them twice, and nothing else is in any. The verified files are the first two. */
  lemma {:induction false} OutcomesPartition(scan: seq<string>, done: seq<Outcome>)
    requires |done| <= |scan| && Distinct(scan)
    ensures forall p :: p in scan[..|done|] <==> exists o :: p in ByOutcome(scan, done, o)
    ensures forall o1, o2, p :: p in ByOutcome(scan, done, o1) && p in ByOutcome(scan, done, o2) ==> o1 == o2
    ensures forall o :: Distinct(ByOutcome(scan, done, o))
    ensures forall p :: p in Pick(scan, done, VERIFIED) <==>
                        p in ByOutcome(scan, done, Copied) || p in ByOutcome(scan, done, Deduped)
  {
    forall o, p ensures p in ByOutcome(scan, done, o) <==> exists i :: 0 <= i < |done| && done[i] == o && scan[i] == p {
      ByOutcomeHas(scan, done, o, p);
    }
    forall o ensures Distinct(ByOutcome(scan, done, o)) { PickDistinct(scan, done, {o}); }
    forall p ensures p in Pick(scan, done, VERIFIED) <==>
                     p in ByOutcome(scan, done, Copied) || p in ByOutcome(scan, done, Deduped)
    {
      VerifiedHas(scan, done, p);
    }
    hide Pick, ByOutcome;
    forall p | p in scan[..|done|] ensures exists o :: p in ByOutcome(scan, done, o) {
      var i :| 0 <= i < |done| && scan[i] == p;
      assert p in ByOutcome(scan, done, done[i]);
    }
    forall o, p | p in ByOutcome(scan, done, o) ensures p in scan[..|done|] {
      var i :| 0 <= i < |done| && done[i] == o && scan[i] == p;
      assert scan[..|done|][i] == p;
    }
  }

  /** Progress never runs backwards and never past the total. */
  lemma {:induction false} ProgressIsMonotone(entries: seq<Rules.Entry>, done: seq<Outcome>, i: nat)
    requires i <= |done| <= |entries|
    ensures CopiedBytes(entries, done[..i]) <= CopiedBytes(entries, done) <= SizeSum(entries)
  {
    BytesWithinTotal(entries, done);
    if i == |done| {
      assert done[..i] == done;
    } else {
      ProgressIsMonotone(entries, done[..|done| - 1], i);
      assert done[..|done| - 1][..i] == done[..i];
    }
  }

  lemma {:induction false} BytesWithinTotal(entries: seq<Rules.Entry>, done: seq<Outcome>)
    requires |done| <= |entries|
    ensures CopiedBytes(entries, done) <= SizeSum(entries)
    decreases |entries|
  {
    if entries != [] {
      var n := |entries| - 1;
      var upto := if |done| <= n then done else done[..n];
      BytesWithinTotal(entries[..n], upto);
      SameBytes(entries, n, upto);
    }
  }

  lemma {:induction false} SameBytes(entries: seq<Rules.Entry>, n: nat, done: seq<Outcome>)
    requires |done| <= n <= |entries|
    ensures CopiedBytes(entries[..n], done) == CopiedBytes(entries, done)
  {
    if done != [] { SameBytes(entries, n, done[..|done| - 1]); }
  }

  // ---------- a sequence of files ----------

  /** A file to ingest: the category it was put in (None when skipped), its bytes, and its I/O. */
  datatype Job = Job(entry: Rules.Entry, bytes: Bytes, category: Option<string>, io: FileIo)

  datatype Policy = Policy(lib: Rules.Lib, engine: Rules.Engine, cats: Categories.Cats)

  /** What stays fixed during one ingest. */
  datatype Context = Context(cfg: Config, dirOf: (string, string) -> string, slot: Slot, entries: seq<Rules.Entry>)

  /** What an ingest has done so far; stopped tells that a fatal error ended it. */
  datatype Ledger = Ledger(index: set<Hash>, finals: map<Place, Bytes>, done: seq<Outcome>, res: Result,
                           reports: seq<Progress>, stopped: bool)

  const NOTHING: Result := Result(0, 0, 0, 0, 0, map[], [], [], [])

  /** What becomes of a file with this decision; None when a fatal error ends the ingest. */
  function JobOutcome(cfg: Config, index: set<Hash>, category: Option<string>, bytes: Bytes, io: FileIo)
    : Option<Outcome>
  {
    if category.None? then Some(Skipped)
    else
      var r := CopyOutcome(cfg, index, bytes, io);
      if r.FatalError? then None else Some(OutcomeOf(r))
  }

  /** The report that follows a whole scan. */
  function FinalReport(slot: Slot, entries: seq<Rules.Entry>, res: Result, ok: bool): seq<Progress> {
    if ok then [Progress(slot, |entries|, |entries|, res.bytesCopied, SizeSum(entries), "")] else []
  }

  function CategoryName(j: Job): string { if j.category.Some? then j.category.value else "" }

  /** One file: report, decide, copy, count. */
  function Advance(ctx: Context, l: Ledger, j: Job): Ledger {
    var reported := l.(reports := l.reports +
      [Progress(ctx.slot, |l.done|, |ctx.entries|, l.res.bytesCopied, SizeSum(ctx.entries), j.entry.path)]);
    var copied := if j.category.None? then reported else
      var at := Place(ctx.dirOf(j.category.value, j.io.date), Base(j.entry.path));
      reported.(index := IndexAfter(ctx.cfg, l.index, j.bytes, j.io),
                finals := if Lands(ctx.cfg, l.index, j.bytes, j.io) then l.finals[at := j.io.arrived] else l.finals);
    match JobOutcome(ctx.cfg, l.index, j.category, j.bytes, j.io)
    case None => copied.(stopped := true)
    case Some(o) => copied.(done := l.done + [o], res := Count(l.res, j.entry, o, CategoryName(j)))
  }

  function Play(ctx: Context, index: set<Hash>, finals: map<Place, Bytes>, jobs: seq<Job>): Ledger {
    if jobs == [] then Ledger(index, finals, [], NOTHING, [], false)
    else Advance(ctx, Play(ctx, index, finals, jobs[..|jobs| - 1]), jobs[|jobs| - 1])
  }

  /** The category decision for a file: rules first, then the categories in some visiting order. */
  ghost predicate Decided(policy: Policy, e: Rules.Entry, category: Option<string>) {
    if Rules.Decide(policy.lib, policy.engine, e) == Rules.Skip then category.None?
    else exists order :: Categories.IsOrder(order, policy.cats.Keys) &&
           category == Categories.CategorizeIn(policy.lib, policy.cats, order,
                                               policy.lib.lower(policy.lib.ext(e.path)), "")
  }

  /** The jobs are the first scanned files, in order, with decisions the policy allows, none after a
      cancellation or a fatal error. */
  ghost predicate JobsFit(ctx: Context, index: set<Hash>, finals: map<Place, Bytes>, policy: Policy,
                          files: map<string, Bytes>, ios: seq<FileIo>, jobs: seq<Job>)
  {
    jobs == [] ||
    var k := |jobs| - 1;
    var j := jobs[k];
    && JobsFit(ctx, index, finals, policy, files, ios, jobs[..k])
    && k < |ctx.entries| == |ios| && ios[k].alive && !Play(ctx, index, finals, jobs[..k]).stopped
    && j.entry == ctx.entries[k] && j.entry.path in files && j.bytes == files[j.entry.path] && j.io == ios[k]
    && Decided(policy, j.entry, j.category)
  }

  /** The jobs fit and lead to this ledger. */
  ghost predicate Played(ctx: Context, index: set<Hash>, finals: map<Place, Bytes>, policy: Policy,
                         files: map<string, Bytes>, ios: seq<FileIo>, jobs: seq<Job>, l: Ledger)
  {
    JobsFit(ctx, index, finals, policy, files, ios, jobs) && l == Play(ctx, index, finals, jobs)
  }

  /** The job for scanned file k leads from one ledger to the next. */
  ghost predicate Turned(ctx: Context, policy: Policy, files: map<string, Bytes>, ios: seq<FileIo>, k: nat, l: Ledger,
                         j: Job, l': Ledger) {
    && l' == Advance(ctx, l, j)
      && k < |ctx.entries| == |ios| && j.entry == ctx.entries[k] && j.io == ios[k]
      && j.entry.path in files && j.bytes == files[j.entry.path] && Decided(policy, j.entry, j.category)
  }

  lemma PlayedNone(ctx: Context, index: set<Hash>, finals: map<Place, Bytes>, policy: Policy,
                   files: map<string, Bytes>, ios: seq<FileIo>)
    ensures Played(ctx, index, finals, policy, files, ios, [], Ledger(index, finals, [], NOTHING, [], false))
  {
  }

  lemma PlayedNext(ctx: Context, index: set<Hash>, finals: map<Place, Bytes>, policy: Policy, files: map<string, Bytes>,
                   ios: seq<FileIo>, jobs: seq<Job>, l: Ledger, j: Job, l': Ledger)
    requires Played(ctx, index, finals, policy, files, ios, jobs, l) && !l.stopped
    requires |jobs| < |ios| && ios[|jobs|].alive
    requires Turned(ctx, policy, files, ios, |jobs|, l, j, l')
    ensures Played(ctx, index, finals, policy, files, ios, jobs + [j], l')
  {
    assert (jobs + [j])[..|jobs|] == jobs;
  }

  // ---------- what the ledger of any ingest satisfies ----------

  ghost function LandedNames(jobs: seq<Job>, done: seq<Outcome>): seq<string>
    requires |done| <= |jobs|
  {
    if done == [] then [] else
      var k := |done| - 1;
      LandedNames(jobs, done[..k]) + if done[k] in VERIFIED then [CategoryName(jobs[k])] else []
  }

  lemma {:induction false} LandedNamesPrefix(jobs: seq<Job>, n: nat, done: seq<Outcome>)
    requires |done| <= n <= |jobs|
    ensures LandedNames(jobs[..n], done) == LandedNames(jobs, done)
  {
    if done != [] { LandedNamesPrefix(jobs, n, done[..|done| - 1]); }
  }

  lemma {:induction false} LandedNamesNext(jobs: seq<Job>, done: seq<Outcome>, o: Outcome)
    requires jobs != [] && |done| == |jobs| - 1
    ensures LandedNames(jobs, done + [o]) ==
      var before := LandedNames(jobs[..|jobs| - 1], done);
      if o in VERIFIED then before + [CategoryName(jobs[|jobs| - 1])] else before
  {
    LandedNamesPrefix(jobs, |jobs| - 1, done);
    assert (done + [o])[..|done|] == done;
  }

  /** What one more file does to a running ingest's outcomes, reports and result. */
  lemma AdvanceReflects(ctx: Context, l: Ledger, j: Job, landed: seq<string>)
    requires !l.stopped && |l.done| < |ctx.entries| && j.entry == ctx.entries[|l.done|]
    requires Reflects(l.res, ctx.entries, l.done, landed)
    ensures var l', outcome := Advance(ctx, l, j), JobOutcome(ctx.cfg, l.index, j.category, j.bytes, j.io);
      && |l'.reports| == |l.reports| + 1 && (l'.stopped <==> outcome.None?)
      && l'.done == (if outcome.None? then l.done else l.done + [outcome.value])
      && (outcome.None? ==> l'.res == l.res)
      && (outcome.Some? ==>
            var names := if outcome.value in VERIFIED then landed + [CategoryName(j)] else landed;
            Reflects(l'.res, ctx.entries, l'.done, names))
  {
    hide IndexAfter, Lands, CopyOutcome, Reflects, SizeSum;
    var o := JobOutcome(ctx.cfg, l.index, j.category, j.bytes, j.io);
    if o.Some? { ReflectsNext(l.res, ctx.entries, l.done, landed, o.value, CategoryName(j)); }
  }

  lemma {:induction false} NothingReflects(entries: seq<Rules.Entry>)
    ensures Reflects(NOTHING, entries, [], [])
  {
  }

  /** The result always says what the outcomes say, file by file. */
  lemma {:induction false} ResultReflectsOutcomes(ctx: Context, index: set<Hash>, finals: map<Place, Bytes>,
                                                  policy: Policy, files: map<string, Bytes>, ios: seq<FileIo>,
                                                  jobs: seq<Job>)
    requires JobsFit(ctx, index, finals, policy, files, ios, jobs)
    ensures var l := Play(ctx, index, finals, jobs);
      && |l.done| == |jobs| - (if l.stopped then 1 else 0) && |jobs| <= |ctx.entries| && |l.reports| == |jobs|
      && Reflects(l.res, ctx.entries, l.done, LandedNames(jobs, l.done))
  {
    hide Advance, JobOutcome, Reflects, Decided;
    NothingReflects(ctx.entries);
    if jobs != [] {
      var k := |jobs| - 1;
      ResultReflectsOutcomes(ctx, index, finals, policy, files, ios, jobs[..k]);
      var before, l := Play(ctx, index, finals, jobs[..k]), Play(ctx, index, finals, jobs);
      AdvanceReflects(ctx, before, jobs[k], LandedNames(jobs[..k], before.done));
      if l.stopped {
        LandedNamesPrefix(jobs, k, l.done);
      } else {
        LandedNamesNext(jobs, before.done, l.done[k]);
      }
    }
  }

  lemma {:induction false} BytesOfPlay(ctx: Context, index: set<Hash>, finals: map<Place, Bytes>, policy: Policy,
                    files: map<string, Bytes>, ios: seq<FileIo>, jobs: seq<Job>)
    requires JobsFit(ctx, index, finals, policy, files, ios, jobs)
    ensures var l := Play(ctx, index, finals, jobs);
      && |l.done| == |jobs| - (if l.stopped then 1 else 0) && |jobs| <= |ctx.entries| && |l.reports| == |jobs|
      && l.res.bytesCopied == CopiedBytes(ctx.entries, l.done)
  {
    ResultReflectsOutcomes(ctx, index, finals, policy, files, ios, jobs);
  }

  lemma {:induction false} ResultOfPlayed(ctx: Context, index: set<Hash>, finals: map<Place, Bytes>, policy: Policy,
                       files: map<string, Bytes>, ios: seq<FileIo>, jobs: seq<Job>, l: Ledger)
    requires Played(ctx, index, finals, policy, files, ios, jobs, l)
    ensures |l.done| <= |jobs| <= |ctx.entries| && Reflects(l.res, ctx.entries, l.done, LandedNames(jobs, l.done))
  {
    ResultReflectsOutcomes(ctx, index, finals, policy, files, ios, jobs);
  }

  // ---------- file by file ----------

  /** What job k was, and what became of it. */
  lemma {:induction false} HandledAt(ctx: Context, index: set<Hash>, finals: map<Place, Bytes>, policy: Policy,
                                     files: map<string, Bytes>, ios: seq<FileIo>, jobs: seq<Job>, k: nat)
    requires JobsFit(ctx, index, finals, policy, files, ios, jobs) && k < |jobs|
    ensures |jobs| <= |ctx.entries| == |ios|
    ensures var j := jobs[k];
      && j.entry == ctx.entries[k] && j.io == ios[k] && ios[k].alive
      && j.entry.path in files && j.bytes == files[j.entry.path] && Decided(policy, j.entry, j.category)
    ensures var before, l := Play(ctx, index, finals, jobs[..k]), Play(ctx, index, finals, jobs);
      var o := JobOutcome(ctx.cfg, before.index, jobs[k].category, jobs[k].bytes, jobs[k].io);
      if o.None? then l.stopped && |l.done| == k && k == |jobs| - 1 else k < |l.done| && l.done[k] == o.value
  {
    hide Advance, JobOutcome, Decided, Reflects, LandedNames;
    var n := |jobs| - 1;
    ResultReflectsOutcomes(ctx, index, finals, policy, files, ios, jobs);
    ResultReflectsOutcomes(ctx, index, finals, policy, files, ios, jobs[..n]);
    AdvanceDone(ctx, Play(ctx, index, finals, jobs[..n]), jobs[n]);
    if k < n {
      HandledAt(ctx, index, finals, policy, files, ios, jobs[..n], k);
      assert jobs[..n][..k] == jobs[..k];
    }
  }

  lemma AdvanceDone(ctx: Context, l: Ledger, j: Job)
    requires !l.stopped
    ensures var l', o := Advance(ctx, l, j), JobOutcome(ctx.cfg, l.index, j.category, j.bytes, j.io);
      && (l'.stopped <==> o.None?)
      && l'.done == if o.None? then l.done else l.done + [o.value]
  {
  }

  /** Of every ingest, file by file: the rules and the categories are obeyed, a failing call on the destination
      or the index ends the ingest with that file, and otherwise the calls alone decide what became of it. */
  lemma {:induction false} EveryFileIsHandled(ctx: Context, index: set<Hash>, finals: map<Place, Bytes>, policy: Policy,
                           files: map<string, Bytes>, ios: seq<FileIo>, jobs: seq<Job>, l: Ledger, k: nat)
    requires Played(ctx, index, finals, policy, files, ios, jobs, l) && k < |jobs|
    ensures |jobs| <= |ctx.entries| == |ios| && ios[k].alive && ctx.entries[k].path in files
    ensures var kept := Rules.Decide(policy.lib, policy.engine, ctx.entries[k]) == Rules.Keep;
      && (!kept ==> jobs[k].category.None?)
      && (kept ==> Categories.Legit(policy.lib, policy.cats, policy.lib.lower(policy.lib.ext(ctx.entries[k].path)),
                                    jobs[k].category))
      && (k < |l.done| ==> (l.done[k] == Skipped <==> !kept || jobs[k].category == None))
    ensures var known, bytes, io :=
        Play(ctx, index, finals, jobs[..k]).index, files[ctx.entries[k].path], ios[k];
      && (jobs[k].category == None ==> k < |l.done|)
      && (jobs[k].category != None ==> (k < |l.done| <==> CallsHeld(ctx.cfg, known, bytes, io)))
      && (k >= |l.done| ==> l.stopped && k == |jobs| - 1)
      && (jobs[k].category != None && k < |l.done| ==>
            && (l.done[k] == Deduped <==> io.open && io.copied && ctx.cfg.hash(bytes) in known)
            && (l.done[k] == Copied <==> io.open && io.copied && ctx.cfg.hash(bytes) !in known &&
                                         ctx.cfg.hash(io.arrived) == ctx.cfg.hash(bytes)))
  {
    HandledAt(ctx, index, finals, policy, files, ios, jobs, k);
    var j := jobs[k];
    if Rules.Decide(policy.lib, policy.engine, ctx.entries[k]) == Rules.Keep {
      CategoryIsLegit(policy, j.entry, j.category);
    }
    OutcomeIs(ctx.cfg, Play(ctx, index, finals, jobs[..k]).index, j.bytes, j.io);
    hide CopyOutcome, Play, JobsFit, Categories.Legit;
  }

  lemma CategoryIsLegit(policy: Policy, e: Rules.Entry, category: Option<string>)
    requires Decided(policy, e, category) && Rules.Decide(policy.lib, policy.engine, e) == Rules.Keep
    ensures Categories.Legit(policy.lib, policy.cats, policy.lib.lower(policy.lib.ext(e.path)), category)
  {
    var ext := policy.lib.lower(policy.lib.ext(e.path));
    var order :| Categories.IsOrder(order, policy.cats.Keys) &&
                 category == Categories.CategorizeIn(policy.lib, policy.cats, order, ext, "");
    Categories.CategorizeIsLegit(policy.lib, policy.cats, order, ext);
  }

  /** Files were skipped exactly where the rules say so or no category takes them, and an ingest of the whole card
      that did not stop met no failing call on the destination or the index and no cancellation. */
  lemma {:induction false} IngestObeys(ctx: Context, index: set<Hash>, finals: map<Place, Bytes>, policy: Policy,
                    files: map<string, Bytes>, ios: seq<FileIo>, jobs: seq<Job>, l: Ledger)
    requires Played(ctx, index, finals, policy, files, ios, jobs, l)
    ensures |l.done| <= |jobs| <= |ctx.entries| && |jobs| <= |ios|
    ensures forall k :: 0 <= k < |l.done| ==>
      (l.done[k] == Skipped <==>
       Rules.Decide(policy.lib, policy.engine, ctx.entries[k]) == Rules.Skip || jobs[k].category == None)
    ensures forall k :: 0 <= k < |jobs| ==> ios[k].alive && ctx.entries[k].path in files
    ensures !l.stopped ==> forall k :: 0 <= k < |jobs| && jobs[k].category != None ==>
      CallsHeld(ctx.cfg, Play(ctx, index, finals, jobs[..k]).index, files[ctx.entries[k].path], ios[k])
  {
    hide Play, CallsHeld, Categories.Legit;
    LengthsOfPlayed(ctx, index, finals, policy, files, ios, jobs, l);
    forall k | 0 <= k < |jobs|
      ensures ios[k].alive && ctx.entries[k].path in files
      ensures k < |l.done| ==>
        (l.done[k] == Skipped <==>
         Rules.Decide(policy.lib, policy.engine, ctx.entries[k]) == Rules.Skip || jobs[k].category == None)
      ensures !l.stopped && jobs[k].category != None ==>
        CallsHeld(ctx.cfg, Play(ctx, index, finals, jobs[..k]).index, files[ctx.entries[k].path], ios[k])
    {
      EveryFileIsHandled(ctx, index, finals, policy, files, ios, jobs, l, k);
    }
  }

  lemma LengthsOfPlayed(ctx: Context, index: set<Hash>, finals: map<Place, Bytes>, policy: Policy,
                        files: map<string, Bytes>, ios: seq<FileIo>, jobs: seq<Job>, l: Ledger)
    requires Played(ctx, index, finals, policy, files, ios, jobs, l)
    ensures |l.done| <= |jobs| <= |ctx.entries| && |jobs| <= |ios|
  {
    ResultReflectsOutcomes(ctx, index, finals, policy, files, ios, jobs);
  }
}
