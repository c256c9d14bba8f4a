/** Whether a file erased as verified is still on the destination, over every run of any number of slots and any
    sequence of cards: the condition a stock of files and their destination names has to meet. */
module Stock {
  import opened Domain
  import opened Protocol
  import opened ProtocolSafety
  import opened Interleaving

  /** A file some card may hold, and a place that category, date and name give it. */
  datatype Kept = Kept(path: string, bytes: Bytes, at: Place)

  /** No two contents of the stock have one hash. */
  ghost predicate Injective(cfg: Config, stock: iset<Kept>) { forall x :: x in stock ==> Clear(cfg, stock, x.bytes) }

  /** These bytes have the hash of a content of the stock only if they are that content. */
  ghost predicate Clear(cfg: Config, stock: iset<Kept>, b: Bytes) {
    forall x :: x in stock && cfg.hash(x.bytes) == cfg.hash(b) ==> x.bytes == b
  }

  // ---------- runs over a stock ----------

  /** Any slot, any card, any failure; but only files of the stock are renamed into place, to a place they have
      there, and nothing on a card, sent or landed collides with a content of the stock. */
  ghost predicate Drawn(cfg: Config, stock: iset<Kept>, s: System, a: Action)
    requires Enabled(cfg, s, a)
  {
    match a
    case Crash => true
    case Insert(_, _, files) => forall p :: p in files ==> Clear(cfg, stock, files[p])
    case Do(slot, move) =>
      match move
      case Scribble(junk) => Clear(cfg, stock, junk)
      case Stream(landed) => Clear(cfg, stock, landed)
      case Rename(at) =>
        var w := s.workers[slot];
        var path := w.scan[|w.done|];
        Kept(path, w.files[path], at) in stock
      case _ => true
  }

  ghost predicate DrawnRun(cfg: Config, stock: iset<Kept>, s: System, run: seq<Action>) {
    run == [] ||
    var k := |run| - 1;
    && DrawnRun(cfg, stock, s, run[..k])
    && After(cfg, s, run[..k]).Some?
    && Enabled(cfg, After(cfg, s, run[..k]).value, run[k])
    && Drawn(cfg, stock, After(cfg, s, run[..k]).value, run[k])
  }

  /** Such a run that leads from a fresh start to this state. */
  ghost predicate Draws(cfg: Config, stock: iset<Kept>, s: System, run: seq<Action>, t: System) {
    Reaches(cfg, s, run, t) && DrawnRun(cfg, stock, s, run)
  }

  // ---------- the condition ----------

  /** Whatever of the stock lands at this place has these bytes. */
  ghost predicate Reserved(stock: iset<Kept>, at: Place, b: Bytes) {
    forall y :: y in stock && y.at == at ==> y.bytes == b
  }

  /** The file's own place is reserved for its bytes, or a place where the destination held them from the start. */
  ghost predicate Anchored(stock: iset<Kept>, finals: map<Place, Bytes>, x: Kept) {
    Reserved(stock, x.at, x.bytes) || exists at :: at in finals && finals[at] == x.bytes && Reserved(stock, at, x.bytes)
  }

  // ---------- what every step keeps ----------

  /** Placements put files of the stock, unchanged, where they belong; erasures collide with none, and erase
      verified files only when that is asked for. */
  ghost predicate EntryFits(cfg: Config, stock: iset<Kept>, e: Event) {
    match e
    case Placed(at, bytes, _) => exists p :: Kept(p, bytes, at) in stock
    case Indexed(_) => true
    case Erased(_, _, bytes, verified) => Clear(cfg, stock, bytes) && (verified ==> cfg.eraseIngested)
  }

  ghost predicate Fits(cfg: Config, stock: iset<Kept>, s: System) {
    && (forall name :: name in s.temps ==> Clear(cfg, stock, s.temps[name]))
    && (forall slot, p :: slot in s.workers && p in s.workers[slot].files ==>
        Clear(cfg, stock, s.workers[slot].files[p]))
    && (forall k :: 0 <= k < |s.log| ==> EntryFits(cfg, stock, s.log[k]))
  }

  lemma PlannedOnlyIfAsked(cfg: Config, w: Worker, p: string)
    requires WholeScan(w.scan, w.files) && |w.done| <= |w.scan| && p in Plan(cfg, w) && p in Verified(w)
    ensures cfg.eraseIngested
  {
    PickHas(w.scan, w.done, VERIFIED, p);
    PickHas(w.scan, w.done, {Skipped}, p);
  }

  lemma EffectFits(cfg: Config, stock: iset<Kept>, s: System, slot: Slot, move: Move, e: Event)
    requires slot in s.workers && WorkerOk(cfg, s, slot, s.workers[slot]) && Fits(cfg, stock, s)
    requires CanMove(cfg, s, slot, s.workers[slot], move) && Drawn(cfg, stock, s, Do(slot, move))
    requires Effect(cfg, s, slot, s.workers[slot], move) == Some(e)
    ensures EntryFits(cfg, stock, e)
  {
    hide TempName, Plan, Verified, Spared, Vouched;
    if move.Erase? && e.verified { PlannedOnlyIfAsked(cfg, s.workers[slot], e.path); }
    if move.Rename? {
      var w := s.workers[slot];
      var path := w.scan[|w.done|];
      assert Kept(path, w.files[path], move.at) in stock;
      assert Clear(cfg, stock, e.bytes) && cfg.hash(e.bytes) == cfg.hash(w.files[path]);
    }
  }

  lemma TempsFit(cfg: Config, stock: iset<Kept>, s: System, slot: Slot, move: Move)
    requires slot in s.workers && CanMove(cfg, s, slot, s.workers[slot], move) && Fits(cfg, stock, s)
    requires Drawn(cfg, stock, s, Do(slot, move))
    ensures var t := Step(cfg, s, Do(slot, move)); forall name :: name in t.temps ==> Clear(cfg, stock, t.temps[name])
  {
    hide TempName, Plan, Clear, EntryFits, Moved, Effect;
  }

  lemma MoveKeepsFiles(cfg: Config, s: System, slot: Slot, w: Worker, move: Move)
    requires CanMove(cfg, s, slot, w, move) && Moved(cfg, s, slot, w, move).Some?
    ensures Moved(cfg, s, slot, w, move).value.files == w.files
  {
    hide TempName, Plan;
  }

  lemma FilesFit(cfg: Config, stock: iset<Kept>, s: System, a: Action, slot: Slot, p: string)
    requires Enabled(cfg, s, a) && Drawn(cfg, stock, s, a) && Fits(cfg, stock, s)
    requires slot in Step(cfg, s, a).workers && p in Step(cfg, s, a).workers[slot].files
    ensures Clear(cfg, stock, Step(cfg, s, a).workers[slot].files[p])
  {
    hide TempName, Plan, Clear, EntryFits, TempsAfter, Effect, WholeScan, Moved, CanMove;
    if a.Do? && a.slot == slot { MoveKeepsFiles(cfg, s, slot, s.workers[slot], a.move); }
  }

  lemma StepFits(cfg: Config, stock: iset<Kept>, s: System, a: Action)
    requires Enabled(cfg, s, a) && Drawn(cfg, stock, s, a) && Fits(cfg, stock, s)
    requires a.Do? ==> WorkerOk(cfg, s, a.slot, s.workers[a.slot])
    ensures Fits(cfg, stock, Step(cfg, s, a))
  {
    hide TempName, TempsAfter, Effect, Moved, CanMove, Plan, Drawn, Clear, WorkerOk, EntryFits;
    forall slot, p | slot in Step(cfg, s, a).workers && p in Step(cfg, s, a).workers[slot].files
      ensures Clear(cfg, stock, Step(cfg, s, a).workers[slot].files[p])
    {
      FilesFit(cfg, stock, s, a, slot, p);
    }
    if a.Do? {
      var e := Effect(cfg, s, a.slot, s.workers[a.slot], a.move);
      TempsFit(cfg, stock, s, a.slot, a.move);
      if e.Some? { EffectFits(cfg, stock, s, a.slot, a.move, e.value); }
    }
  }

  lemma {:induction false} RunFits(cfg: Config, stock: iset<Kept>, s: System, run: seq<Action>, t: System)
    requires Draws(cfg, stock, s, run, t)
    ensures Fits(cfg, stock, t)
  {
    if run != [] {
      hide Step, Drawn, Fits, WorkerOk, HistoryInv;
      var k := |run| - 1;
      var mid := After(cfg, s, run[..k]).value;
      RunFits(cfg, stock, s, run[..k], mid);
      ReachedIsInv(cfg, s, run[..k], mid);
      StepFits(cfg, stock, mid, run[k]);
    }
  }

  // ---------- an anchored file is never lost ----------

  /** Whatever a run over a stock erases as verified is a content of the stock; and if one of its files is
      anchored, with any number of cards and slots, the content is on the destination ever after. */
  lemma AnchoredIsKept(cfg: Config, stock: iset<Kept>, s: System, run: seq<Action>, t: System, k: nat) returns (x: Kept)
    requires Draws(cfg, stock, s, run, t) && ErasesVerified(t, k)
    ensures x in stock && x.bytes == t.log[k].bytes && cfg.eraseIngested
    ensures Anchored(stock, s.finals, x) ==> OnDestination(t.finals, x.bytes)
  {
    RunFits(cfg, stock, s, run, t);
    EraseIsSafe(cfg, s, run, t, k);
    var m, j :| 0 <= m < j < k && t.log[j] == Indexed(cfg.hash(t.log[k].bytes)) &&
                t.log[m].Placed? && cfg.hash(t.log[m].bytes) == cfg.hash(t.log[k].bytes);
    assert EntryFits(cfg, stock, t.log[m]) && EntryFits(cfg, stock, t.log[k]);
    var p :| Kept(p, t.log[m].bytes, t.log[m].at) in stock;
    x := Kept(p, t.log[m].bytes, t.log[m].at);
    if Reserved(stock, x.at, x.bytes) {
      ReservedStays(cfg, stock, s, run, t, x.at, x.bytes, m);
    } else if at :| at in s.finals && s.finals[at] == x.bytes && Reserved(stock, at, x.bytes) {
      ReservedStays(cfg, stock, s, run, t, at, x.bytes, -1);
    }
  }

  /** A reserved place that got its bytes, at entry m or before the run, keeps them. */
  lemma ReservedStays(cfg: Config, stock: iset<Kept>, s: System, run: seq<Action>, t: System, at: Place, b: Bytes,
                      m: int)
    requires Draws(cfg, stock, s, run, t) && Fits(cfg, stock, t) && Reserved(stock, at, b)
    requires (0 <= m < |t.log| && t.log[m].Placed? && t.log[m].at == at) || (at in s.finals && s.finals[at] == b)
    ensures at in t.finals && t.finals[at] == b
  {
    DestinationIsLastWriter(cfg, s, run, t, at);
    if last :|
      0 <= last < |t.log| && LastPlaced(t.log, last, at) && at in t.finals && t.finals[at] == t.log[last].bytes
    {
      assert EntryFits(cfg, stock, t.log[last]);
    }
  }

  // ---------- a file that is not anchored can be lost ----------

  lemma Go(cfg: Config, stock: iset<Kept>, s: System, run: seq<Action>, t: System, a: Action)
    requires Draws(cfg, stock, s, run, t) && Enabled(cfg, t, a) && Drawn(cfg, stock, t, a)
    ensures Draws(cfg, stock, s, run + [a], Step(cfg, t, a))
  {
    hide Step, Enabled, Drawn;
    assert (run + [a])[..|run|] == run;
    AfterSnoc(cfg, s, run, a);
  }

  /** The worker of a card that holds this file only. */
  function Alone(x: Kept, done: seq<Outcome>, pc: Pc): Worker {
    Worker([x.path], map[x.path := x.bytes], map[x.path := x.bytes], done, pc)
  }

  /** A card with one file is inserted and its file streamed. */
  lemma Send(cfg: Config, stock: iset<Kept>, s: System, run: seq<Action>, t: System, slot: Slot, x: Kept)
    returns (run': seq<Action>, t': System)
    requires Draws(cfg, stock, s, run, t) && t.workers == map[] && Clear(cfg, stock, x.bytes)
    ensures Draws(cfg, stock, s, run', t')
    ensures t' == t.(temps := t.temps[TempName(slot, t.seqNo + 1) := x.bytes], seqNo := t.seqNo + 1,
                     workers := map[slot := Alone(x, [], Streamed(t.seqNo + 1, cfg.hash(x.bytes)))])
  {
    hide TempName, Plan, Draws, Clear;
    var insert := Insert(slot, [x.path], map[x.path := x.bytes]);
    var draw, stream := Do(slot, Allocate), Do(slot, Stream(x.bytes));
    Go(cfg, stock, s, run, t, insert);
    var t1 := Step(cfg, t, insert);
    Go(cfg, stock, s, run + [insert], t1, draw);
    var t2 := Step(cfg, t1, draw);
    Go(cfg, stock, s, run + [insert] + [draw], t2, stream);
    run', t' := run + [insert] + [draw] + [stream], Step(cfg, t2, stream);
  }

  /** It is new, reads back equal, and is renamed into place. */
  lemma Land(cfg: Config, stock: iset<Kept>, s: System, run: seq<Action>, t: System, slot: Slot, n: nat, x: Kept)
    returns (run': seq<Action>, t': System)
    requires Draws(cfg, stock, s, run, t) && x in stock && cfg.hash(x.bytes) !in t.index
    requires t.workers == map[slot := Alone(x, [], Streamed(n, cfg.hash(x.bytes)))]
    requires TempName(slot, n) in t.temps && t.temps[TempName(slot, n)] == x.bytes
    ensures Draws(cfg, stock, s, run', t') && t'.workers == map[slot := Alone(x, [], Landed(cfg.hash(x.bytes)))]
    ensures t'.finals == t.finals[x.at := x.bytes] && t'.index == t.index
    ensures t'.log == t.log + [Placed(x.at, x.bytes, x.bytes)]
  {
    hide TempName, Plan, Draws;
    var look, read, rename := Do(slot, Lookup(false)), Do(slot, ReadBack(false)), Do(slot, Rename(x.at));
    Go(cfg, stock, s, run, t, look);
    var t1 := Step(cfg, t, look);
    Go(cfg, stock, s, run + [look], t1, read);
    var t2 := Step(cfg, t1, read);
    Go(cfg, stock, s, run + [look] + [read], t2, rename);
    run', t' := run + [look] + [read] + [rename], Step(cfg, t2, rename);
  }

  lemma SendAndLand(cfg: Config, stock: iset<Kept>, s: System, run: seq<Action>, t: System, slot: Slot, x: Kept)
    returns (run': seq<Action>, t': System)
    requires Draws(cfg, stock, s, run, t) && t.workers == map[] && Clear(cfg, stock, x.bytes)
    requires x in stock && cfg.hash(x.bytes) !in t.index
    ensures Draws(cfg, stock, s, run', t') && t'.workers == map[slot := Alone(x, [], Landed(cfg.hash(x.bytes)))]
    ensures t'.finals == t.finals[x.at := x.bytes] && t'.index == t.index
    ensures t'.log == t.log + [Placed(x.at, x.bytes, x.bytes)]
  {
    hide TempName, Draws, Clear;
    run', t' := Send(cfg, stock, s, run, t, slot, x);
    run', t' := Land(cfg, stock, s, run', t', slot, t.seqNo + 1, x);
  }

  /** The ingest is aborted between rename and record, as by an index that cannot be written. */
  lemma Overwrite(cfg: Config, stock: iset<Kept>, s: System, run: seq<Action>, t: System, slot: Slot, x: Kept)
    returns (run': seq<Action>, t': System)
    requires Draws(cfg, stock, s, run, t) && t.workers == map[] && Clear(cfg, stock, x.bytes)
    requires x in stock && cfg.hash(x.bytes) !in t.index
    ensures Draws(cfg, stock, s, run', t') && t'.workers == map[]
    ensures t'.finals == t.finals[x.at := x.bytes] && t'.index == t.index && t.log <= t'.log
  {
    hide TempName, Plan, Draws, Clear;
    var run1, t1 := SendAndLand(cfg, stock, s, run, t, slot, x);
    Go(cfg, stock, s, run1, t1, Do(slot, Abort(false, false)));
    run', t' := run1 + [Do(slot, Abort(false, false))], Step(cfg, t1, Do(slot, Abort(false, false)));
  }

  lemma PlanOfOne(cfg: Config, x: Kept, pc: Pc)
    requires cfg.eraseIngested
    ensures Verified(Alone(x, [Copied], pc)) == [x.path] && Plan(cfg, Alone(x, [Copied], pc)) == [x.path]
  {
    assert [Copied][..0] == [];
    assert Pick([x.path], [], VERIFIED) == [] && Pick([x.path], [], {Skipped}) == [];
  }

  /** It is recorded, and the ingest of the card completes. */
  lemma Settle(cfg: Config, stock: iset<Kept>, s: System, run: seq<Action>, t: System, slot: Slot, x: Kept)
    returns (run': seq<Action>, t': System)
    requires Draws(cfg, stock, s, run, t) && t.workers == map[slot := Alone(x, [], Landed(cfg.hash(x.bytes)))]
    ensures Draws(cfg, stock, s, run', t') && t'.workers == map[slot := Alone(x, [Copied], Ingested)]
    ensures t'.finals == t.finals && t'.index == t.index + {cfg.hash(x.bytes)} && t.log <= t'.log
  {
    hide TempName, Plan, Draws;
    var record, finish := Do(slot, Record), Do(slot, Finish);
    Go(cfg, stock, s, run, t, record);
    var t1 := Step(cfg, t, record);
    assert [] + [Copied] == [Copied];
    Go(cfg, stock, s, run + [record], t1, finish);
    run', t' := run + [record] + [finish], Step(cfg, t1, finish);
  }

  /** The card is remounted writable. */
  lemma Open(cfg: Config, stock: iset<Kept>, s: System, run: seq<Action>, t: System, slot: Slot, x: Kept)
    returns (run': seq<Action>, t': System)
    requires Draws(cfg, stock, s, run, t) && t.workers == map[slot := Alone(x, [Copied], Ingested)] && cfg.eraseIngested
    ensures Draws(cfg, stock, s, run', t') && t' == t.(workers := map[slot := Alone(x, [Copied], Erasing(0))])
  {
    PlanOfOne(cfg, x, Ingested);
    hide TempName, Plan, Verified, Draws;
    Go(cfg, stock, s, run, t, Do(slot, Move.Remount));
    run', t' := run + [Do(slot, Move.Remount)], Step(cfg, t, Do(slot, Move.Remount));
  }

  /** The file is erased as verified, and the worker leaves. */
  lemma Wipe(cfg: Config, stock: iset<Kept>, s: System, run: seq<Action>, t: System, slot: Slot, x: Kept)
    returns (run': seq<Action>, t': System, k: nat)
    requires Draws(cfg, stock, s, run, t)
    requires t.workers == map[slot := Alone(x, [Copied], Erasing(0))] && cfg.eraseIngested
    ensures Draws(cfg, stock, s, run', t') && t'.workers == map[] && t'.finals == t.finals && t'.index == t.index
    ensures t.log <= t'.log && ErasesVerified(t', k) && t'.log[k].bytes == x.bytes
  {
    PlanOfOne(cfg, x, Erasing(0));
    hide TempName, Plan, Verified, Draws;
    var erase, leave := Do(slot, Move.Erase(true)), Do(slot, Leave);
    Go(cfg, stock, s, run, t, erase);
    var t1 := Step(cfg, t, erase);
    Go(cfg, stock, s, run + [erase], t1, leave);
    run', t', k := run + [erase] + [leave], Step(cfg, t1, leave), |t.log|;
  }

  lemma ClearApart(cfg: Config, stock: iset<Kept>, y: Kept, b: Bytes)
    requires Clear(cfg, stock, b) && y in stock && y.bytes != b
    ensures cfg.hash(y.bytes) != cfg.hash(b)
  {
  }

  /** One by one the places that hold these bytes are overwritten; none of them is reserved for them. */
  lemma {:induction false} OverwriteAll(cfg: Config, stock: iset<Kept>, s: System, run: seq<Action>, t: System,
                                        slot: Slot, b: Bytes, places: set<Place>)
    returns (run': seq<Action>, t': System)
    requires Draws(cfg, stock, s, run, t) && t.workers == map[] && t.index == {cfg.hash(b)} && Injective(cfg, stock)
    requires Clear(cfg, stock, b) && forall at :: at in places <==> at in t.finals && t.finals[at] == b
    requires forall at :: at in places ==> !Reserved(stock, at, b)
    ensures Draws(cfg, stock, s, run', t') && !OnDestination(t'.finals, b) && t.log <= t'.log
    decreases places
  {
    hide Draws, Clear;
    run', t' := run, t;
    if at :| at in places {
      var y :| y in stock && y.at == at && y.bytes != b;
      ClearApart(cfg, stock, y, b);
      run', t' := Overwrite(cfg, stock, s, run, t, slot, y);
      run', t' := OverwriteAll(cfg, stock, s, run', t', slot, b, places - {at});
    }
  }

  /** A file that is not anchored: some run ingests it, erases it from its card as verified, and leaves its bytes
      nowhere on the destination. */
  lemma UnanchoredIsLost(cfg: Config, stock: iset<Kept>, s: System, slot: Slot, x: Kept)
    returns (run: seq<Action>, t: System, k: nat)
    requires Initial(s) && cfg.eraseIngested && Injective(cfg, stock) && x in stock && !Anchored(stock, s.finals, x)
    ensures Draws(cfg, stock, s, run, t)
    ensures ErasesVerified(t, k) && t.log[k].bytes == x.bytes && !OnDestination(t.finals, x.bytes)
  {
    assert Draws(cfg, stock, s, [], s);
    hide Draws, Clear;
    var t3;
    run, t3, k := IngestOne(cfg, stock, s, [], s, slot, x);
    run, t := OverwriteAll(cfg, stock, s, run, t3, slot, x.bytes, set at | at in t3.finals && t3.finals[at] == x.bytes);
    assert t.log[k] == t3.log[k];
  }

  /** A card with one file, from insertion to erasure. */
  lemma IngestOne(cfg: Config, stock: iset<Kept>, s: System, run: seq<Action>, t: System, slot: Slot, x: Kept)
    returns (run': seq<Action>, t': System, k: nat)
    requires Draws(cfg, stock, s, run, t) && t.workers == map[] && Clear(cfg, stock, x.bytes) && cfg.eraseIngested
    requires x in stock && cfg.hash(x.bytes) !in t.index
    ensures Draws(cfg, stock, s, run', t') && t'.workers == map[] && t'.index == t.index + {cfg.hash(x.bytes)}
    ensures t'.finals == t.finals[x.at := x.bytes] && t.log <= t'.log
    ensures ErasesVerified(t', k) && t'.log[k].bytes == x.bytes
  {
    hide Draws, Clear;
    run', t' := SendAndLand(cfg, stock, s, run, t, slot, x);
    run', t' := Settle(cfg, stock, s, run', t', slot, x);
    run', t' := Open(cfg, stock, s, run', t', slot, x);
    run', t', k := Wipe(cfg, stock, s, run', t', slot, x);
  }

  /** The concrete case: two cameras, each with one photo named A.JPG, taken on one day. One card after the other
      is ingested without any failure and erased, and the first photo is gone. */
  lemma TwoCamerasOneName(cfg: Config, stock: iset<Kept>, s: System, slot: Slot, at: Place)
    returns (run: seq<Action>, t: System, k: nat)
    requires stock == iset{Kept("DCIM/100/A.JPG", [1], at), Kept("DCIM/100/A.JPG", [2], at)}
    requires Initial(s) && s.finals == map[] && cfg.eraseIngested && cfg.hash([1]) != cfg.hash([2])
    ensures Draws(cfg, stock, s, run, t) && t.finals == map[at := [2]]
    ensures ErasesVerified(t, k) && t.log[k].bytes == [1]
  {
    var x, y := Kept("DCIM/100/A.JPG", [1], at), Kept("DCIM/100/A.JPG", [2], at);
    assert Draws(cfg, stock, s, [], s) && Clear(cfg, stock, x.bytes) && Clear(cfg, stock, y.bytes);
    hide Draws, Clear;
    var run1, t1;
    run1, t1, k := IngestOne(cfg, stock, s, [], s, slot, x);
    var m;
    run, t, m := IngestOne(cfg, stock, s, run1, t1, slot, y);
    assert t.log[k] == t1.log[k];
  }

  // ---------- exactly when nothing is lost ----------

  /** What this run erases as verified is on the destination. */
  ghost predicate Keeps(cfg: Config, stock: iset<Kept>, s: System, run: seq<Action>, t: System) {
    Draws(cfg, stock, s, run, t) ==> forall k :: ErasesVerified(t, k) ==> OnDestination(t.finals, t.log[k].bytes)
  }

  /** On any destination: no run of any slots and any cards of a stock, with whatever failures, aborts, crashes
      and reruns, ever loses a file it erases as verified, if and only if erasing is off or every file of the
      stock is anchored. */
  lemma NothingLostIffAnchored(cfg: Config, stock: iset<Kept>, s: System)
    requires Initial(s) && Injective(cfg, stock)
    ensures (cfg.eraseIngested ==> forall x :: x in stock ==> Anchored(stock, s.finals, x)) <==>
      forall run, t :: Keeps(cfg, stock, s, run, t)
  {
    hide Draws, OnDestination, Anchored, Injective, Initial;
    if cfg.eraseIngested ==> forall x :: x in stock ==> Anchored(stock, s.finals, x) {
      forall run, t ensures Keeps(cfg, stock, s, run, t) {
        if Draws(cfg, stock, s, run, t) {
          forall k | ErasesVerified(t, k) ensures OnDestination(t.finals, t.log[k].bytes) {
            var x := AnchoredIsKept(cfg, stock, s, run, t, k);
          }
        }
      }
    } else {
      var x :| x in stock && !Anchored(stock, s.finals, x);
      var run, t, k := UnanchoredIsLost(cfg, stock, s, "1", x);
      assert !Keeps(cfg, stock, s, run, t);
    }
  }

  /** On an empty destination, with erasing on: if and only if files of the stock that share a place have the
      same bytes. */
  lemma NothingLostIffPlacesDistinct(cfg: Config, stock: iset<Kept>, s: System)
    requires Initial(s) && s.finals == map[] && cfg.eraseIngested && Injective(cfg, stock)
    ensures (forall x, y :: x in stock && y in stock && x.at == y.at ==> x.bytes == y.bytes) <==>
      forall run, t :: Keeps(cfg, stock, s, run, t)
  {
    hide Keeps, Injective;
    NothingLostIffAnchored(cfg, stock, s);
    if x :| x in stock && !Anchored(stock, s.finals, x) {
      assert !Reserved(stock, x.at, x.bytes);
    } else {
      forall x, y | x in stock && y in stock && x.at == y.at &&
                    (forall z :: z in stock ==> Anchored(stock, s.finals, z))
        ensures x.bytes == y.bytes
      {
        assert Anchored(stock, s.finals, x) && Reserved(stock, x.at, x.bytes);
      }
    }
  }
}
