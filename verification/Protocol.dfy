/** The ingest protocol as a step machine: any number of slot workers share one destination, one
    hash index and one ticket counter, and interleave at the points where one of them performs a
    single I/O call. Every failure the code distinguishes is an action of its own, and the process
    may die between any two steps. */
module Protocol {
  import opened Domain

  datatype Config = Config(hash: Bytes -> Hash, eraseIngested: bool, eraseSkipped: bool)

  /** What became of one scanned file. */
  datatype Outcome = Copied | Deduped | Skipped | Failed

  /** How far a worker has got with its current file, or with its card. */
  datatype Pc =
    | Ready                               // between files
    | Allocated(n: nat)                   // temp name drawn, copy not complete
    | Streamed(n: nat, hash: Hash)        // copied; hash is that of the card bytes
    | Unseen(n: nat, hash: Hash)          // the index does not hold the hash
    | Matched(n: nat, hash: Hash)         // read-back hash equals the card hash
    | Landed(hash: Hash)                  // renamed into place, not yet recorded
    | Ingested                            // every file dealt with, no fatal error
    | Erasing(next: nat)                  // card writable; plan entries below next were tried

  /** One card being ingested: the scan order, the contents scanned, and what is on the card now. */
  datatype Worker = Worker(scan: seq<string>, files: map<string, Bytes>, card: map<string, Bytes>,
                           done: seq<Outcome>, pc: Pc)
  {
    predicate InFlight() { pc.Allocated? || pc.Streamed? || pc.Unseen? || pc.Matched? }

    function Next(outcome: Outcome): Worker { this.(done := done + [outcome], pc := Ready) }
  }

  /** History of the effects that matter for safety. */
  datatype Event =
    | Placed(at: Place, bytes: Bytes, source: Bytes)    // landed bytes, and the card bytes they copy
    | Indexed(hash: Hash)
    | Erased(slot: Slot, path: string, bytes: Bytes, verified: bool)

  /** finals and temps are the two parts of the destination: files in place, and in-flight copies. */
  datatype System = System(finals: map<Place, Bytes>, temps: map<Path, Bytes>, index: set<Hash>,
                           seqNo: nat, workers: map<Slot, Worker>, log: seq<Event>)

  /** One I/O call of one worker, with its outcome. Removing a temp file is best effort everywhere in
      the code: cleaned says whether it worked. */
  datatype Move =
    | Skip
    | Allocate
    | Scribble(junk: Bytes)                 // part of a copy reaches the destination
    | Stream(landed: Bytes)                 // the whole copy does, as these bytes
    | GiveUp(cleaned: bool)                 // card-side error: only this file fails
    | Lookup(cleaned: bool)
    | ReadBack(cleaned: bool)
    | Rename(at: Place)
    | Record
    | Abort(cleaned: bool, stored: bool)    // fatal error or cancellation
    | Finish
    | Remount
    | Erase(ok: bool)
    | Leave

  datatype Action =
    | Insert(slot: Slot, scan: seq<string>, files: map<string, Bytes>)
    | Do(slot: Slot, move: Move)
    | Crash                                 // the process dies; the disks stay

  // ---------- outcome lists ----------

  /** The scanned paths whose outcome is wanted, in scan order. */
  function Pick(scan: seq<string>, done: seq<Outcome>, wanted: set<Outcome>): seq<string>
    requires |done| <= |scan|
  {
    if done == [] then [] else
      var k := |done| - 1;
      Pick(scan, done[..k], wanted) + (if done[k] in wanted then [scan[k]] else [])
  }

  const VERIFIED: set<Outcome> := {Copied, Deduped}

  function Verified(w: Worker): seq<string> requires |w.done| <= |w.scan| {
    Pick(w.scan, w.done, VERIFIED)
  }

  /** The paths app.ingest hands to Erase after a nil-error ingest. */
  function Plan(cfg: Config, w: Worker): seq<string> requires |w.done| <= |w.scan| {
    (if cfg.eraseIngested then Verified(w) else []) +
    (if cfg.eraseSkipped then Pick(w.scan, w.done, {Skipped}) else [])
  }

  // ---------- steps ----------

  predicate WholeScan(scan: seq<string>, files: map<string, Bytes>) {
    && (forall i, j :: 0 <= i < j < |scan| ==> scan[i] != scan[j])
    && (forall p :: p in scan ==> p in files)
    && (forall p :: p in files ==> p in scan)
  }

  predicate Enabled(cfg: Config, s: System, a: Action) {
    match a
    case Insert(slot, scan, files) => slot !in s.workers && WholeScan(scan, files)
    case Do(slot, move) => slot in s.workers && CanMove(cfg, s, slot, s.workers[slot], move)
    case Crash => true
  }

  predicate CanMove(cfg: Config, s: System, slot: Slot, w: Worker, move: Move) {
    && |w.done| <= |w.scan|
    && (forall p :: p in w.scan ==> p in w.files)
    && match move
       case Skip => w.pc.Ready? && |w.done| < |w.scan|
       case Allocate => w.pc.Ready? && |w.done| < |w.scan|
       case Scribble(_) => w.pc.Allocated?
       case Stream(_) => w.pc.Allocated? && |w.done| < |w.scan|
       case GiveUp(_) => w.pc.Allocated?
       case Lookup(_) => w.pc.Streamed?
       case ReadBack(_) => w.pc.Unseen? && TempName(slot, w.pc.n) in s.temps
       case Rename(_) => w.pc.Matched? && TempName(slot, w.pc.n) in s.temps && |w.done| < |w.scan|
       case Record => w.pc.Landed?
       case Abort(_, stored) => !w.pc.Ingested? && !w.pc.Erasing? && (stored ==> w.pc.Landed?)
       case Finish => w.pc.Ready? && |w.done| == |w.scan|
       case Remount => w.pc.Ingested? && Plan(cfg, w) != []
       case Erase(ok) => w.pc.Erasing? && w.pc.next < |Plan(cfg, w)| &&
                         (ok ==> Plan(cfg, w)[w.pc.next] in w.card && Plan(cfg, w)[w.pc.next] in w.files)
       case Leave => w.pc.Ingested? || w.pc.Erasing?
  }

  /** The worker after its move; None when it leaves its slot. */
  function Moved(cfg: Config, s: System, slot: Slot, w: Worker, move: Move): Option<Worker>
    requires CanMove(cfg, s, slot, w, move)
  {
    match move
    case Skip => Some(w.Next(Skipped))
    case Allocate => Some(w.(pc := Allocated(s.seqNo + 1)))
    case Scribble(_) => Some(w)
    case Stream(_) => Some(w.(pc := Streamed(w.pc.n, cfg.hash(w.files[w.scan[|w.done|]]))))
    case GiveUp(_) => Some(w.Next(Failed))
    case Lookup(_) =>
      Some(if w.pc.hash in s.index then w.Next(Deduped) else w.(pc := Unseen(w.pc.n, w.pc.hash)))
    case ReadBack(_) =>
      Some(if cfg.hash(s.temps[TempName(slot, w.pc.n)]) == w.pc.hash then w.(pc := Matched(w.pc.n, w.pc.hash))
           else w.Next(Failed))
    case Rename(_) => Some(w.(pc := Landed(w.pc.hash)))
    case Record => Some(w.Next(Copied))
    case Abort(_, _) => None
    case Finish => Some(w.(pc := Ingested))
    case Remount => Some(w.(pc := Erasing(0)))
    case Erase(ok) =>
      Some(w.(pc := Erasing(w.pc.next + 1), card := if ok then w.card - {Plan(cfg, w)[w.pc.next]} else w.card))
    case Leave => None
  }

  /** The temp files after a move. A temp is dropped when its file is given up, known or mismatched. */
  function TempsAfter(cfg: Config, s: System, slot: Slot, w: Worker, move: Move): map<Path, Bytes>
    requires CanMove(cfg, s, slot, w, move)
  {
    match move
    case Scribble(junk) => s.temps[TempName(slot, w.pc.n) := junk]
    case Stream(landed) => s.temps[TempName(slot, w.pc.n) := landed]
    case GiveUp(cleaned) => Without(s.temps, TempName(slot, w.pc.n), cleaned)
    case Lookup(cleaned) => Without(s.temps, TempName(slot, w.pc.n), cleaned && w.pc.hash in s.index)
    case ReadBack(cleaned) =>
      var temp := TempName(slot, w.pc.n);
      Without(s.temps, temp, cleaned && cfg.hash(s.temps[temp]) != w.pc.hash)
    case Rename(_) => s.temps - {TempName(slot, w.pc.n)}
    case Abort(cleaned, _) =>
      if w.InFlight() then Without(s.temps, TempName(slot, w.pc.n), cleaned) else s.temps
    case _ => s.temps
  }

  function Without(temps: map<Path, Bytes>, name: Path, cleaned: bool): map<Path, Bytes> {
    if cleaned then temps - {name} else temps
  }

  /** The lasting effect of a move on the destination, the index or a card. */
  function Effect(cfg: Config, s: System, slot: Slot, w: Worker, move: Move): Option<Event>
    requires CanMove(cfg, s, slot, w, move)
  {
    match move
    case Rename(at) => Some(Placed(at, s.temps[TempName(slot, w.pc.n)], w.files[w.scan[|w.done|]]))
    case Record => Some(Indexed(w.pc.hash))
    case Abort(_, stored) => if stored then Some(Indexed(w.pc.hash)) else None
    case Erase(ok) =>
      var path := Plan(cfg, w)[w.pc.next];
      if ok then Some(Erased(slot, path, w.files[path], path in Verified(w))) else None
    case _ => None
  }

  function Apply(s: System, effect: Option<Event>): System {
    match effect
    case None => s
    case Some(Placed(at, bytes, _)) => s.(finals := s.finals[at := bytes], log := s.log + [effect.value])
    case Some(Indexed(hash)) => s.(index := s.index + {hash}, log := s.log + [effect.value])
    case Some(Erased(_, _, _, _)) => s.(log := s.log + [effect.value])
  }

  function Step(cfg: Config, s: System, a: Action): System
    requires Enabled(cfg, s, a)
  {
    match a
    case Insert(slot, scan, files) =>
      s.(workers := s.workers[slot := Worker(scan, files, files, [], Ready)])
    case Do(slot, move) =>
      var w := s.workers[slot];
      var workers := match Moved(cfg, s, slot, w, move)
        case Some(w') => s.workers[slot := w']
        case None => s.workers - {slot};
      Apply(s.(temps := TempsAfter(cfg, s, slot, w, move),
               seqNo := if move.Allocate? then s.seqNo + 1 else s.seqNo,
               workers := workers),
            Effect(cfg, s, slot, w, move))
    case Crash => s.(workers := map[], seqNo := 0)
  }

  // ---------- runs ----------

  /** The state after a sequence of actions, or None when one of them is not enabled. */
  function After(cfg: Config, s: System, run: seq<Action>): Option<System> {
    if run == [] then Some(s) else
      var k := |run| - 1;
      var mid := After(cfg, s, run[..k]);
      if mid.Some? && Enabled(cfg, mid.value, run[k]) then Some(Step(cfg, mid.value, run[k])) else None
  }

  lemma {:induction false} AfterNone(cfg: Config, s: System)
    ensures After(cfg, s, []) == Some(s)
  {
  }

  lemma {:induction false} AfterSnoc(cfg: Config, s: System, run: seq<Action>, a: Action)
    requires After(cfg, s, run).Some? && Enabled(cfg, After(cfg, s, run).value, a)
    ensures After(cfg, s, run + [a]) == Some(Step(cfg, After(cfg, s, run).value, a))
  {
    assert (run + [a])[..|run|] == run;
  }

  lemma {:induction false} AfterAppend(cfg: Config, s: System, a: seq<Action>, b: seq<Action>)
    ensures After(cfg, s, a + b) == if After(cfg, s, a).None? then None else After(cfg, After(cfg, s, a).value, b)
  {
    if b == [] {
      assert a + b == a;
    } else {
      var n := |b| - 1;
      assert (a + b)[..|a + b| - 1] == a + b[..n];
      AfterAppend(cfg, s, a, b[..n]);
    }
  }

  /** The state of a freshly provisioned appliance in front of a destination that may hold files. */
  predicate Initial(s: System) {
    s.temps == map[] && s.index == {} && s.workers == map[] && s.log == []
  }
}
