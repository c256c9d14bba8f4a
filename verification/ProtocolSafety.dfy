/** Invariants of every interleaving of the ingest protocol, and what they say about erased files
    and about the destination. */
module ProtocolSafety {
  import opened Domain
  import opened Protocol

  // ---------- history predicates ----------

  /** Some entry of the history below n put bytes with this hash into a final place. */
  ghost predicate LandedBefore(cfg: Config, log: seq<Event>, n: nat, hash: Hash)
    requires n <= |log|
  {
    exists k :: 0 <= k < n && log[k].Placed? && cfg.hash(log[k].bytes) == hash
  }

  ghost predicate IndexedBefore(log: seq<Event>, n: nat, hash: Hash)
    requires n <= |log|
  {
    exists k :: 0 <= k < n && log[k] == Indexed(hash)
  }

  /** Entry i is justified by strictly earlier entries. */
  ghost predicate Justified(cfg: Config, log: seq<Event>, i: nat)
    requires i < |log|
  {
    match log[i]
    case Placed(_, bytes, source) => cfg.hash(bytes) == cfg.hash(source)
    case Indexed(hash) => LandedBefore(cfg, log, i, hash)
    case Erased(_, _, bytes, verified) => verified ==> IndexedBefore(log, i, cfg.hash(bytes))
  }

  ghost predicate HistoryOk(cfg: Config, log: seq<Event>) {
    forall i :: 0 <= i < |log| ==> Justified(cfg, log, i)
  }

  /** The final area one gets by performing the placements of a history in order. */
  function Replay(finals: map<Place, Bytes>, log: seq<Event>): map<Place, Bytes> {
    if log == [] then finals else
      var before := Replay(finals, log[..|log| - 1]);
      match log[|log| - 1]
      case Placed(at, bytes, _) => before[at := bytes]
      case _ => before
  }

  // ---------- the invariant ----------

  /** What a worker knows about itself. */
  ghost predicate WorkerShape(cfg: Config, w: Worker) {
    && WholeScan(w.scan, w.files)
    && |w.done| <= |w.scan|
    && (forall p :: p in w.card ==> p in w.files && w.card[p] == w.files[p])
    && (!w.pc.Erasing? ==> w.card == w.files)
    && (w.InFlight() || w.pc.Landed? ==> |w.done| < |w.scan|)
    && (w.pc.Ingested? || w.pc.Erasing? ==> |w.done| == |w.scan|)
    && (w.pc.Erasing? ==> w.pc.next <= |Plan(cfg, w)|)
  }

  /** The outcomes the erase policy does not cover. */
  function Protected(cfg: Config): set<Outcome> {
    {Failed} + (if cfg.eraseIngested then {} else VERIFIED) + (if cfg.eraseSkipped then {} else {Skipped})
  }

  /** Files the policy does not cover are still on the card. */
  ghost predicate Spared(cfg: Config, w: Worker)
    requires |w.done| <= |w.scan|
  {
    forall i :: 0 <= i < |w.done| && w.done[i] in Protected(cfg) ==> w.scan[i] in w.card
  }

  /** What a worker may rely on about its temp file and its hash while a file is in flight. */
  ghost predicate FlightOk(cfg: Config, s: System, slot: Slot, w: Worker)
    requires WorkerShape(cfg, w)
  {
    && (w.InFlight() ==> 1 <= w.pc.n <= s.seqNo)
    && (w.pc.Streamed? || w.pc.Unseen? || w.pc.Matched? || w.pc.Landed? ==>
          w.pc.hash == cfg.hash(w.files[w.scan[|w.done|]]))
    && (w.pc.Streamed? || w.pc.Unseen? || w.pc.Matched? ==> TempName(slot, w.pc.n) in s.temps)
    && (w.pc.Matched? ==> cfg.hash(s.temps[TempName(slot, w.pc.n)]) == w.pc.hash)
    && (w.pc.Landed? ==> LandedBefore(cfg, s.log, |s.log|, w.pc.hash))
  }

  /** Every file reported as verified has its hash in the index. */
  ghost predicate Vouched(cfg: Config, index: set<Hash>, w: Worker)
    requires WorkerShape(cfg, w)
  {
    forall i :: 0 <= i < |w.done| && w.done[i] in VERIFIED ==> cfg.hash(w.files[w.scan[i]]) in index
  }

  ghost predicate WorkerOk(cfg: Config, s: System, slot: Slot, w: Worker) {
    WorkerShape(cfg, w) && Spared(cfg, w) && FlightOk(cfg, s, slot, w) && Vouched(cfg, s.index, w)
  }

  ghost predicate TicketsDistinct(s: System) {
    forall s1, s2 :: s1 in s.workers && s2 in s.workers && s1 != s2 && s.workers[s1].InFlight() &&
      s.workers[s2].InFlight()
      ==> s.workers[s1].pc.n != s.workers[s2].pc.n
  }

  /** The history justifies itself and accounts for the index and the final area. */
  ghost predicate HistoryInv(cfg: Config, finals: map<Place, Bytes>, s: System) {
    && HistoryOk(cfg, s.log)
    && (forall h :: h in s.index <==> IndexedBefore(s.log, |s.log|, h))
    && s.finals == Replay(finals, s.log)
  }

  ghost predicate Inv(cfg: Config, finals: map<Place, Bytes>, s: System) {
    && (forall slot :: slot in s.workers ==> WorkerOk(cfg, s, slot, s.workers[slot]))
    && TicketsDistinct(s)
    && HistoryInv(cfg, finals, s)
  }

  lemma {:induction false} PickHas(scan: seq<string>, done: seq<Outcome>, wanted: set<Outcome>, p: string)
    requires |done| <= |scan|
    ensures p in Pick(scan, done, wanted) <==> exists i :: 0 <= i < |done| && done[i] in wanted && scan[i] == p
  {
    if done != [] {
      var k := |done| - 1;
      PickHas(scan, done[..k], wanted, p);
      if p in Pick(scan, done[..k], wanted) {
        var i :| 0 <= i < k && done[..k][i] in wanted && scan[i] == p;
        assert done[i] in wanted;
      }
      if i :| 0 <= i < |done| && done[i] in wanted && scan[i] == p {
        if i < k { assert done[..k][i] in wanted; }
      }
    }
  }

  lemma {:induction false} PickDistinct(scan: seq<string>, done: seq<Outcome>, wanted: set<Outcome>)
    requires |done| <= |scan| && Distinct(scan)
    ensures Distinct(Pick(scan, done, wanted))
  {
    if done != [] {
      var k := |done| - 1;
      PickDistinct(scan, done[..k], wanted);
      PickHas(scan, done[..k], wanted, scan[k]);
    }
  }

  /** Of two scanned paths that are both selected, the one scanned first comes first. */
  lemma {:induction false} PickKeepsOrder(scan: seq<string>, done: seq<Outcome>, wanted: set<Outcome>, i: nat, j: nat)
    returns (a: nat, b: nat)
    requires i < j < |done| <= |scan| && done[i] in wanted && done[j] in wanted
    ensures a < b < |Pick(scan, done, wanted)|
    ensures Pick(scan, done, wanted)[a] == scan[i] && Pick(scan, done, wanted)[b] == scan[j]
  {
    var k := |done| - 1;
    if j < k {
      a, b := PickKeepsOrder(scan, done[..k], wanted, i, j);
    } else {
      PickHas(scan, done[..k], wanted, scan[i]);
      assert done[..k][i] in wanted && scan[i] in Pick(scan, done[..k], wanted);
      a :| 0 <= a < |Pick(scan, done[..k], wanted)| && Pick(scan, done[..k], wanted)[a] == scan[i];
      b := |Pick(scan, done[..k], wanted)|;
    }
  }

  /** A selection depends only on which outcomes are wanted. */
  lemma {:induction false} PickSame(scan: seq<string>, d1: seq<Outcome>, w1: set<Outcome>, d2: seq<Outcome>,
                                    w2: set<Outcome>)
    requires |d1| == |d2| <= |scan|
    requires forall i :: 0 <= i < |d1| ==> (d1[i] in w1 <==> d2[i] in w2)
    ensures Pick(scan, d1, w1) == Pick(scan, d2, w2)
  {
    if d1 != [] { PickSame(scan, d1[..|d1| - 1], w1, d2[..|d2| - 1], w2); }
  }

  // ---------- preservation ----------

  lemma HistoryExtends(cfg: Config, log: seq<Event>, e: Event)
    requires HistoryOk(cfg, log) && Justified(cfg, log + [e], |log|)
    ensures HistoryOk(cfg, log + [e])
    ensures forall h :: LandedBefore(cfg, log, |log|, h) ==> LandedBefore(cfg, log + [e], |log| + 1, h)
    ensures forall h :: IndexedBefore(log + [e], |log| + 1, h) <==> IndexedBefore(log, |log|, h) || e == Indexed(h)
  {
    var longer := log + [e];
    forall i | 0 <= i < |longer| ensures Justified(cfg, longer, i) {
      if i < |log| {
        assert Justified(cfg, log, i) && longer[i] == log[i];
        if log[i].Indexed? {
          var k :| 0 <= k < i && log[k].Placed? && cfg.hash(log[k].bytes) == log[i].hash;
          assert longer[k] == log[k];
        } else if log[i].Erased? && log[i].verified {
          var k :| 0 <= k < i && log[k] == Indexed(cfg.hash(log[i].bytes));
          assert longer[k] == log[k];
        }
      }
    }
    forall h | LandedBefore(cfg, log, |log|, h) ensures LandedBefore(cfg, longer, |longer|, h) {
      var k :| 0 <= k < |log| && log[k].Placed? && cfg.hash(log[k].bytes) == h;
      assert longer[k] == log[k];
    }
    forall h ensures IndexedBefore(longer, |longer|, h) <==> IndexedBefore(log, |log|, h) || e == Indexed(h) {
      if IndexedBefore(log, |log|, h) {
        var k :| 0 <= k < |log| && log[k] == Indexed(h);
        assert longer[k] == log[k];
      }
      assert longer[|log|] == e;
    }
  }

  /** What a step by somebody else may change without disturbing a worker. */
  ghost predicate Undisturbed(cfg: Config, s: System, t: System, slot: Slot, w: Worker) {
    && s.index <= t.index
    && s.seqNo <= t.seqNo
    && (forall h :: LandedBefore(cfg, s.log, |s.log|, h) ==> LandedBefore(cfg, t.log, |t.log|, h))
    && (w.InFlight() && TempName(slot, w.pc.n) in s.temps ==>
          TempName(slot, w.pc.n) in t.temps && t.temps[TempName(slot, w.pc.n)] == s.temps[TempName(slot, w.pc.n)])
  }

  lemma WorkerStays(cfg: Config, s: System, t: System, slot: Slot, w: Worker)
    requires WorkerOk(cfg, s, slot, w) && Undisturbed(cfg, s, t, slot, w)
    ensures WorkerOk(cfg, t, slot, w)
  {
  }

  lemma LandedGrows(cfg: Config, log: seq<Event>, longer: seq<Event>)
    requires log <= longer
    ensures forall h :: LandedBefore(cfg, log, |log|, h) ==> LandedBefore(cfg, longer, |longer|, h)
  {
    forall h | LandedBefore(cfg, log, |log|, h) ensures LandedBefore(cfg, longer, |longer|, h) {
      var k :| 0 <= k < |log| && log[k].Placed? && cfg.hash(log[k].bytes) == h;
      assert longer[k] == log[k];
    }
  }

  /** A worker's step leaves every other worker's temp file alone. */
  lemma OthersUndisturbed(cfg: Config, finals: map<Place, Bytes>, s: System, a: Action, slot: Slot)
    requires Inv(cfg, finals, s) && Enabled(cfg, s, a) && a.Do?
    requires slot in s.workers && slot != a.slot
    ensures Undisturbed(cfg, s, Step(cfg, s, a), slot, s.workers[slot])
  {
    hide WorkerOk, HistoryInv, HistoryOk, LandedBefore, TempName, Plan;
    var t, w, actor := Step(cfg, s, a), s.workers[slot], s.workers[a.slot];
    if w.InFlight() && actor.InFlight() && TempName(slot, w.pc.n) == TempName(a.slot, actor.pc.n) {
      TempNamesHaveOneTicket(slot, w.pc.n, a.slot, actor.pc.n);
    }
    LandedGrows(cfg, s.log, t.log);
  }

  /** The effect of a move is justified by the history so far. */
  lemma EffectJustified(cfg: Config, s: System, slot: Slot, w: Worker, move: Move, e: Event)
    requires WorkerOk(cfg, s, slot, w) && CanMove(cfg, s, slot, w, move) && Effect(cfg, s, slot, w, move) == Some(e)
    requires forall h :: h in s.index ==> IndexedBefore(s.log, |s.log|, h)
    ensures Justified(cfg, s.log + [e], |s.log|)
  {
    var log := s.log + [e];
    match e
    case Placed(_, _, _) =>
    case Indexed(h) =>
      var k :| 0 <= k < |s.log| && s.log[k].Placed? && cfg.hash(s.log[k].bytes) == h;
      assert log[k] == s.log[k];
    case Erased(_, path, bytes, verified) =>
      if verified {
        PickHas(w.scan, w.done, VERIFIED, path);
        assert IndexedBefore(s.log, |s.log|, cfg.hash(bytes));
        var k :| 0 <= k < |s.log| && s.log[k] == Indexed(cfg.hash(bytes));
        assert log[k] == s.log[k];
      }
  }

  lemma EffectKeepsHistory(cfg: Config, finals: map<Place, Bytes>, s: System, e: Event)
    requires HistoryInv(cfg, finals, s) && Justified(cfg, s.log + [e], |s.log|)
    ensures HistoryInv(cfg, finals, Apply(s, Some(e)))
  {
    HistoryExtends(cfg, s.log, e);
    assert (s.log + [e])[..|s.log|] == s.log;
  }

  lemma StepHistory(cfg: Config, finals: map<Place, Bytes>, s: System, a: Action)
    requires Inv(cfg, finals, s) && Enabled(cfg, s, a)
    ensures HistoryInv(cfg, finals, Step(cfg, s, a))
  {
    if a.Do? {
      var w := s.workers[a.slot];
      var effect := Effect(cfg, s, a.slot, w, a.move);
      if effect.Some? {
        EffectJustified(cfg, s, a.slot, w, a.move, effect.value);
        var t := Step(cfg, s, a);
        EffectKeepsHistory(cfg, finals, t.(finals := s.finals, index := s.index, log := s.log), effect.value);
      }
    }
  }

  lemma PlanIsUnprotected(cfg: Config, w: Worker, p: string, i: nat)
    requires WholeScan(w.scan, w.files) && |w.done| <= |w.scan| && i < |w.done|
    requires p in Plan(cfg, w) && w.done[i] in Protected(cfg)
    ensures w.scan[i] != p
  {
    PickHas(w.scan, w.done, VERIFIED, p);
    PickHas(w.scan, w.done, {Skipped}, p);
  }

  /** How one step may change the worker that takes it. */
  ghost predicate Moves(cfg: Config, w: Worker, w': Worker)
    requires |w.done| <= |w.scan|
  {
    && w'.scan == w.scan && w'.files == w.files
    && (|| (&& w'.done == w.done && w'.card == w.card && !w.pc.Erasing? && !w'.pc.Erasing?
            && (if w'.pc.Ingested? then |w.done| == |w.scan| else |w.done| < |w.scan|))
        || (&& |w'.done| == |w.done| + 1 && w' == w.Next(w'.done[|w.done|]) && |w.done| < |w.scan| && !w.pc.Erasing?)
        || (&& w' == w.(pc := Erasing(0)) && w.pc.Ingested?)
        || (&& w.pc.Erasing? && w.pc.next < |Plan(cfg, w)| && w'.pc == Erasing(w.pc.next + 1) && w'.done == w.done
            && (w'.card == w.card || w'.card == w.card - {Plan(cfg, w)[w.pc.next]})))
  }

  lemma ActorMoves(cfg: Config, s: System, slot: Slot, w: Worker, move: Move)
    requires CanMove(cfg, s, slot, w, move)
    requires w.InFlight() || w.pc.Landed? ==> |w.done| < |w.scan|
    ensures Moved(cfg, s, slot, w, move).Some? ==> Moves(cfg, w, Moved(cfg, s, slot, w, move).value)
  {
  }

  lemma MovesKeepShape(cfg: Config, w: Worker, w': Worker)
    requires WorkerShape(cfg, w) && Moves(cfg, w, w')
    ensures WorkerShape(cfg, w')
  {
    if w.pc.Erasing? { assert Plan(cfg, w) == Plan(cfg, w'); }
  }

  lemma MovesKeepSpared(cfg: Config, w: Worker, w': Worker)
    requires WorkerShape(cfg, w) && Spared(cfg, w) && Moves(cfg, w, w') && |w'.done| <= |w'.scan|
    ensures Spared(cfg, w')
  {
    forall i | 0 <= i < |w'.done| && w'.done[i] in Protected(cfg) ensures w.scan[i] in w'.card {
      if w.pc.Erasing? {
        PlanIsUnprotected(cfg, w, Plan(cfg, w)[w.pc.next], i);
      }
    }
  }

  lemma ActorVouched(cfg: Config, s: System, slot: Slot, w: Worker, move: Move, w': Worker, index: set<Hash>)
    requires WorkerOk(cfg, s, slot, w) && CanMove(cfg, s, slot, w, move) && Moved(cfg, s, slot, w, move) == Some(w')
    requires s.index <= index && (move.Record? ==> w.pc.hash in index)
    requires WorkerShape(cfg, w')
    ensures Vouched(cfg, index, w')
  {
    hide Spared, TempName, Plan, LandedBefore;
  }

  lemma ActorFlight(cfg: Config, s: System, slot: Slot, w: Worker, move: Move, w': Worker, t: System)
    requires WorkerOk(cfg, s, slot, w) && CanMove(cfg, s, slot, w, move) && Moved(cfg, s, slot, w, move) == Some(w')
    requires WorkerShape(cfg, w')
    requires t.temps == TempsAfter(cfg, s, slot, w, move)
    requires s.seqNo <= t.seqNo && (move.Allocate? ==> t.seqNo == s.seqNo + 1)
    requires move.Rename? ==> LandedBefore(cfg, t.log, |t.log|, cfg.hash(s.temps[TempName(slot, w.pc.n)]))
    ensures FlightOk(cfg, t, slot, w')
  {
    hide Spared, Vouched, TempName, Plan;
  }

  lemma ActorOk(cfg: Config, s: System, a: Action)
    requires Enabled(cfg, s, a) && a.Do? && a.slot in Step(cfg, s, a).workers
    requires WorkerOk(cfg, s, a.slot, s.workers[a.slot])
    ensures WorkerOk(cfg, Step(cfg, s, a), a.slot, Step(cfg, s, a).workers[a.slot])
  {
    hide Spared, Vouched, TempName, Plan, TempsAfter;
    var t, w := Step(cfg, s, a), s.workers[a.slot];
    var w' := t.workers[a.slot];
    ActorMoves(cfg, s, a.slot, w, a.move);
    MovesKeepShape(cfg, w, w');
    MovesKeepSpared(cfg, w, w');
    ActorVouched(cfg, s, a.slot, w, a.move, w', t.index);
    if a.move.Rename? { assert t.log[|s.log|].Placed?; }
    ActorFlight(cfg, s, a.slot, w, a.move, w', t);
  }

  lemma OtherOk(cfg: Config, finals: map<Place, Bytes>, s: System, a: Action, slot: Slot)
    requires Inv(cfg, finals, s) && Enabled(cfg, s, a) && a.Do?
    requires slot in s.workers && slot != a.slot
    ensures WorkerOk(cfg, Step(cfg, s, a), slot, s.workers[slot])
  {
    StepHistory(cfg, finals, s, a);
    OthersUndisturbed(cfg, finals, s, a, slot);
    WorkerStays(cfg, s, Step(cfg, s, a), slot, s.workers[slot]);
  }

  lemma StepKeepsWorkers(cfg: Config, finals: map<Place, Bytes>, s: System, a: Action, slot: Slot)
    requires Inv(cfg, finals, s) && Enabled(cfg, s, a) && slot in Step(cfg, s, a).workers
    ensures WorkerOk(cfg, Step(cfg, s, a), slot, Step(cfg, s, a).workers[slot])
  {
    if a.Insert? {
      if slot != a.slot { WorkerStays(cfg, s, Step(cfg, s, a), slot, s.workers[slot]); }
    } else if slot == a.slot {
      ActorOk(cfg, s, a);
    } else {
      OtherOk(cfg, finals, s, a, slot);
    }
  }

  /** A ticket held after a step was held before it, unless this step drew it. */
  lemma TicketOrigin(cfg: Config, s: System, a: Action, slot: Slot)
    requires Enabled(cfg, s, a)
    requires slot in Step(cfg, s, a).workers && Step(cfg, s, a).workers[slot].InFlight()
    ensures var n := Step(cfg, s, a).workers[slot].pc.n;
      if a == Do(slot, Allocate) then n == s.seqNo + 1
      else slot in s.workers && s.workers[slot].InFlight() && s.workers[slot].pc.n == n
  {
    if a.Do? && a.slot == slot {
      ActorTicket(cfg, s, slot, s.workers[slot], a.move);
    }
  }

  lemma ActorTicket(cfg: Config, s: System, slot: Slot, w: Worker, move: Move)
    requires CanMove(cfg, s, slot, w, move)
    ensures Moved(cfg, s, slot, w, move).Some? && Moved(cfg, s, slot, w, move).value.InFlight() ==>
      Moved(cfg, s, slot, w, move).value.pc.n ==
        if move.Allocate? then s.seqNo + 1 else if w.InFlight() then w.pc.n else 0
    ensures Moved(cfg, s, slot, w, move).Some? && Moved(cfg, s, slot, w, move).value.InFlight() ==>
      move.Allocate? || w.InFlight()
  {
  }

  lemma StepKeepsTickets(cfg: Config, finals: map<Place, Bytes>, s: System, a: Action)
    requires Inv(cfg, finals, s) && Enabled(cfg, s, a)
    ensures TicketsDistinct(Step(cfg, s, a))
  {
    var after := Step(cfg, s, a).workers;
    forall s1, s2 | s1 in after && s2 in after && s1 != s2 && after[s1].InFlight() && after[s2].InFlight()
      ensures after[s1].pc.n != after[s2].pc.n
    {
      TicketOrigin(cfg, s, a, s1);
      TicketOrigin(cfg, s, a, s2);
      if a != Do(s1, Allocate) { assert FlightOk(cfg, s, s1, s.workers[s1]); }
      if a != Do(s2, Allocate) { assert FlightOk(cfg, s, s2, s.workers[s2]); }
    }
  }

  lemma StepKeepsInv(cfg: Config, finals: map<Place, Bytes>, s: System, a: Action)
    requires Inv(cfg, finals, s) && Enabled(cfg, s, a)
    ensures Inv(cfg, finals, Step(cfg, s, a))
  {
    var t := Step(cfg, s, a);
    StepHistory(cfg, finals, s, a);
    StepKeepsTickets(cfg, finals, s, a);
    forall slot | slot in t.workers ensures WorkerOk(cfg, t, slot, t.workers[slot]) {
      StepKeepsWorkers(cfg, finals, s, a, slot);
    }
  }

  lemma {:induction false} RunKeepsInv(cfg: Config, s: System, run: seq<Action>)
    requires Initial(s) && After(cfg, s, run).Some?
    ensures Inv(cfg, s.finals, After(cfg, s, run).value)
  {
    if run != [] {
      var k := |run| - 1;
      RunKeepsInv(cfg, s, run[..k]);
      StepKeepsInv(cfg, s.finals, After(cfg, s, run[..k]).value, run[k]);
    }
  }

  // ---------- consequences for every run ----------

  /** A run that leads from a fresh start to this state. */
  ghost predicate Reaches(cfg: Config, s: System, run: seq<Action>, t: System) {
    Initial(s) && After(cfg, s, run) == Some(t)
  }

  lemma ReachedIsInv(cfg: Config, s: System, run: seq<Action>, t: System)
    requires Reaches(cfg, s, run, t)
    ensures Inv(cfg, s.finals, t)
  {
    RunKeepsInv(cfg, s, run);
  }

  /** No file is erased as verified unless its hash was recorded before, and no hash is recorded
      unless bytes with that hash had been read back and renamed into place before that. */
  lemma EraseIsSafe(cfg: Config, s: System, run: seq<Action>, t: System, i: nat)
    requires Reaches(cfg, s, run, t)
    requires i < |t.log| && t.log[i].Erased? && t.log[i].verified
    ensures exists k, j :: 0 <= k < j < i && t.log[j] == Indexed(cfg.hash(t.log[i].bytes)) &&
                           t.log[k].Placed? && cfg.hash(t.log[k].bytes) == cfg.hash(t.log[i].bytes)
  {
    ReachedIsInv(cfg, s, run, t);
    assert Justified(cfg, t.log, i);
    var j :| 0 <= j < i && t.log[j] == Indexed(cfg.hash(t.log[i].bytes));
    assert Justified(cfg, t.log, j);
    var k :| 0 <= k < j && t.log[k].Placed? && cfg.hash(t.log[k].bytes) == t.log[j].hash;
  }

  /** In-flight copies never share a temp file. */
  lemma TempFilesDistinct(cfg: Config, s: System, run: seq<Action>, t: System, slot1: Slot, slot2: Slot)
    requires Reaches(cfg, s, run, t)
    requires slot1 in t.workers && slot2 in t.workers && slot1 != slot2
    requires t.workers[slot1].InFlight() && t.workers[slot2].InFlight()
    ensures t.workers[slot1].pc.n != t.workers[slot2].pc.n
    ensures TempName(slot1, t.workers[slot1].pc.n) != TempName(slot2, t.workers[slot2].pc.n)
  {
    ReachedIsInv(cfg, s, run, t);
    var w := t.workers;
    if TempName(slot1, w[slot1].pc.n) == TempName(slot2, w[slot2].pc.n) {
      TempNamesHaveOneTicket(slot1, w[slot1].pc.n, slot2, w[slot2].pc.n);
    }
  }

  // ---------- what is on the destination ----------

  /** Entry k places a file and no later entry places another one over it. */
  ghost predicate LastPlaced(log: seq<Event>, k: nat, at: Place)
    requires k < |log|
  {
    log[k].Placed? && log[k].at == at && forall m :: k < m < |log| && log[m].Placed? ==> log[m].at != at
  }

  /** Replaying placements leaves at each place the bytes of the last one, and elsewhere what was there. */
  lemma {:induction false} ReplayIsLastWriter(finals: map<Place, Bytes>, log: seq<Event>, at: Place, k: nat)
    requires k < |log| && LastPlaced(log, k, at)
    ensures at in Replay(finals, log) && Replay(finals, log)[at] == log[k].bytes
  {
    var m := |log| - 1;
    if k < m {
      assert LastPlaced(log[..m], k, at);
      ReplayIsLastWriter(finals, log[..m], at, k);
    }
  }

  lemma {:induction false} ReplayElsewhere(finals: map<Place, Bytes>, log: seq<Event>, at: Place)
    requires forall k :: 0 <= k < |log| && log[k].Placed? ==> log[k].at != at
    ensures at in Replay(finals, log) <==> at in finals
    ensures at in finals ==> Replay(finals, log)[at] == finals[at]
  {
    if log != [] { ReplayElsewhere(finals, log[..|log| - 1], at); }
  }

  lemma {:induction false} FindLastPlaced(log: seq<Event>, k: nat, at: Place) returns (last: nat)
    requires k < |log| && log[k].Placed? && log[k].at == at
    ensures k <= last < |log| && LastPlaced(log, last, at)
    decreases |log| - k
  {
    if m :| k < m < |log| && log[m].Placed? && log[m].at == at {
      last := FindLastPlaced(log, m, at);
    } else {
      last := k;
    }
  }

  /** The destination holds, at each place, exactly the bytes last renamed to it. */
  lemma DestinationIsLastWriter(cfg: Config, s: System, run: seq<Action>, t: System, at: Place)
    requires Reaches(cfg, s, run, t)
    ensures
      || (exists k :: 0 <= k < |t.log| && LastPlaced(t.log, k, at) && at in t.finals && t.finals[at] == t.log[k].bytes)
      || (&& (forall k :: 0 <= k < |t.log| && t.log[k].Placed? ==> t.log[k].at != at)
          && (at in t.finals <==> at in s.finals) && (at in s.finals ==> t.finals[at] == s.finals[at]))
  {
    ReachedIsInv(cfg, s, run, t);
    if k :| 0 <= k < |t.log| && t.log[k].Placed? && t.log[k].at == at {
      var last := FindLastPlaced(t.log, k, at);
      ReplayIsLastWriter(s.finals, t.log, at, last);
    } else {
      ReplayElsewhere(s.finals, t.log, at);
    }
  }

  /** Placements to one place always carry the same bytes. */
  ghost predicate NoClobber(log: seq<Event>) {
    forall i, j :: 0 <= i < j < |log| && log[i].Placed? && log[j].Placed? && log[i].at == log[j].at
      ==> log[i].bytes == log[j].bytes
  }

  /** The contents a history erased as verified or placed. */
  ghost predicate Touched(log: seq<Event>, b: Bytes) {
    exists i :: 0 <= i < |log| && !log[i].Indexed? && log[i].bytes == b
  }

  ghost predicate NoCollision(cfg: Config, log: seq<Event>) {
    forall b, c :: Touched(log, b) && Touched(log, c) && cfg.hash(b) == cfg.hash(c) ==> b == c
  }

  /** Entry k of the history erases a file as verified. */
  predicate ErasesVerified(t: System, k: int) { 0 <= k < |t.log| && t.log[k].Erased? && t.log[k].verified }

  ghost predicate OnDestination(finals: map<Place, Bytes>, bytes: Bytes) {
    exists at :: at in finals && finals[at] == bytes
  }

  /** Without clobbering and without a hash collision among the contents involved, every file erased
      as verified is on the destination, byte for byte, ever after. */
  lemma ErasedFilesAreOnDestination(cfg: Config, s: System, run: seq<Action>, t: System, i: nat)
    requires Reaches(cfg, s, run, t) && NoClobber(t.log) && NoCollision(cfg, t.log)
    requires ErasesVerified(t, i)
    ensures OnDestination(t.finals, t.log[i].bytes)
  {
    EraseIsSafe(cfg, s, run, t, i);
    var k, j :| 0 <= k < j < i && t.log[j] == Indexed(cfg.hash(t.log[i].bytes)) &&
                t.log[k].Placed? && cfg.hash(t.log[k].bytes) == cfg.hash(t.log[i].bytes);
    assert Touched(t.log, t.log[k].bytes) && Touched(t.log, t.log[i].bytes);
    DestinationIsLastWriter(cfg, s, run, t, t.log[k].at);
  }

  // ---------- the card ----------

  /** The index and the history only ever grow, across crashes too. */
  lemma {:induction false} RunGrows(cfg: Config, s: System, run: seq<Action>, k: nat)
    requires k <= |run| && After(cfg, s, run).Some?
    ensures After(cfg, s, run[..k]).Some?
    ensures var mid, t := After(cfg, s, run[..k]).value, After(cfg, s, run).value;
      mid.index <= t.index && mid.log <= t.log
  {
    if k == |run| {
      assert run[..k] == run;
    } else {
      var m := |run| - 1;
      RunGrows(cfg, s, run[..m], k);
      assert run[..m][..k] == run[..k];
    }
  }

  /** A card is as it was scanned until its worker has remounted it writable, which takes an ingest
      of every scanned file without a fatal error; after that, whatever the policy does not cover,
      and every file that failed, is still there unchanged. */
  lemma CardIsSafe(cfg: Config, s: System, run: seq<Action>, t: System, slot: Slot)
    requires Reaches(cfg, s, run, t) && slot in t.workers
    ensures var w := t.workers[slot];
      && (!w.pc.Erasing? ==> w.card == w.files)
      && (w.pc.Erasing? ==> |w.done| == |w.scan|)
      && (forall p :: p in w.card ==> p in w.files && w.card[p] == w.files[p])
      && (forall i :: 0 <= i < |w.done| <= |w.scan| && w.done[i] in Protected(cfg) ==> w.scan[i] in w.card)
  {
    ReachedIsInv(cfg, s, run, t);
    assert WorkerOk(cfg, t, slot, t.workers[slot]);
  }
}
