/** The presence tracker: a two-map debounce machine whose committed set refines a two-snapshot window,
    and the poll loop that feeds it. */
module Detect {
  import opened Domain

  datatype DeviceInfo = DeviceInfo(devPath: string, serial: string)
  type Snap = map<Slot, DeviceInfo>

  datatype Event = Inserted(slot: Slot, device: DeviceInfo) | Removed(slot: Slot, device: DeviceInfo)

  function Serials(m: Snap): map<Slot, string> { map s | s in m :: m[s].serial }

  predicate SameCard(m: Snap, snap: Snap, s: Slot) { s in m && s in snap && m[s].serial == snap[s].serial }

  // ---------- the specification: a two-snapshot window ----------

  /** The slots holding the same card in two consecutive snapshots. */
  function Window(previous: map<Slot, string>, current: map<Slot, string>): map<Slot, string> {
    map s | s in current && s in previous && previous[s] == current[s] :: current[s]
  }

  /** The window at the end of a history of snapshots. */
  function WindowOf(history: seq<Snap>): map<Slot, string> {
    if |history| < 2 then map[] else Window(Serials(history[|history| - 2]), Serials(history[|history| - 1]))
  }

  function LastSeen(history: seq<Snap>): map<Slot, string> {
    if history == [] then map[] else Serials(history[|history| - 1])
  }

  // ---------- what a consumer learns from events ----------

  /** The slots a consumer believes occupied after one more event; None when the event contradicts it. */
  function Tell(known: map<Slot, string>, e: Event): Option<map<Slot, string>> {
    match e
    case Inserted(s, d) => if s in known then None else Some(known[s := d.serial])
    case Removed(s, d) => if s in known && known[s] == d.serial then Some(known - {s}) else None
  }

  function Replay(known: map<Slot, string>, events: seq<Event>): Option<map<Slot, string>> {
    if events == [] then Some(known) else
      match Replay(known, events[..|events| - 1])
      case None => None
      case Some(k) => Tell(k, events[|events| - 1])
  }

  lemma {:induction false} ReplaySnoc(known: map<Slot, string>, events: seq<Event>, e: Event)
    requires Replay(known, events).Some?
    ensures Replay(known, events + [e]) == Tell(Replay(known, events).value, e)
  {
    assert (events + [e])[..|events|] == events;
  }

  lemma {:induction false} ReplayAppend(known: map<Slot, string>, a: seq<Event>, b: seq<Event>)
    ensures Replay(known, a + b) == match Replay(known, a) case None => None case Some(k) => Replay(k, b)
  {
    if b == [] {
      assert a + b == a;
    } else {
      var n := |b| - 1;
      assert (a + b)[..|a + b| - 1] == a + b[..n];
      ReplayAppend(known, a, b[..n]);
    }
  }

  /** Events that replay alternate: between an event and the next one of the same slot, an insertion is
      followed by the removal of the same card, and a removal by an insertion. */
  lemma {:induction false} ReplayAlternates(known: map<Slot, string>, events: seq<Event>, i: nat, j: nat)
    requires Replay(known, events).Some? && i < j < |events| && events[i].slot == events[j].slot
    requires forall k :: i < k < j ==> events[k].slot != events[i].slot
    ensures events[i].Inserted? ==> events[j].Removed? && events[j].device.serial == events[i].device.serial
    ensures events[i].Removed? ==> events[j].Inserted?
  {
    ReplayPrefix(known, events, j + 1);
    ReplayPrefix(known, events, j);
    ReplayRemembers(known, events, i, j);
    assert events[..j + 1][..j] == events[..j];
  }

  lemma {:induction false} ReplayPrefix(known: map<Slot, string>, events: seq<Event>, n: nat)
    requires n <= |events| && Replay(known, events).Some?
    ensures Replay(known, events[..n]).Some?
  {
    assert events == events[..n] + events[n..];
    ReplayAppend(known, events[..n], events[n..]);
  }

  lemma {:induction false} ReplayRemembers(known: map<Slot, string>, events: seq<Event>, i: nat, j: nat)
    requires Replay(known, events).Some? && i < j <= |events|
    requires forall k :: i < k < j ==> events[k].slot != events[i].slot
    ensures Replay(known, events[..j]).Some?
    ensures var k, s := Replay(known, events[..j]).value, events[i].slot;
      if events[i].Inserted? then s in k && k[s] == events[i].device.serial else s !in k
  {
    ReplayPrefix(known, events, j);
    if i + 1 < j {
      ReplayRemembers(known, events, i, j - 1);
    } else {
      ReplayPrefix(known, events, i);
    }
    assert events[..j][..j - 1] == events[..j - 1];
  }

  // ---------- one reconciliation ----------

  function NextPresent(present: Snap, pending: Snap, snap: Snap): Snap {
    map s | s in snap && (SameCard(present, snap, s) || SameCard(pending, snap, s)) ::
      if SameCard(present, snap, s) then present[s] else snap[s]
  }

  function NextPending(present: Snap, pending: Snap, snap: Snap): Snap {
    map s | s in snap && !SameCard(present, snap, s) && !SameCard(pending, snap, s) :: snap[s]
  }

  /** The removal of a committed card that vanished or was swapped. */
  predicate IsDeparture(present: Snap, snap: Snap, e: Event) {
    e.slot in present && !SameCard(present, snap, e.slot) && e == Removed(e.slot, present[e.slot])
  }

  /** The insertion of a candidate seen again. */
  predicate IsArrival(present: Snap, pending: Snap, snap: Snap, e: Event) {
    !SameCard(present, snap, e.slot) && SameCard(pending, snap, e.slot) && e == Inserted(e.slot, snap[e.slot])
  }

  ghost predicate OnePerSlot(events: seq<Event>) {
    forall i, j :: 0 <= i < j < |events| ==> events[i].slot != events[j].slot
  }

  /** The events are the departures in some order, then the arrivals in some order, each once. */
  ghost predicate Arranges(events: seq<Event>, present: Snap, pending: Snap, snap: Snap) {
    exists k :: 0 <= k <= |events| &&
      OnePerSlot(events[..k]) && (forall e :: e in events[..k] <==> IsDeparture(present, snap, e)) &&
      OnePerSlot(events[k..]) && (forall e :: e in events[k..] <==> IsArrival(present, pending, snap, e))
  }

  lemma SerialsWithout(m: Snap, s: Slot)
    requires s in m
    ensures Serials(m - {s}) == Serials(m) - {s}
  {
  }

  lemma SerialsWith(m: Snap, s: Slot, d: DeviceInfo)
    ensures Serials(m[s := d]) == Serials(m)[s := d.serial]
  {
  }

  /** The removal loop after some slots: what is left, and the events so far. */
  ghost predicate Dropped(all: Snap, snap: Snap, visited: set<Slot>, present: Snap, events: seq<Event>) {
    && (forall s :: s in present <==> s in all && (s in visited ==> SameCard(all, snap, s)))
    && (forall s :: s in present ==> present[s] == all[s])
    && OnePerSlot(events)
    && (forall e :: e in events <==> e.slot in visited && IsDeparture(all, snap, e))
    && Replay(Serials(all), events) == Some(Serials(present))
  }

  lemma DropNone(all: Snap, snap: Snap)
    ensures Dropped(all, snap, {}, all, [])
  {
  }

  lemma DropOne(all: Snap, snap: Snap, visited: set<Slot>, present: Snap, events: seq<Event>, s: Slot)
    requires Dropped(all, snap, visited, present, events) && s in all && s !in visited
    ensures s in present && present[s] == all[s]
    ensures if SameCard(all, snap, s) then Dropped(all, snap, visited + {s}, present, events)
            else Dropped(all, snap, visited + {s}, present - {s}, events + [Removed(s, all[s])])
  {
    hide Replay;
    if !SameCard(all, snap, s) {
      ReplaySnoc(Serials(all), events, Removed(s, all[s]));
      SerialsWithout(present, s);
    }
  }

  /** The insertion loop after some slots: who is committed, who is deferred, and the events so far. */
  ghost predicate Confirmed(before: Snap, pending: Snap, snap: Snap, visited: set<Slot>, present: Snap, next: Snap,
                            events: seq<Event>) {
    && (forall s :: s in present <==> SameCard(before, snap, s) || (s in visited && SameCard(pending, snap, s)))
    && (forall s :: s in present ==> present[s] == if SameCard(before, snap, s) then before[s] else snap[s])
    && (forall s :: s in next <==>
          s in visited && s in snap && !SameCard(before, snap, s) && !SameCard(pending, snap, s))
    && (forall s :: s in next ==> next[s] == snap[s])
    && OnePerSlot(events)
    && (forall e :: e in events <==> e.slot in visited && IsArrival(before, pending, snap, e))
    && Replay(Serials(before), events) == Some(Serials(present))
  }

  lemma ConfirmNone(before: Snap, pending: Snap, snap: Snap)
    requires forall s :: s in before ==> SameCard(before, snap, s)
    ensures Confirmed(before, pending, snap, {}, before, map[], [])
  {
  }

  lemma ConfirmOne(before: Snap, pending: Snap, snap: Snap, visited: set<Slot>, present: Snap, next: Snap,
                   events: seq<Event>, s: Slot)
    requires Confirmed(before, pending, snap, visited, present, next, events) && s in snap && s !in visited
    ensures SameCard(before, snap, s) <==> s in present && present[s].serial == snap[s].serial
    ensures SameCard(pending, snap, s) <==> s in pending && pending[s].serial == snap[s].serial
    ensures if SameCard(before, snap, s) then Confirmed(before, pending, snap, visited + {s}, present, next, events)
            else if SameCard(pending, snap, s) then
              Confirmed(before, pending, snap, visited + {s}, present[s := snap[s]], next,
                        events + [Inserted(s, snap[s])])
            else Confirmed(before, pending, snap, visited + {s}, present, next[s := snap[s]], events)
  {
    hide Replay;
    if !SameCard(before, snap, s) && SameCard(pending, snap, s) {
      ConfirmArrival(before, pending, snap, visited, present, next, events, s);
    }
  }

  lemma ConfirmArrival(before: Snap, pending: Snap, snap: Snap, visited: set<Slot>, present: Snap, next: Snap,
                       events: seq<Event>, s: Slot)
    requires Confirmed(before, pending, snap, visited, present, next, events) && s in snap && s !in visited
    requires !SameCard(before, snap, s) && SameCard(pending, snap, s)
    ensures Confirmed(before, pending, snap, visited + {s}, present[s := snap[s]], next,
                      events + [Inserted(s, snap[s])])
  {
    hide Replay;
    ReplaySnoc(Serials(before), events, Inserted(s, snap[s]));
    SerialsWith(present, s, snap[s]);
  }

  /** The two loops together. */
  lemma {:induction false} ReconcileFacts(present: Snap, pending: Snap, snap: Snap, kept: Snap, removals: seq<Event>,
                       committed: Snap, deferred: Snap, arrivals: seq<Event>)
    requires Dropped(present, snap, present.Keys, kept, removals)
    requires Confirmed(kept, pending, snap, snap.Keys, committed, deferred, arrivals)
    ensures committed == NextPresent(present, pending, snap) && deferred == NextPending(present, pending, snap)
    ensures Arranges(removals + arrivals, present, pending, snap)
    ensures Replay(Serials(present), removals + arrivals) == Some(Serials(committed))
  {
    hide Replay;
    var events := removals + arrivals;
    assert forall s :: SameCard(kept, snap, s) <==> SameCard(present, snap, s);
    assert events[..|removals|] == removals && events[|removals|..] == arrivals;
    ReplayAppend(Serials(present), removals, arrivals);
  }

  class Tracker {
    var present: Snap                  // reported as inserted, awaiting removal
    var pending: Snap                  // seen once, awaiting a confirming snapshot

    constructor ()
      ensures present == map[] && pending == map[]
    {
      present, pending := map[], map[];
    }

    /** Whatever order the maps are visited in, the next state and the bag of events are the same, and a
        consumer that knew the old present set learns exactly the new one. */
    method Reconcile(snap: Snap) returns (events: seq<Event>)
      modifies this
      ensures present == NextPresent(old(present), old(pending), snap)
      ensures pending == NextPending(old(present), old(pending), snap)
      ensures Arranges(events, old(present), old(pending), snap)
      ensures Replay(Serials(old(present)), events) == Some(Serials(present))
    {
      var removals := DropVanished(snap);
      ghost var kept := present;
      var arrivals := Confirm(snap);
      events := removals + arrivals;
      ReconcileFacts(old(present), old(pending), snap, kept, removals, present, pending, arrivals);
    }

    /** The removal loop. */
    method DropVanished(snap: Snap) returns (events: seq<Event>)
      modifies this`present
      ensures Dropped(old(present), snap, old(present).Keys, present, events)
    {
      hide Dropped, Replay;
      events := [];
      ghost var all, visited := present, {};
      DropNone(all, snap);
      var rest := present.Keys;
      while rest != {}
        invariant rest !! visited && rest + visited == all.Keys
        invariant Dropped(all, snap, visited, present, events)
        decreases |rest|
      {
        var slot :| slot in rest;
        DropOne(all, snap, visited, present, events, slot);
        var dev := present[slot];
        if slot !in snap || snap[slot].serial != dev.serial {
          events := events + [Removed(slot, dev)];
          present := present - {slot};
        }
        rest, visited := rest - {slot}, visited + {slot};
      }
      assert visited == all.Keys;
    }

    /** The insertion loop, over a committed set that agrees with the snapshot. */
    method Confirm(snap: Snap) returns (events: seq<Event>)
      requires forall s :: s in present ==> SameCard(present, snap, s)
      modifies this
      ensures Confirmed(old(present), old(pending), snap, snap.Keys, present, pending, events)
    {
      hide Confirmed, Replay, SameCard;
      events := [];
      ghost var before, candidates, visited := present, pending, {};
      ConfirmNone(before, candidates, snap);
      var nextPending: Snap := map[];
      var rest := snap.Keys;
      while rest != {}
        invariant rest !! visited && rest + visited == snap.Keys && pending == candidates
        invariant Confirmed(before, candidates, snap, visited, present, nextPending, events)
        decreases |rest|
      {
        var slot :| slot in rest;
        ConfirmOne(before, candidates, snap, visited, present, nextPending, events, slot);
        var dev := snap[slot];
        if slot in present && present[slot].serial == dev.serial {
        } else if slot in pending && pending[slot].serial == dev.serial {
          events := events + [Inserted(slot, dev)];
          present := present[slot := dev];
        } else {
          nextPending := nextPending[slot := dev];
        }
        visited := visited + {slot};
        assert Confirmed(before, candidates, snap, visited, present, nextPending, events);
        rest := rest - {slot};
      }
      pending := nextPending;
      assert visited == snap.Keys;
    }
  }

  // ---------- over whole runs ----------

  /** The committed and the candidate slots are disjoint and together are the last snapshot's. */
  ghost predicate Tracks(present: Snap, pending: Snap, seen: map<Slot, string>) {
    && present.Keys !! pending.Keys
    && (forall s :: s in seen <==> s in present || s in pending)
    && (forall s :: s in present ==> seen[s] == present[s].serial)
    && (forall s :: s in pending ==> seen[s] == pending[s].serial)
  }

  /** One snapshot later the tracker again partitions the snapshot, and its committed set is the
      two-snapshot window. */
  lemma ReconcileRefinesWindow(present: Snap, pending: Snap, seen: map<Slot, string>, snap: Snap)
    requires Tracks(present, pending, seen)
    ensures Tracks(NextPresent(present, pending, snap), NextPending(present, pending, snap), Serials(snap))
    ensures Serials(NextPresent(present, pending, snap)) == Window(seen, Serials(snap))
  {
  }

  /** A removal of this card is reported, or an insertion of it. */
  ghost predicate Leaves(events: seq<Event>, s: Slot, serial: string) {
    exists e :: e in events && e.Removed? && e.slot == s && e.device.serial == serial
  }

  ghost predicate Enters(events: seq<Event>, s: Slot, serial: string) {
    exists e :: e in events && e.Inserted? && e.slot == s && e.device.serial == serial
  }

  predicate Holds(m: map<Slot, string>, s: Slot, serial: string) { s in m && m[s] == serial }

  /** The events of a reconciliation are exactly the difference between the windows before and after. */
  lemma EventsAreWindowDifference(present: Snap, pending: Snap, seen: map<Slot, string>, snap: Snap,
                                  events: seq<Event>, s: Slot, serial: string)
    requires Tracks(present, pending, seen) && Arranges(events, present, pending, snap)
    ensures Leaves(events, s, serial) <==>
      Holds(Serials(present), s, serial) && !Holds(Serials(NextPresent(present, pending, snap)), s, serial)
    ensures Enters(events, s, serial) <==>
      !Holds(Serials(present), s, serial) && Holds(Serials(NextPresent(present, pending, snap)), s, serial)
  {
    EventsAre(present, pending, snap, events);
    if Holds(Serials(present), s, serial) && !SameCard(present, snap, s) {
      assert IsDeparture(present, snap, Removed(s, present[s]));
    }
    if !SameCard(present, snap, s) && SameCard(pending, snap, s) {
      assert IsArrival(present, pending, snap, Inserted(s, snap[s]));
    }
  }

  lemma EventsAre(present: Snap, pending: Snap, snap: Snap, events: seq<Event>)
    requires Arranges(events, present, pending, snap)
    ensures forall e :: e in events <==> IsDeparture(present, snap, e) || IsArrival(present, pending, snap, e)
  {
    hide IsDeparture, IsArrival, OnePerSlot;
    var k :| 0 <= k <= |events| &&
      OnePerSlot(events[..k]) && (forall e :: e in events[..k] <==> IsDeparture(present, snap, e)) &&
      OnePerSlot(events[k..]) && (forall e :: e in events[k..] <==> IsArrival(present, pending, snap, e));
    assert events == events[..k] + events[k..];
  }

  /** The committed and the candidate slots after a history of snapshots. */
  function Follow(history: seq<Snap>): (Snap, Snap) {
    if history == [] then (map[], map[]) else
      var n := |history| - 1;
      var before := Follow(history[..n]);
      (NextPresent(before.0, before.1, history[n]), NextPending(before.0, before.1, history[n]))
  }

  /** After any history the committed set is the window over its last two snapshots, and committed and
      candidate slots partition the last one. */
  lemma {:induction false} TrackerIsWindow(history: seq<Snap>)
    ensures Serials(Follow(history).0) == WindowOf(history)
    ensures Tracks(Follow(history).0, Follow(history).1, LastSeen(history))
  {
    if history != [] {
      var n := |history| - 1;
      TrackerIsWindow(history[..n]);
      var before := Follow(history[..n]);
      ReconcileRefinesWindow(before.0, before.1, LastSeen(history[..n]), history[n]);
      if n > 0 { assert history[..n][n - 1] == history[n - 1]; }
    }
  }

  /** No reconciliation reports two events for one slot. */
  lemma AtMostOneEventPerSlot(present: Snap, pending: Snap, seen: map<Slot, string>, snap: Snap, events: seq<Event>)
    requires Tracks(present, pending, seen) && Arranges(events, present, pending, snap)
    ensures OnePerSlot(events)
  {
    var k :| 0 <= k <= |events| &&
      OnePerSlot(events[..k]) && (forall e :: e in events[..k] <==> IsDeparture(present, snap, e)) &&
      OnePerSlot(events[k..]) && (forall e :: e in events[k..] <==> IsArrival(present, pending, snap, e));
    forall i, j | 0 <= i < j < |events| ensures events[i].slot != events[j].slot {
      if j < k {
        assert events[..k][i].slot != events[..k][j].slot;
      } else if k <= i {
        assert events[k..][i - k].slot != events[k..][j - k].slot;
      } else {
        assert events[i] == events[..k][i] && events[j] == events[k..][j - k];
        assert events[i] in events[..k] && events[j] in events[k..];
      }
    }
  }

  /** The snapshots a poll loop gets to see: failed enumerations are skipped. */
  function Successes(ticks: seq<Option<Snap>>): seq<Snap> {
    if ticks == [] then [] else
      var t := ticks[|ticks| - 1];
      Successes(ticks[..|ticks| - 1]) + if t.Some? then [t.value] else []
  }

  /** Hands events over one by one until the context is cancelled. */
  method Deliver(before: seq<Event>, events: seq<Event>, budget: nat) returns (delivered: seq<Event>, cancelled: bool)
    requires |before| <= budget
    ensures cancelled <==> budget < |before| + |events|
    ensures delivered == if cancelled then (before + events)[..budget] else before + events
  {
    delivered := before;
    for j := 0 to |events|
      invariant delivered == (before + events)[..|before| + j] && |delivered| <= budget
    {
      if |delivered| == budget { return delivered, true; }
      delivered := delivered + [events[j]];
    }
    cancelled := false;
  }

  // ---------- what is delivered, tick by tick ----------

  /** A consumer of the first n events knows the window after the first i ticks. */
  ghost predicate KnownAt(ticks: seq<Option<Snap>>, delivered: seq<Event>, n: int, i: int) {
    0 <= n <= |delivered| && 0 <= i <= |ticks| && Replay(map[], delivered[..n]) == Some(WindowOf(Successes(ticks[..i])))
  }

  /** The events from a to b are of tick i: at most one for each slot, and an insertion names the device that tick
      saw there. */
  ghost predicate FromTick(ticks: seq<Option<Snap>>, delivered: seq<Event>, a: int, b: int, i: int) {
    && 0 <= a <= b <= |delivered| && 0 <= i < |ticks| && OnePerSlot(delivered[a..b])
    && forall e :: e in delivered[a..b] && e.Inserted? ==>
         ticks[i].Some? && e.slot in ticks[i].value && e.device == ticks[i].value[e.slot]
  }

  /** cuts says how many events had been delivered after each tick. */
  ghost predicate Cuts(ticks: seq<Option<Snap>>, delivered: seq<Event>, cuts: seq<int>) {
    && 0 < |cuts| <= |ticks| + 1 && cuts[0] == 0
    && (forall i :: 0 <= i < |cuts| ==> KnownAt(ticks, delivered, cuts[i], i))
    && (forall i :: 0 < i < |cuts| ==> FromTick(ticks, delivered, cuts[i - 1], cuts[i], i - 1))
  }

  lemma KnownStays(ticks: seq<Option<Snap>>, delivered: seq<Event>, more: seq<Event>, n: int, i: int)
    requires KnownAt(ticks, delivered, n, i)
    ensures KnownAt(ticks, delivered + more, n, i)
  {
    assert (delivered + more)[..n] == delivered[..n];
  }

  lemma FromStays(ticks: seq<Option<Snap>>, delivered: seq<Event>, more: seq<Event>, a: int, b: int, i: int)
    requires FromTick(ticks, delivered, a, b, i)
    ensures FromTick(ticks, delivered + more, a, b, i)
  {
    assert (delivered + more)[a..b] == delivered[a..b];
  }

  lemma CutsStay(ticks: seq<Option<Snap>>, delivered: seq<Event>, more: seq<Event>, cuts: seq<int>)
    requires Cuts(ticks, delivered, cuts)
    ensures Cuts(ticks, delivered + more, cuts)
  {
    hide KnownAt, FromTick;
    forall i | 0 <= i < |cuts| ensures KnownAt(ticks, delivered + more, cuts[i], i) {
      KnownStays(ticks, delivered, more, cuts[i], i);
    }
    forall i | 0 < i < |cuts| ensures FromTick(ticks, delivered + more, cuts[i - 1], cuts[i], i - 1) {
      FromStays(ticks, delivered, more, cuts[i - 1], cuts[i], i - 1);
    }
  }

  lemma CutsNone(ticks: seq<Option<Snap>>)
    ensures Cuts(ticks, [], [0])
  {
  }

  /** These are the events the next tick gives rise to. */
  ghost predicate NextEvents(ticks: seq<Option<Snap>>, delivered: seq<Event>, cuts: seq<int>, events: seq<Event>) {
    && Cuts(ticks, delivered, cuts) && cuts[|cuts| - 1] == |delivered|
    && KnownAt(ticks, delivered + events, |delivered + events|, |cuts|)
    && FromTick(ticks, delivered + events, |delivered|, |delivered + events|, |cuts| - 1)
  }

  lemma CutsNext(ticks: seq<Option<Snap>>, delivered: seq<Event>, cuts: seq<int>, events: seq<Event>)
    requires NextEvents(ticks, delivered, cuts, events)
    ensures Cuts(ticks, delivered + events, cuts + [|delivered + events|])
  {
    hide KnownAt, FromTick;
    CutsStay(ticks, delivered, events, cuts);
    assert |cuts| <= |ticks| by { KnownRange(ticks, delivered + events, |delivered + events|, |cuts|); }
    var longer := cuts + [|delivered + events|];
    assert forall i :: 0 <= i < |cuts| ==> longer[i] == cuts[i];
  }

  lemma KnownRange(ticks: seq<Option<Snap>>, delivered: seq<Event>, n: int, i: int)
    requires KnownAt(ticks, delivered, n, i)
    ensures i <= |ticks|
  {
  }

  /** Every removal delivered is of a device that was delivered as inserted. */
  ghost predicate RemovesInserted(delivered: seq<Event>) {
    forall e :: e in delivered && e.Removed? ==> Inserted(e.slot, e.device) in delivered
  }

  /** Every committed device was delivered as inserted. */
  ghost predicate Announced(present: Snap, delivered: seq<Event>) {
    forall s :: s in present ==> Inserted(s, present[s]) in delivered
  }

  lemma ReconcileAnnounces(present: Snap, pending: Snap, snap: Snap, delivered: seq<Event>, events: seq<Event>)
    requires Arranges(events, present, pending, snap) && Announced(present, delivered)
    ensures Announced(NextPresent(present, pending, snap), delivered + events)
    ensures forall e :: e in events && e.Removed? ==> Inserted(e.slot, e.device) in delivered
    ensures forall e :: e in events && e.Inserted? ==> e.slot in snap && e.device == snap[e.slot]
  {
    EventsAre(present, pending, snap, events);
    var next := NextPresent(present, pending, snap);
    forall s | s in next ensures Inserted(s, next[s]) in delivered + events {
      if !SameCard(present, snap, s) { assert IsArrival(present, pending, snap, Inserted(s, snap[s])); }
    }
  }

  lemma RemovesOnly(delivered: seq<Event>, events: seq<Event>, more: seq<Event>)
    requires RemovesInserted(delivered) && forall e :: e in more ==> e in events
    requires forall e :: e in events && e.Removed? ==> Inserted(e.slot, e.device) in delivered
    ensures RemovesInserted(delivered + more)
  {
  }

  lemma {:induction false} WindowNext(history: seq<Snap>, snap: Snap)
    ensures WindowOf(history + [snap]) == Window(LastSeen(history), Serials(snap))
    ensures LastSeen(history + [snap]) == Serials(snap)
  {
  }

  lemma {:induction false} SuccessesNext(ticks: seq<Option<Snap>>, i: nat)
    requires i < |ticks|
    ensures Successes(ticks[..i + 1]) ==
      if ticks[i].Some? then Successes(ticks[..i]) + [ticks[i].value] else Successes(ticks[..i])
  {
    assert ticks[..i + 1][..i] == ticks[..i];
    assert Successes(ticks[..i]) + [] == Successes(ticks[..i]);
  }

  /** Where the loop stands before tick i. */
  ghost predicate Looping(ticks: seq<Option<Snap>>, i: nat, present: Snap, pending: Snap, delivered: seq<Event>,
                          cuts: seq<int>)
    requires i <= |ticks|
  {
    && Tracks(present, pending, LastSeen(Successes(ticks[..i])))
    && Serials(present) == WindowOf(Successes(ticks[..i]))
    && |cuts| == i + 1 && cuts[i] == |delivered| && Cuts(ticks, delivered, cuts)
    && Announced(present, delivered) && RemovesInserted(delivered)
  }

  lemma {:induction false} Start(ticks: seq<Option<Snap>>)
    ensures Looping(ticks, 0, map[], map[], [], [0])
  {
    hide Replay;
    assert Replay(map[], []) == Some(map[]) by { ReplayNone(); }
  }

  lemma {:induction false} ReplayNone()
    ensures Replay(map[], []) == Some(map[])
  {
  }

  /** The window a successful tick leads to, and what its events look like. */
  lemma TickTracks(ticks: seq<Option<Snap>>, i: nat, present: Snap, pending: Snap, delivered: seq<Event>,
                   cuts: seq<int>, events: seq<Event>)
    requires i < |ticks| && ticks[i].Some? && Looping(ticks, i, present, pending, delivered, cuts)
    requires Arranges(events, present, pending, ticks[i].value)
    ensures var next := NextPresent(present, pending, ticks[i].value);
      && Tracks(next, NextPending(present, pending, ticks[i].value), LastSeen(Successes(ticks[..i + 1])))
      && Serials(next) == WindowOf(Successes(ticks[..i + 1]))
    ensures OnePerSlot(events)
  {
    hide Arranges, OnePerSlot, Tracks, NextPresent, NextPending, Cuts, Serials, LastSeen, WindowOf, Window;
    hide Successes, Announced, RemovesInserted;
    var history, snap := Successes(ticks[..i]), ticks[i].value;
    SuccessesNext(ticks, i);
    WindowNext(history, snap);
    ReconcileRefinesWindow(present, pending, LastSeen(history), snap);
    AtMostOneEventPerSlot(present, pending, LastSeen(history), snap, events);
  }

  /** A successful tick whose events are all delivered. */
  lemma {:induction false} TickGives(ticks: seq<Option<Snap>>, i: nat, present: Snap, pending: Snap,
                                     delivered: seq<Event>, cuts: seq<int>, events: seq<Event>)
    requires i < |ticks| && ticks[i].Some? && Looping(ticks, i, present, pending, delivered, cuts)
    requires Arranges(events, present, pending, ticks[i].value)
    requires Replay(Serials(present), events) == Some(Serials(NextPresent(present, pending, ticks[i].value)))
    ensures NextEvents(ticks, delivered, cuts, events) && RemovesInserted(delivered)
    ensures forall e :: e in events && e.Removed? ==> Inserted(e.slot, e.device) in delivered
    ensures var snap := ticks[i].value;
      Looping(ticks, i + 1, NextPresent(present, pending, snap), NextPending(present, pending, snap),
              delivered + events, cuts + [|delivered + events|])
  {
    hide Arranges, OnePerSlot, Tracks, NextPresent, NextPending, Serials, LastSeen, WindowOf, Successes, Replay;
    hide Announced, RemovesInserted;
    TickTracks(ticks, i, present, pending, delivered, cuts, events);
    ReconcileAnnounces(present, pending, ticks[i].value, delivered, events);
    RemovesOnly(delivered, events, events);
    assert KnownAt(ticks, delivered, cuts[i], i) && delivered[..cuts[i]] == delivered;
    ReplayAppend(map[], delivered, events);
    var all := delivered + events;
    assert all[..|all|] == all && all[|delivered|..|all|] == events;
    hide Cuts;
    CutsNext(ticks, delivered, cuts, events);
  }

  lemma IdleTick(ticks: seq<Option<Snap>>, i: nat, present: Snap, pending: Snap, delivered: seq<Event>, cuts: seq<int>)
    requires i < |ticks| && ticks[i].None? && Looping(ticks, i, present, pending, delivered, cuts)
    ensures Looping(ticks, i + 1, present, pending, delivered, cuts + [|delivered|])
  {
    hide Tracks, Serials, LastSeen, WindowOf, Successes, Replay, Announced, RemovesInserted;
    SuccessesNext(ticks, i);
    assert KnownAt(ticks, delivered, cuts[i], i);
    assert delivered + [] == delivered && delivered[|delivered|..|delivered|] == [];
    assert NextEvents(ticks, delivered, cuts, []);
    hide Cuts;
    CutsNext(ticks, delivered, cuts, []);
  }

  /** The cuts in plain terms: after each tick a consumer of what was delivered knows exactly the window over the
      snapshots seen so far, and each tick gives at most one event for a slot. */
  ghost predicate InStep(ticks: seq<Option<Snap>>, delivered: seq<Event>, cuts: seq<int>) {
    && 0 < |cuts| <= |ticks| + 1 && cuts[0] == 0
    && (forall i :: 0 <= i < |cuts| ==>
          0 <= cuts[i] <= |delivered| && Replay(map[], delivered[..cuts[i]]) == Some(WindowOf(Successes(ticks[..i]))))
    && (forall i :: 0 < i < |cuts| ==> cuts[i - 1] <= cuts[i] && OnePerSlot(delivered[cuts[i - 1]..cuts[i]]))
    && (forall i, e :: 0 < i < |cuts| && cuts[i - 1] <= cuts[i] <= |delivered| && cuts[i - 1] >= 0 &&
                       e in delivered[cuts[i - 1]..cuts[i]] && e.Inserted? ==>
          ticks[i - 1].Some? && e.slot in ticks[i - 1].value && e.device == ticks[i - 1].value[e.slot])
  }

  lemma {:induction false} CutsSay(ticks: seq<Option<Snap>>, delivered: seq<Event>, cuts: seq<int>)
    requires Cuts(ticks, delivered, cuts)
    ensures InStep(ticks, delivered, cuts)
    ensures cuts[|cuts| - 1] == |delivered| ==>
      Replay(map[], delivered) == Some(WindowOf(Successes(ticks[..|cuts| - 1])))
  {
    hide Replay, WindowOf, Successes, OnePerSlot;
    forall i | 0 <= i < |cuts|
      ensures 0 <= cuts[i] <= |delivered|
      ensures Replay(map[], delivered[..cuts[i]]) == Some(WindowOf(Successes(ticks[..i])))
    {
      assert KnownAt(ticks, delivered, cuts[i], i);
    }
    forall i | 0 < i < |cuts| ensures FromTick(ticks, delivered, cuts[i - 1], cuts[i], i - 1) { }
    assert delivered[..|delivered|] == delivered;
  }

  /** Cancelled while the events of a tick were being handed over. */
  lemma Interrupted(ticks: seq<Option<Snap>>, before: seq<Event>, cuts: seq<int>, events: seq<Event>, budget: nat)
    requires NextEvents(ticks, before, cuts, events) && |before| <= budget < |before + events|
    requires RemovesInserted(before)
    requires forall e :: e in events && e.Removed? ==> Inserted(e.slot, e.device) in before
    ensures var delivered, rest := (before + events)[..budget], (before + events)[budget..];
      && InStep(ticks, delivered, cuts) && Replay(map[], delivered).Some? && RemovesInserted(delivered)
      && |cuts| <= |ticks| && rest != [] && delivered + rest == before + events
  {
    hide Cuts, WindowOf, RemovesInserted, OnePerSlot, InStep, Successes, Replay;
    var more := events[..budget - |before|];
    assert (before + events)[..budget] == before + more;
    CutsStay(ticks, before, more, cuts);
    CutsSay(ticks, before + more, cuts);
    RemovesOnly(before, events, more);
    assert (before + events)[..|before + events|] == before + events;
    ReplayPrefix(map[], before + events, budget);
  }

  /** The poll loop. The context may be cancelled while an event is being handed over: budget says how many events
      are accepted before that. cuts says how many events had been delivered after each tick; a consumer of them
      is in step with the window over the snapshots at every one of them. When cancelled, this holds up to the
      tick under way; rest is what that tick would have delivered besides. */
  method Run(ticks: seq<Option<Snap>>, budget: nat)
    returns (delivered: seq<Event>, cancelled: bool, ghost cuts: seq<int>, ghost rest: seq<Event>)
    ensures Replay(map[], delivered).Some? && |delivered| <= budget && RemovesInserted(delivered)
    ensures cancelled ==> |delivered| == budget
    ensures !cancelled ==> Replay(map[], delivered) == Some(WindowOf(Successes(ticks)))
    ensures InStep(ticks, delivered, cuts)
    ensures !cancelled ==> |cuts| == |ticks| + 1 && cuts[|ticks|] == |delivered| && rest == []
    ensures cancelled ==>
      && |cuts| <= |ticks| && rest != []
      && Replay(map[], delivered + rest) == Some(WindowOf(Successes(ticks[..|cuts|])))
      && FromTick(ticks, delivered + rest, cuts[|cuts| - 1], |delivered + rest|, |cuts| - 1)
  {
    hide Arranges, Tracks, NextPresent, NextPending, WindowOf, Announced, RemovesInserted, Successes, Replay, FromTick;
    hide OnePerSlot, Cuts;
    var trk := new Tracker();
    delivered, cuts, rest := [], [0], [];
    Start(ticks);
    for i := 0 to |ticks|
      invariant fresh(trk) && |delivered| <= budget && Looping(ticks, i, trk.present, trk.pending, delivered, cuts)
    {
      if ticks[i].Some? {
        ghost var present, pending, before := trk.present, trk.pending, delivered;
        var events := trk.Reconcile(ticks[i].value);
        TickGives(ticks, i, present, pending, before, cuts, events);
        delivered, cancelled := Deliver(delivered, events, budget);
        if cancelled {
          Interrupted(ticks, before, cuts, events, budget);
          rest := (before + events)[budget..];
          NextEventsSay(ticks, before, cuts, events);
          return;
        }
      } else {
        IdleTick(ticks, i, trk.present, trk.pending, delivered, cuts);
      }
      cuts := cuts + [|delivered|];
    }
    assert ticks[..|ticks|] == ticks;
    CutsSay(ticks, delivered, cuts);
    cancelled := false;
  }

  lemma {:induction false} NextEventsSay(ticks: seq<Option<Snap>>, delivered: seq<Event>, cuts: seq<int>,
                                         events: seq<Event>)
    requires NextEvents(ticks, delivered, cuts, events)
    ensures 0 < |cuts| <= |ticks| && cuts[|cuts| - 1] == |delivered|
    ensures Replay(map[], delivered + events) == Some(WindowOf(Successes(ticks[..|cuts|])))
    ensures FromTick(ticks, delivered + events, |delivered|, |delivered + events|, |cuts| - 1)
  {
    assert (delivered + events)[..|delivered + events|] == delivered + events;
  }
}
