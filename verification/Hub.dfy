/** The event hub: a lossy bounded fan-out. First as an object used by one caller at a time, then as a
    step machine in which publishers, subscribers, consumers and cancel functions interleave. */
module Hub {
  import opened Domain

  const CAPACITY: nat := 64

  /** at is 0 for an event that carries no time yet. */
  datatype Event = Event(kind: string, slot: string, at: nat)

  function Stamped(e: Event, now: nat): Event { if e.at == 0 then e.(at := now) else e }

  /** A non-blocking send: kept when there is room, dropped otherwise. */
  function Offered(buffer: seq<Event>, e: Event): seq<Event> { if |buffer| < CAPACITY then buffer + [e] else buffer }

  class Channel {
    var buffer: seq<Event>
    var closed: bool
    var cancelled: bool                // the once guard of its cancel function

    constructor ()
      ensures buffer == [] && !closed && !cancelled
    {
      buffer, closed, cancelled := [], false, false;
    }
  }

  class Hub {
    var subs: set<Channel>

    ghost predicate Valid()
      reads this, subs
    {
      forall ch :: ch in subs ==> !ch.closed && !ch.cancelled && |ch.buffer| <= CAPACITY
    }

    constructor ()
      ensures Valid() && subs == {}
    {
      subs := {};
    }

    method Subscribe() returns (ch: Channel)
      requires Valid()
      modifies this
      ensures Valid() && fresh(ch) && subs == old(subs) + {ch} && ch.buffer == []
    {
      ch := new Channel();
      subs := subs + {ch};
    }

    /** Every subscriber is offered the event exactly once, whatever the order; nobody else is touched. */
    method Publish(e: Event, now: nat)
      requires Valid()
      modifies subs
      ensures Valid() && subs == old(subs)
      ensures forall ch :: ch in subs ==> ch.buffer == Offered(old(ch.buffer), Stamped(e, now))
      ensures forall ch :: ch in subs && |old(ch.buffer)| < 64 ==>
        ch.buffer == old(ch.buffer) + [Event(e.kind, e.slot, if e.at == 0 then now else e.at)]
      ensures forall ch :: ch in subs && |old(ch.buffer)| >= 64 ==> ch.buffer == old(ch.buffer)
    {
      var stamped := if e.at == 0 then e.(at := now) else e;
      var rest := subs;
      while rest != {}
        invariant rest <= subs && Valid() && subs == old(subs)
        invariant forall ch :: ch in rest ==> ch.buffer == old(ch.buffer)
        invariant forall ch :: ch in subs - rest ==> ch.buffer == Offered(old(ch.buffer), stamped)
        decreases |rest|
      {
        var ch :| ch in rest;
        if |ch.buffer| < CAPACITY { ch.buffer := ch.buffer + [stamped]; }
        rest := rest - {ch};
      }
    }

    /** A subscriber's cancel function: the first call unsubscribes and closes, later calls do nothing. */
    method Cancel(ch: Channel)
      requires Valid() && (ch in subs <==> !ch.cancelled)
      modifies this, ch
      ensures Valid() && subs == old(subs) - {ch} && ch.cancelled && ch.buffer == old(ch.buffer)
      ensures old(ch.cancelled) ==> subs == old(subs) && ch.closed == old(ch.closed)
      ensures !old(ch.cancelled) ==> ch.closed
    {
      if !ch.cancelled {
        ch.cancelled := true;
        subs := subs - {ch};
        ch.closed := true;
      }
    }
  }

  // ---------- the concurrent hub ----------

  /** How far a subscriber's cancel function has come; it runs its body once. */
  datatype Cancelling = Uncalled | Deleted | Returned

  /** One subscriber's channel. since is how many events had been published when it subscribed; kept says
      of each later event offered to it, in order, whether it went into the buffer. */
  datatype Chan = Chan(buffer: seq<Event>, received: seq<Event>, closed: bool, cancelling: Cancelling, since: nat,
                       kept: seq<bool>)

  function NewChan(since: nat): Chan { Chan([], [], false, Uncalled, since, []) }

  /** The channel after one more event has been offered to it, and after one has been received. */
  function OfferedTo(c: Chan, e: Event): Chan {
    c.(buffer := Offered(c.buffer, e), kept := c.kept + [|c.buffer| < CAPACITY])
  }

  function Received(c: Chan): Chan
    requires c.buffer != []
  {
    c.(buffer := c.buffer[1..], received := c.received + [c.buffer[0]])
  }

  /** The mutex is held exactly while one publisher walks the subscribers; panicked records a send on a
      closed channel or a second close. */
  datatype State = State(
    subs: set<nat>, chans: map<nat, Chan>, nextId: nat,
    published: seq<Event>, locked: bool, pending: set<nat>, panicked: bool)

  datatype Action =
    | Subscribe
    | Lock(event: Event, now: nat)     // a publisher takes the mutex
    | Offer(id: nat)                   // and offers the event to one subscriber not yet offered it
    | Unlock
    | Receive(id: nat)
    | Delete(id: nat)                  // cancel, under the mutex
    | Close(id: nat)                   // cancel, after releasing it

  predicate Enabled(s: State, a: Action) {
    match a
    case Subscribe => !s.locked
    case Lock(_, _) => !s.locked
    case Offer(id) => s.locked && id in s.pending && id in s.chans && s.published != []
    case Unlock => s.locked && s.pending == {}
    case Receive(id) => id in s.chans && s.chans[id].buffer != []
    case Delete(id) => !s.locked && id in s.chans && s.chans[id].cancelling.Uncalled?
    case Close(id) => id in s.chans && s.chans[id].cancelling.Deleted?
  }

  function Step(s: State, a: Action): State
    requires Enabled(s, a)
  {
    match a
    case Subscribe =>
      s.(subs := s.subs + {s.nextId}, chans := s.chans[s.nextId := NewChan(|s.published|)], nextId := s.nextId + 1)
    case Lock(e, now) => s.(published := s.published + [Stamped(e, now)], locked := true, pending := s.subs)
    case Offer(id) =>
      s.(pending := s.pending - {id}, panicked := s.panicked || s.chans[id].closed,
         chans := s.chans[id := OfferedTo(s.chans[id], s.published[|s.published| - 1])])
    case Unlock => s.(locked := false)
    case Receive(id) => s.(chans := s.chans[id := Received(s.chans[id])])
    case Delete(id) => s.(subs := s.subs - {id}, chans := s.chans[id := s.chans[id].(cancelling := Deleted)])
    case Close(id) =>
      s.(panicked := s.panicked || s.chans[id].closed,
         chans := s.chans[id := s.chans[id].(closed := true, cancelling := Returned)])
  }

  predicate Initial(s: State) {
    s.subs == {} && s.chans == map[] && s.published == [] && !s.locked && s.pending == {} && !s.panicked
  }

  /** The events flagged as kept, in order. */
  function Select(events: seq<Event>, kept: seq<bool>): seq<Event>
    requires |events| == |kept|
  {
    if kept == [] then [] else
      var n := |kept| - 1;
      Select(events[..n], kept[..n]) + if kept[n] then [events[n]] else []
  }

  /** What was received and what is buffered are the kept events of the subscription so far. */
  ghost predicate FlowOk(published: seq<Event>, c: Chan) {
    c.since + |c.kept| <= |published| && c.received + c.buffer == Select(published[c.since..c.since + |c.kept|], c.kept)
  }

  ghost predicate ChanOk(s: State, id: nat)
    requires id in s.chans
  {
    var c := s.chans[id];
    && id < s.nextId && |c.buffer| <= CAPACITY
    && (c.closed <==> c.cancelling.Returned?) && (id in s.subs <==> c.cancelling.Uncalled?)
    && (id in s.subs ==> c.since + |c.kept| + (if s.locked && id in s.pending then 1 else 0) == |s.published|)
    && FlowOk(s.published, c)
  }

  ghost predicate Inv(s: State) {
    && !s.panicked && s.pending <= s.subs && (forall id :: id in s.subs ==> id in s.chans)
    && (s.locked ==> s.published != []) && (!s.locked ==> s.pending == {})
    && forall id :: id in s.chans ==> ChanOk(s, id)
  }

  lemma {:induction false} SelectSnoc(events: seq<Event>, kept: seq<bool>, e: Event, keep: bool)
    requires |events| == |kept|
    ensures Select(events + [e], kept + [keep]) == Select(events, kept) + if keep then [e] else []
  {
    assert (events + [e])[..|kept|] == events && (kept + [keep])[..|kept|] == kept;
  }

  lemma PublishKeepsFlow(published: seq<Event>, e: Event, c: Chan)
    requires FlowOk(published, c)
    ensures FlowOk(published + [e], c)
  {
    assert (published + [e])[c.since..c.since + |c.kept|] == published[c.since..c.since + |c.kept|];
  }

  lemma OfferKeepsFlow(published: seq<Event>, c: Chan)
    requires FlowOk(published, c) && c.since + |c.kept| + 1 == |published|
    ensures FlowOk(published, OfferedTo(c, published[|published| - 1]))
  {
    var n := c.since + |c.kept|;
    assert published[c.since..n + 1] == published[c.since..n] + [published[n]];
    SelectSnoc(published[c.since..n], c.kept, published[n], |c.buffer| < CAPACITY);
  }

  lemma ReceiveKeepsFlow(published: seq<Event>, c: Chan)
    requires FlowOk(published, c) && c.buffer != []
    ensures FlowOk(published, Received(c))
  {
    assert c.received + [c.buffer[0]] + c.buffer[1..] == c.received + c.buffer;
  }

  lemma CancelKeepsFlow(published: seq<Event>, c: Chan, closed: bool, cancelling: Cancelling)
    requires FlowOk(published, c)
    ensures FlowOk(published, c.(closed := closed, cancelling := cancelling))
  {
  }

  lemma NewFlow(published: seq<Event>)
    ensures FlowOk(published, NewChan(|published|))
  {
  }

  lemma StepKeepsFlow(s: State, a: Action, id: nat)
    requires Inv(s) && Enabled(s, a) && id in Step(s, a).chans
    ensures FlowOk(Step(s, a).published, Step(s, a).chans[id])
  {
    hide FlowOk;
    if id !in s.chans {
      NewFlow(s.published);
    } else {
      assert ChanOk(s, id);
      var c := s.chans[id];
      match a
      case Lock(e, now) => PublishKeepsFlow(s.published, Stamped(e, now), c);
      case Offer(other) => if other == id { OfferKeepsFlow(s.published, c); }
      case Receive(other) => if other == id { ReceiveKeepsFlow(s.published, c); }
      case _ => CancelKeepsFlow(s.published, c, Step(s, a).chans[id].closed, Step(s, a).chans[id].cancelling);
    }
  }

  lemma StepKeepsChan(s: State, a: Action, id: nat)
    requires Inv(s) && Enabled(s, a) && id in Step(s, a).chans
    ensures ChanOk(Step(s, a), id)
  {
    hide FlowOk;
    if id in s.chans { assert ChanOk(s, id); }
    StepKeepsFlow(s, a, id);
  }

  lemma StepKeepsInv(s: State, a: Action)
    requires Inv(s) && Enabled(s, a)
    ensures Inv(Step(s, a))
  {
    var t := Step(s, a);
    forall id | id in t.chans ensures ChanOk(t, id) { StepKeepsChan(s, a, id); }
    if a.Offer? || a.Close? || a.Delete? { assert ChanOk(s, a.id); }
  }

  // ---------- whole runs ----------

  ghost predicate Linked(states: seq<State>, run: seq<Action>, i: nat)
    requires i < |run| < |states|
  {
    Enabled(states[i], run[i]) && states[i + 1] == Step(states[i], run[i])
  }

  ghost predicate IsRun(states: seq<State>, run: seq<Action>) {
    |states| == |run| + 1 && Initial(states[0]) && forall i :: 0 <= i < |run| ==> Linked(states, run, i)
  }

  lemma {:induction false} RunKeepsInv(states: seq<State>, run: seq<Action>, i: nat)
    requires IsRun(states, run) && i < |states|
    ensures Inv(states[i])
  {
    if i > 0 {
      hide Inv, Enabled, Step;
      RunKeepsInv(states, run, i - 1);
      assert Linked(states, run, i - 1);
      StepKeepsInv(states[i - 1], run[i - 1]);
    }
  }

  /** No interleaving sends on a closed channel or closes one twice, and no buffer outgrows its bound. */
  lemma NeverPanics(states: seq<State>, run: seq<Action>, i: nat, id: nat)
    requires IsRun(states, run) && i < |states|
    ensures !states[i].panicked
    ensures id in states[i].chans ==> |states[i].chans[id].buffer| <= 64
  {
    RunKeepsInv(states, run, i);
    if id in states[i].chans { assert ChanOk(states[i], id); }
  }

  /** What a subscriber has received, followed by what is buffered for it, is the events published since
      it subscribed, in order, without the ones flagged as dropped. While it is subscribed and no
      publication is under way, none of them is missing a flag. */
  lemma DeliversInOrder(states: seq<State>, run: seq<Action>, i: nat, id: nat)
    requires IsRun(states, run) && i < |states| && id in states[i].chans
    ensures var s, c := states[i], states[i].chans[id];
      && c.since + |c.kept| <= |s.published|
      && c.received + c.buffer == Select(s.published[c.since..c.since + |c.kept|], c.kept)
      && (id in s.subs && !s.locked ==> c.since + |c.kept| == |s.published|)
  {
    RunKeepsInv(states, run, i);
    assert ChanOk(states[i], id);
  }

  lemma StepFlags(s: State, a: Action, id: nat, k: nat)
    requires Enabled(s, a) && id in Step(s, a).chans && k < |Step(s, a).chans[id].kept|
    requires id in s.chans ==> id < s.nextId
    ensures id in s.chans
    ensures var was, c := s.chans[id].kept, Step(s, a).chans[id].kept;
      if k < |was| then c[k] == was[k] else a == Offer(id) && k == |was| && (c[k] <==> |s.chans[id].buffer| < CAPACITY)
  {
  }

  /** The step that dropped the k-th event offered to a subscriber. */
  ghost predicate DroppedAt(states: seq<State>, run: seq<Action>, n: nat, id: nat, k: nat)
    requires |states| == |run| + 1 && n < |run|
  {
    run[n] == Offer(id) && id in states[n].chans && |states[n].chans[id].kept| == k &&
      |states[n].chans[id].buffer| == 64
  }

  /** An event is missing only because the buffer was full when it was offered. */
  lemma {:induction false} DropsOnlyWhenFull(states: seq<State>, run: seq<Action>, i: nat, id: nat, k: nat)
    returns (n: nat)
    requires IsRun(states, run) && i < |states| && id in states[i].chans
    requires k < |states[i].chans[id].kept| && !states[i].chans[id].kept[k]
    ensures n < i && DroppedAt(states, run, n, id, k)
  {
    if i > 0 {
      RunKeepsInv(states, run, i - 1);
      assert Linked(states, run, i - 1);
      if id in states[i - 1].chans { assert ChanOk(states[i - 1], id); }
      StepFlags(states[i - 1], run[i - 1], id, k);
      if k < |states[i - 1].chans[id].kept| {
        n := DropsOnlyWhenFull(states, run, i - 1, id, k);
      } else {
        n := i - 1;
      }
    }
  }

  lemma {:induction false} SelectAll(events: seq<Event>, kept: seq<bool>)
    requires |events| == |kept| && forall k :: 0 <= k < |kept| ==> kept[k]
    ensures Select(events, kept) == events
  {
    if kept != [] {
      var n := |kept| - 1;
      SelectAll(events[..n], kept[..n]);
      assert events == events[..n] + [events[n]];
    }
  }

  /** A subscriber whose buffer is never full when an event is offered misses nothing: once it has
      drained its buffer, it has received exactly what was published since it subscribed. */
  lemma KeepingUpLosesNothing(states: seq<State>, run: seq<Action>, i: nat, id: nat)
    requires IsRun(states, run) && i < |states| && id in states[i].subs && id in states[i].chans && !states[i].locked
    requires forall n :: 0 <= n < i && run[n] == Offer(id) && id in states[n].chans ==>
      |states[n].chans[id].buffer| < 64
    ensures var c := states[i].chans[id];
      c.since <= |states[i].published| && c.received + c.buffer == states[i].published[c.since..]
  {
    var c := states[i].chans[id];
    DeliversInOrder(states, run, i, id);
    forall k | 0 <= k < |c.kept| ensures c.kept[k] {
      if !c.kept[k] {
        var n := DropsOnlyWhenFull(states, run, i, id, k);
      }
    }
    assert states[i].published[c.since..c.since + |c.kept|] == states[i].published[c.since..];
    SelectAll(states[i].published[c.since..], c.kept);
  }

  /** The events the publishers announced among the first i actions, in the order they took the mutex. */
  function Announced(run: seq<Action>, i: nat): seq<Event>
    requires i <= |run|
  {
    if i == 0 then [] else
      Announced(run, i - 1) + if run[i - 1].Lock? then [Stamped(run[i - 1].event, run[i - 1].now)] else []
  }

  lemma {:induction false} AnnouncedGrows(run: seq<Action>, n: nat, i: nat)
    requires n <= i <= |run|
    ensures Announced(run, n) <= Announced(run, i)
  {
    if n < i { AnnouncedGrows(run, n, i - 1); }
  }

  /** What is announced: the event of each publisher that took the mutex, with its own time, or with the publisher's
      when it carries none. */
  lemma {:induction false} AnnouncedIsStamped(run: seq<Action>, n: nat, i: nat)
    requires n < i <= |run| && run[n].Lock?
    ensures var k, e := |Announced(run, n)|, run[n].event;
      k < |Announced(run, i)| && Announced(run, i)[k] == Event(e.kind, e.slot, if e.at == 0 then run[n].now else e.at)
  {
    AnnouncedGrows(run, n + 1, i);
  }

  lemma {:induction false} PublishedIsAnnounced(states: seq<State>, run: seq<Action>, i: nat)
    requires IsRun(states, run) && i <= |run|
    ensures states[i].published == Announced(run, i)
  {
    if i > 0 {
      PublishedIsAnnounced(states, run, i - 1);
      assert Linked(states, run, i - 1);
    }
  }

  lemma StepAfterDelete(s: State, a: Action, id: nat)
    requires Inv(s) && Enabled(s, a) && id in s.chans && !s.chans[id].cancelling.Uncalled?
    ensures var c, d := s.chans[id], Step(s, a).chans[id];
      !d.cancelling.Uncalled? && d.kept == c.kept && d.since == c.since
  {
    assert ChanOk(s, id);
  }

  /** A subscription covers exactly the events announced between its Subscribe and its cancel: nothing is
      offered to it after cancel has deleted it. */
  lemma {:induction false} CancelEndsDelivery(states: seq<State>, run: seq<Action>, n: nat, i: nat, id: nat)
    requires IsRun(states, run) && n < i <= |run| && run[n] == Delete(id)
    ensures id in states[n].chans && id in states[i].chans && !states[i].chans[id].cancelling.Uncalled?
    ensures var c := states[i].chans[id];
      c.since + |c.kept| == |Announced(run, n)| && c.since <= |Announced(run, i)|
      && |Announced(run, n)| <= |Announced(run, i)|
      && c.received + c.buffer == Select(Announced(run, i)[c.since..|Announced(run, n)|], c.kept)
  {
    hide Select;
    RunKeepsInv(states, run, i - 1);
    assert Linked(states, run, i - 1);
    if i == n + 1 {
      assert ChanOk(states[n], id);
    } else {
      CancelEndsDelivery(states, run, n, i - 1, id);
      StepAfterDelete(states[i - 1], run[i - 1], id);
    }
    DeliversInOrder(states, run, i, id);
    PublishedIsAnnounced(states, run, n);
    PublishedIsAnnounced(states, run, i);
  }
}
