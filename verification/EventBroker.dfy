/** The event broker: bounded per-subscriber channels that drop when full. Publishing holds only a read
    lock, so deliveries of concurrent publishes interleave; subscribing and unsubscribing exclude them. */
module EventBroker {
  import opened Common

  datatype Event = Event(mod: string, kind: string, message: string, at: int, fields: map<string, string>)

  const CAPACITY: nat := 10
  const ID_SPACE: nat := 0x1_0000_0000_0000_0000

  /** A subscriber's channel. `received` (what the subscriber has taken out), `offered` (every event a
      publisher tried to send, in that order), `overrun` (some offer found it full) and `since` (how many
      events had been published when it was made) are history. */
  datatype Chan = Chan(buffer: seq<Event>, closed: bool, received: seq<Event>, offered: seq<Event>, overrun: bool, since: nat)

  /** A publish under way, with the subscribers it has still to offer the event to. */
  datatype Delivery = Delivery(event: Event, remaining: set<nat>)

  /** `panicked` would be set by sending on a closed channel or closing one twice; `published` lists the
      events published so far, in the order the publishes began. */
  datatype Broker = Broker(subs: map<nat, nat>, nextID: nat, chans: seq<Chan>, inFlight: seq<Delivery>,
                           panicked: bool, published: seq<Event>)

  const NEW_BROKER := Broker(map[], 1, [], [], false, [])

  /** A send that does not block: buffered if there is room, dropped otherwise. */
  function Offer(c: Chan, ev: Event): Chan {
    if |c.buffer| < CAPACITY
    then c.(buffer := c.buffer + [ev], offered := c.offered + [ev])
    else c.(offered := c.offered + [ev], overrun := true)
  }

  function Take(c: Chan): Chan
    requires c.buffer != []
  {
    c.(buffer := c.buffer[1..], received := c.received + [c.buffer[0]])
  }

  datatype Step =
    | Subscribe
    | Unsubscribe(id: nat)
    | BeginPublish(event: Event)
    | Deliver(publish: nat, id: nat)
    | EndPublish(publish: nat)
    | Receive(chan: nat)

  predicate Enabled(b: Broker, step: Step) {
    match step
    case Subscribe => b.inFlight == []
    case Unsubscribe(_) => b.inFlight == []
    case BeginPublish(_) => true
    case Deliver(p, id) => p < |b.inFlight| && id in b.inFlight[p].remaining
    case EndPublish(p) => p < |b.inFlight| && b.inFlight[p].remaining == {}
    case Receive(c) => c < |b.chans| && b.chans[c].buffer != []
  }

  /** The identifiers are 64-bit and wrap around. */
  function Subscribed(b: Broker): Broker {
    b.(subs := b.subs[b.nextID := |b.chans|],
       nextID := (b.nextID + 1) % ID_SPACE,
       chans := b.chans + [Chan([], false, [], [], false, |b.published|)])
  }

  function Unsubscribed(b: Broker, id: nat): Broker {
    if id !in b.subs || b.subs[id] >= |b.chans| then b
    else
      var c := b.subs[id];
      b.(subs := b.subs - {id}, chans := b.chans[c := b.chans[c].(closed := true)],
         panicked := b.panicked || b.chans[c].closed)
  }

  function Delivered(b: Broker, p: nat, id: nat): Broker
    requires p < |b.inFlight|
  {
    var d := b.inFlight[p];
    var b1 := b.(inFlight := b.inFlight[p := d.(remaining := d.remaining - {id})]);
    if id !in b.subs || b.subs[id] >= |b.chans| then b1
    else
      var c := b.subs[id];
      b1.(chans := b.chans[c := Offer(b.chans[c], d.event)], panicked := b.panicked || b.chans[c].closed)
  }

  function After(b: Broker, step: Step): Broker
    requires Enabled(b, step)
  {
    match step
    case Subscribe => Subscribed(b)
    case Unsubscribe(id) => Unsubscribed(b, id)
    case BeginPublish(ev) => b.(inFlight := b.inFlight + [Delivery(ev, b.subs.Keys)], published := b.published + [ev])
    case Deliver(p, id) => Delivered(b, p, id)
    case EndPublish(p) => b.(inFlight := b.inFlight[..p] + b.inFlight[p + 1..])
    case Receive(c) => b.(chans := b.chans[c := Take(b.chans[c])])
  }

  /** Each state follows from the one before by a step enabled there. */
  predicate Follows(states: seq<Broker>, steps: seq<Step>) {
    && |states| == |steps| + 1
    && forall k :: 0 <= k < |steps| ==> Enabled(states[k], steps[k]) && states[k + 1] == After(states[k], steps[k])
  }

  /** The states of a run. */
  predicate IsRun(states: seq<Broker>, steps: seq<Step>) {
    Follows(states, steps) && states[0] == NEW_BROKER
  }

  // ---- Invariants ----

  ghost predicate ChanInv(c: Chan) {
    && |c.buffer| <= CAPACITY
    && Subsequence(c.received + c.buffer, c.offered)
    && (!c.overrun ==> c.received + c.buffer == c.offered)
  }

  ghost predicate ChansInv(chans: seq<Chan>) {
    forall c :: 0 <= c < |chans| ==> ChanInv(chans[c])
  }

  /** Subscribers map to open channels of their own. */
  predicate SubsInv(b: Broker) {
    && b.nextID == (|b.chans| + 1) % ID_SPACE
    && (forall id :: id in b.subs ==>
          b.subs[id] < |b.chans| && id == (b.subs[id] + 1) % ID_SPACE && !b.chans[b.subs[id]].closed)
    && (forall p :: 0 <= p < |b.inFlight| ==> b.inFlight[p].remaining <= b.subs.Keys)
    && !b.panicked
  }

  /** No two subscribers share a channel. */
  predicate OwnChannels(subs: map<nat, nat>) {
    forall id, other :: id in subs && other in subs && id != other ==> subs[id] != subs[other]
  }

  lemma SubscribersOwnChannels(b: Broker)
    requires SubsInv(b)
    ensures OwnChannels(b.subs)
  {
  }

  lemma OfferKeeps(c: Chan, ev: Event)
    requires ChanInv(c)
    ensures ChanInv(Offer(c, ev))
  {
    if |c.buffer| < CAPACITY {
      SubsequenceTake(c.received + c.buffer, c.offered, ev);
      assert c.received + (c.buffer + [ev]) == c.received + c.buffer + [ev];
    } else {
      SubsequenceSkip(c.received + c.buffer, c.offered, ev);
    }
  }

  lemma TakeKeeps(c: Chan)
    requires ChanInv(c) && c.buffer != []
    ensures ChanInv(Take(c))
  {
    assert c.received + [c.buffer[0]] + c.buffer[1..] == c.received + c.buffer;
  }

  lemma StepKeepsChans(b: Broker, step: Step)
    requires ChansInv(b.chans) && Enabled(b, step)
    ensures ChansInv(After(b, step).chans)
  {
    match step
    case Deliver(p, id) =>
      if id in b.subs && b.subs[id] < |b.chans| {
        OfferKeeps(b.chans[b.subs[id]], b.inFlight[p].event);
      }
    case Receive(c) => TakeKeeps(b.chans[c]);
    case _ =>
  }

  lemma NextID(n: nat)
    ensures ((n + 1) % ID_SPACE + 1) % ID_SPACE == (n + 2) % ID_SPACE
  {
  }

  lemma SubscribeKeepsSubs(b: Broker)
    requires SubsInv(b) && b.inFlight == []
    ensures SubsInv(Subscribed(b))
  {
    NextID(|b.chans|);
  }

  lemma StepKeepsSubs(b: Broker, step: Step)
    requires SubsInv(b) && Enabled(b, step)
    ensures SubsInv(After(b, step))
  {
    if step.Subscribe? {
      SubscribeKeepsSubs(b);
    }
  }

  // ---- Open channels have their subscriber ----

  /** The identifier handed out by the k-th subscription, counting from zero. */
  function IdOf(k: nat): nat {
    (k + 1) % ID_SPACE
  }

  /** Until identifiers are reused, a channel is open exactly as long as its subscription lasts. */
  predicate OpenInv(b: Broker) {
    |b.chans| <= ID_SPACE ==>
      forall c :: 0 <= c < |b.chans| ==> (!b.chans[c].closed <==> IdOf(c) in b.subs && b.subs[IdOf(c)] == c)
  }

  lemma IdsDiffer(n: nat)
    requires n < ID_SPACE
    ensures forall c :: 0 <= c < n ==> IdOf(c) != IdOf(n)
  {
  }

  lemma UnsubscribeKeepsOpen(b: Broker, id: nat)
    requires SubsInv(b) && OpenInv(b)
    ensures OpenInv(Unsubscribed(b, id))
  {
    if id in b.subs && |b.chans| <= ID_SPACE {
      var gone := b.subs[id];
      assert id == IdOf(gone);
      forall c | 0 <= c < |b.chans| && c != gone
        ensures IdOf(c) != id || b.subs[id] != c
      {
      }
    }
  }

  lemma StepKeepsOpen(b: Broker, step: Step)
    requires SubsInv(b) && OpenInv(b) && Enabled(b, step)
    ensures OpenInv(After(b, step))
  {
    match step
    case Subscribe =>
      if |b.chans| < ID_SPACE {
        IdsDiffer(|b.chans|);
      }
    case Unsubscribe(id) => UnsubscribeKeepsOpen(b, id);
    case _ =>
  }

  // ---- Nothing published is missed ----

  /** What one publish under way has still to offer to a subscriber. */
  function Owed(d: Delivery, id: nat): multiset<Event> {
    if id in d.remaining then multiset{d.event} else multiset{}
  }

  /** The events still to be offered to a subscriber by publishes under way. */
  function Pending(inFlight: seq<Delivery>, id: nat): multiset<Event> {
    if inFlight == [] then multiset{}
    else Pending(inFlight[..|inFlight| - 1], id) + Owed(inFlight[|inFlight| - 1], id)
  }

  function Without(inFlight: seq<Delivery>, p: nat): seq<Delivery>
    requires p < |inFlight|
  {
    inFlight[..p] + inFlight[p + 1..]
  }

  lemma PendingSnoc(inFlight: seq<Delivery>, d: Delivery, id: nat)
    ensures Pending(inFlight + [d], id) == Pending(inFlight, id) + Owed(d, id)
  {
  }

  lemma {:induction false} PendingMiddle(a: seq<Delivery>, d: Delivery, b: seq<Delivery>, id: nat)
    ensures Pending(a + [d] + b, id) == Pending(a + b, id) + Owed(d, id)
  {
    if b == [] {
      assert a + [d] + b == a + [d] && a + b == a;
      PendingSnoc(a, d, id);
    } else {
      var front, e := b[..|b| - 1], b[|b| - 1];
      assert a + [d] + b == a + [d] + front + [e] && a + b == a + front + [e];
      PendingMiddle(a, d, front, id);
      PendingSnoc(a + [d] + front, e, id);
      PendingSnoc(a + front, e, id);
      Rearrange(Pending(a + front, id), Owed(d, id), Owed(e, id));
    }
  }

  lemma PendingSplit(inFlight: seq<Delivery>, p: nat, id: nat)
    requires p < |inFlight|
    ensures Pending(inFlight, id) == Pending(Without(inFlight, p), id) + Owed(inFlight[p], id)
  {
    assert inFlight == inFlight[..p] + [inFlight[p]] + inFlight[p + 1..];
    PendingMiddle(inFlight[..p], inFlight[p], inFlight[p + 1..], id);
  }

  lemma Rearrange(a: multiset<Event>, b: multiset<Event>, c: multiset<Event>)
    ensures a + b + c == a + c + b
  {
  }

  lemma OwedAfterOffer(d: Delivery, id: nat, other: nat)
    requires id in d.remaining
    ensures Owed(d, other)
         == Owed(d.(remaining := d.remaining - {id}), other) + (if other == id then multiset{d.event} else multiset{})
  {
  }

  /** Offering the event of one publish to one subscriber settles exactly that debt. */
  lemma PendingAfterOffer(inFlight: seq<Delivery>, p: nat, id: nat, other: nat)
    requires p < |inFlight| && id in inFlight[p].remaining
    ensures
      var d := inFlight[p];
      var after := inFlight[p := d.(remaining := d.remaining - {id})];
      Pending(inFlight, other) == Pending(after, other) + (if other == id then multiset{d.event} else multiset{})
  {
    var d := inFlight[p];
    var after := inFlight[p := d.(remaining := d.remaining - {id})];
    PendingSplit(inFlight, p, other);
    PendingSplit(after, p, other);
    assert Without(after, p) == Without(inFlight, p);
    assert after[p] == d.(remaining := d.remaining - {id});
    OwedAfterOffer(d, id, other);
  }

  /** Every event published since a subscriber joined has been offered to it once, or is about to be. */
  predicate Accounted(b: Broker, id: nat)
    requires id in b.subs && b.subs[id] < |b.chans|
  {
    var c := b.chans[b.subs[id]];
    c.since <= |b.published| && multiset(c.offered) + Pending(b.inFlight, id) == multiset(b.published[c.since..])
  }

  ghost predicate AccountInv(b: Broker) {
    forall id :: id in b.subs ==> b.subs[id] < |b.chans| && Accounted(b, id)
  }

  lemma BeginKeepsAccounts(b: Broker, ev: Event, id: nat)
    requires id in b.subs && b.subs[id] < |b.chans| && Accounted(b, id)
    ensures Accounted(After(b, BeginPublish(ev)), id)
  {
    var b' := After(b, BeginPublish(ev));
    var since := b.chans[b.subs[id]].since;
    assert b'.inFlight[..|b'.inFlight| - 1] == b.inFlight;
    assert b'.published[since..] == b.published[since..] + [ev];
  }

  lemma DeliverKeepsAccounts(b: Broker, p: nat, id: nat, other: nat)
    requires SubsInv(b) && p < |b.inFlight| && id in b.inFlight[p].remaining
    requires other in b.subs && Accounted(b, other)
    ensures other in Delivered(b, p, id).subs && Accounted(Delivered(b, p, id), other)
  {
    var b', ev := Delivered(b, p, id), b.inFlight[p].event;
    PendingAfterOffer(b.inFlight, p, id, other);
    assert id in b.subs;
    var before, after := b.chans[b.subs[other]], b'.chans[b'.subs[other]];
    if other == id {
      assert after.offered == before.offered + [ev];
      Rearrange(multiset(before.offered), Pending(b'.inFlight, other), multiset{ev});
    } else {
      assert after == before;
    }
  }

  lemma {:induction false} EndKeepsAccounts(b: Broker, p: nat, id: nat)
    requires p < |b.inFlight| && b.inFlight[p].remaining == {}
    requires id in b.subs && b.subs[id] < |b.chans| && Accounted(b, id)
    ensures Accounted(After(b, EndPublish(p)), id)
  {
    PendingSplit(b.inFlight, p, id);
    assert Without(b.inFlight, p) == After(b, EndPublish(p)).inFlight;
  }

  lemma MembershipKeepsAccounts(b: Broker, step: Step)
    requires SubsInv(b) && AccountInv(b) && Enabled(b, step)
    requires step.Subscribe? || step.Unsubscribe? || step.Receive?
    ensures AccountInv(After(b, step))
  {
  }

  lemma {:induction false} StepKeepsAccounts(b: Broker, step: Step)
    requires SubsInv(b) && AccountInv(b) && Enabled(b, step)
    ensures AccountInv(After(b, step))
  {
    match step
    case BeginPublish(ev) =>
      forall id | id in b.subs
        ensures Accounted(After(b, step), id)
      {
        BeginKeepsAccounts(b, ev, id);
      }
    case Deliver(p, other) =>
      forall id | id in b.subs
        ensures Accounted(After(b, step), id)
      {
        DeliverKeepsAccounts(b, p, other, id);
      }
    case EndPublish(p) =>
      forall id | id in b.subs
        ensures Accounted(After(b, step), id)
      {
        EndKeepsAccounts(b, p, id);
      }
    case _ => MembershipKeepsAccounts(b, step);
  }

  /** In every reachable state of every interleaving: what a subscriber has received followed by what is
      buffered for it is an in-order selection of the events offered to it, complete as long as no offer
      found the buffer full; no buffer exceeds its capacity; no closed channel is sent to or closed again;
      the channels of current subscribers are open and, until identifiers are reused, all others are closed;
      and every event published since a subscriber joined
      has been offered to it exactly once or is about to be. */
  lemma {:induction false} ReachableBroker(states: seq<Broker>, steps: seq<Step>)
    requires IsRun(states, steps)
    ensures ChansInv(states[|steps|].chans) && SubsInv(states[|steps|])
    ensures OpenInv(states[|steps|]) && AccountInv(states[|steps|])
    decreases |steps|
  {
    if steps != [] {
      var k := |steps| - 1;
      ReachableBroker(states[..|states| - 1], steps[..k]);
      StepKeepsChans(states[k], steps[k]);
      StepKeepsSubs(states[k], steps[k]);
      StepKeepsOpen(states[k], steps[k]);
      StepKeepsAccounts(states[k], steps[k]);
    }
  }

  // ---- Which events are dropped ----

  /** The step offers an event to channel `c` while ten are buffered there. */
  predicate FindsFull(b: Broker, step: Step, c: nat) {
    && step.Deliver? && step.id in b.subs && b.subs[step.id] == c
    && c < |b.chans| && |b.chans[c].buffer| >= 10
  }

  /** How many steps of a run found channel `c` full. */
  function FullOffers(states: seq<Broker>, steps: seq<Step>, c: nat): nat
    requires |states| == |steps| + 1
  {
    if steps == [] then 0
    else
      var k := |steps| - 1;
      FullOffers(states[..|states| - 1], steps[..k], c) + (if FindsFull(states[k], steps[k], c) then 1 else 0)
  }

  /** A delivery puts its event at the end of the subscriber's buffer if fewer than ten are waiting there, and
      otherwise leaves the buffer as it is; it is noted either way, and nobody else's channel changes. */
  lemma DeliverMeaning(b: Broker, p: nat, id: nat)
    requires SubsInv(b) && Enabled(b, Deliver(p, id))
    ensures
      var b', c, ev := After(b, Deliver(p, id)), b.subs[id], b.inFlight[p].event;
      var was, now := b.chans[c], b'.chans[c];
      && now.buffer == (if |was.buffer| < 10 then was.buffer + [ev] else was.buffer)
      && now.received == was.received && now.offered == was.offered + [ev]
      && (now.overrun <==> was.overrun || |was.buffer| >= 10)
      && |b'.chans| == |b.chans| && forall d :: 0 <= d < |b.chans| && d != c ==> b'.chans[d] == b.chans[d]
  {
  }

  /** Offers that were dropped, so far. */
  function Lost(c: Chan): int {
    |c.offered| - |c.received| - |c.buffer|
  }

  lemma StepLoses(b: Broker, step: Step, c: nat)
    requires SubsInv(b) && Enabled(b, step) && c < |b.chans|
    ensures
      var b' := After(b, step);
      && c < |b'.chans|
      && Lost(b'.chans[c]) == Lost(b.chans[c]) + (if FindsFull(b, step, c) then 1 else 0)
      && (b'.chans[c].overrun <==> b.chans[c].overrun || FindsFull(b, step, c))
  {
    if step.Deliver? {
      DeliverMeaning(b, step.publish, step.id);
    }
  }

  lemma NewChannel(b: Broker, step: Step, c: nat)
    requires SubsInv(b) && Enabled(b, step) && |b.chans| <= c < |After(b, step).chans|
    ensures Lost(After(b, step).chans[c]) == 0 && !After(b, step).chans[c].overrun
  {
  }

  lemma FrontIsRun(states: seq<Broker>, steps: seq<Step>)
    requires IsRun(states, steps) && steps != []
    ensures IsRun(states[..|states| - 1], steps[..|steps| - 1])
  {
  }

  lemma {:induction false} NoOffersBefore(states: seq<Broker>, steps: seq<Step>, c: nat)
    requires IsRun(states, steps) && |states[|steps|].chans| <= c
    ensures FullOffers(states, steps, c) == 0
    decreases |steps|
  {
    if steps != [] {
      var k := |steps| - 1;
      FrontIsRun(states, steps);
      assert |states[k].chans| <= |After(states[k], steps[k]).chans|;
      NoOffersBefore(states[..|states| - 1], steps[..k], c);
    }
  }

  lemma {:induction false} LossesCounted(states: seq<Broker>, steps: seq<Step>, c: nat)
    requires IsRun(states, steps) && c < |states[|steps|].chans|
    ensures
      var ch, full := states[|steps|].chans[c], FullOffers(states, steps, c);
      Lost(ch) == full && (ch.overrun <==> full > 0)
    decreases |steps|
  {
    if steps != [] {
      var k := |steps| - 1;
      var front := states[..|states| - 1];
      FrontIsRun(states, steps);
      ReachableBroker(front, steps[..k]);
      if c < |states[k].chans| {
        LossesCounted(front, steps[..k], c);
        StepLoses(states[k], steps[k], c);
      } else {
        NoOffersBefore(front, steps[..k], c);
        NewChannel(states[k], steps[k], c);
      }
    }
  }

  /** Exactly the offers that find ten events waiting are dropped: in every run they account for all the
      difference between what was offered and what was received or is buffered, so nothing is missing
      exactly when no offer found ten waiting. */
  lemma DropsCounted(states: seq<Broker>, steps: seq<Step>, c: nat)
    requires IsRun(states, steps) && c < |states[|steps|].chans|
    ensures
      var ch, full := states[|steps|].chans[c], FullOffers(states, steps, c);
      && |ch.received| + |ch.buffer| + full == |ch.offered|
      && (ch.received + ch.buffer == ch.offered <==> full == 0)
      && (ch.overrun <==> full > 0)
  {
    LossesCounted(states, steps, c);
    ReachableBroker(states, steps);
    assert ChanInv(states[|steps|].chans[c]);
  }

  /** Two subscriptions get the same identifier exactly when a multiple of the whole 64-bit space was handed
      out between them. */
  lemma IdsReusedIff(j: nat, k: nat)
    ensures IdOf(j) == IdOf(k) <==> (k - j) % 0x1_0000_0000_0000_0000 == 0
  {
  }
}
