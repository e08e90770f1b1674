/** The broker object and the loop that streams its events to a client. */
module WatchEvents {
  import opened Common
  import opened EventBroker

  // ---- Filtering by module ----

  predicate Wanted(mod: string, ev: Event) {
    mod == "" || ev.mod == mod
  }

  function Matching(mod: string, events: seq<Event>): seq<Event> {
    if events == [] then []
    else
      var front, last := Matching(mod, events[..|events| - 1]), events[|events| - 1];
      if Wanted(mod, last) then front + [last] else front
  }

  lemma MatchingSnoc(mod: string, events: seq<Event>, ev: Event)
    ensures Matching(mod, events + [ev]) == Matching(mod, events) + (if Wanted(mod, ev) then [ev] else [])
  {
  }

  /** An empty module name asks for everything. */
  lemma {:induction false} MatchingEverything(events: seq<Event>)
    ensures Matching("", events) == events
  {
    if events != [] {
      MatchingEverything(events[..|events| - 1]);
      assert events == events[..|events| - 1] + [events[|events| - 1]];
    }
  }

  /** Any other selects, in order, all events of that module and no others. */
  lemma {:induction false} MatchingModule(mod: string, events: seq<Event>)
    requires mod != ""
    ensures Subsequence(Matching(mod, events), events)
    ensures forall ev :: multiset(Matching(mod, events))[ev] == if ev.mod == mod then multiset(events)[ev] else 0
  {
    if events != [] {
      var front, last := events[..|events| - 1], events[|events| - 1];
      MatchingModule(mod, front);
      assert events == front + [last];
      if last.mod == mod {
        SubsequenceTake(Matching(mod, front), front, last);
      } else {
        SubsequenceSkip(Matching(mod, front), front, last);
      }
    }
  }

  /** Filtering keeps in-order selections. */
  lemma {:induction false} MatchingSubsequence(mod: string, small: seq<Event>, big: seq<Event>)
    requires Subsequence(small, big)
    ensures Subsequence(Matching(mod, small), Matching(mod, big))
    decreases |big|
  {
    if big != [] {
      var front, last := big[..|big| - 1], big[|big| - 1];
      if Subsequence(small, front) {
        MatchingSubsequence(mod, small, front);
        if Wanted(mod, last) {
          SubsequenceSkip(Matching(mod, small), Matching(mod, front), last);
        }
      } else {
        var init := small[..|small| - 1];
        MatchingSubsequence(mod, init, front);
        assert small == init + [last];
        MatchingSnoc(mod, init, last);
        if Wanted(mod, last) {
          SubsequenceTake(Matching(mod, init), Matching(mod, front), last);
        }
      }
    }
  }

  /** An initial part of a selection is a selection. */
  lemma {:induction false} SubsequenceFront<T>(a: seq<T>, b: seq<T>, big: seq<T>)
    requires Subsequence(a + b, big)
    ensures Subsequence(a, big)
    decreases |big|, |b|
  {
    if b == [] {
      assert a + b == a;
    } else if big != [] {
      var front := big[..|big| - 1];
      if Subsequence(a + b, front) {
        SubsequenceFront(a, b, front);
      } else {
        assert (a + b)[..|a + b| - 1] == a + b[..|b| - 1];
        SubsequenceFront(a, b[..|b| - 1], front);
      }
      assert Subsequence(a, front);
    }
  }

  // ---- The streaming loop ----

  /** What the loop finds each time round: an event, with the fate of sending it on, or an end. */
  datatype Arrival = Arrived(event: Event, sendOk: bool) | ChannelClosed | ContextDone

  function EventsOf(arrivals: seq<Arrival>): seq<Event> {
    if arrivals == [] then []
    else
      var front, last := EventsOf(arrivals[..|arrivals| - 1]), arrivals[|arrivals| - 1];
      if last.Arrived? then front + [last.event] else front
  }

  lemma EventsOfSnoc(arrivals: seq<Arrival>, k: nat)
    requires k < |arrivals|
    ensures arrivals[k].Arrived? ==> EventsOf(arrivals[..k + 1]) == EventsOf(arrivals[..k]) + [arrivals[k].event]
    ensures !arrivals[k].Arrived? ==> EventsOf(arrivals[..k + 1]) == EventsOf(arrivals[..k])
  {
    assert arrivals[..k + 1][..k] == arrivals[..k];
    assert arrivals[..k + 1][k] == arrivals[k];
  }

  /** The loop goes on after this arrival: an event that is not wanted or could be sent. */
  predicate GoesOn(mod: string, a: Arrival) {
    a.Arrived? && (Wanted(mod, a.event) ==> a.sendOk)
  }

  /** The loop stopped at the first arrival that ends it: the end of the context or the channel, or a wanted
      event that could not be sent. It forwarded the wanted events in order, all of them except the one whose
      send failed. */
  ghost predicate Watched(mod: string, arrivals: seq<Arrival>, sent: seq<Event>, consumed: nat, failed: bool) {
    && consumed <= |arrivals|
    && (forall k :: 0 <= k < consumed - 1 ==> GoesOn(mod, arrivals[k]))
    && (consumed < |arrivals| ==> 0 < consumed && !GoesOn(mod, arrivals[consumed - 1]))
    && (failed <==> 0 < consumed && arrivals[consumed - 1].Arrived? && !GoesOn(mod, arrivals[consumed - 1]))
    && Matching(mod, EventsOf(arrivals[..consumed])) == sent + (if failed then [arrivals[consumed - 1].event] else [])
  }

  method Watch(mod: string, arrivals: seq<Arrival>) returns (sent: seq<Event>, consumed: nat, failed: bool)
    ensures Watched(mod, arrivals, sent, consumed, failed)
  {
    sent, consumed, failed := [], 0, false;
    while consumed < |arrivals|
      invariant 0 <= consumed <= |arrivals|
      invariant sent == Matching(mod, EventsOf(arrivals[..consumed]))
      invariant forall k :: 0 <= k < consumed ==> GoesOn(mod, arrivals[k])
      invariant !failed
    {
      var arrival := arrivals[consumed];
      EventsOfSnoc(arrivals, consumed);
      assert arrivals[..consumed + 1] == arrivals[..consumed] + [arrival];
      consumed := consumed + 1;
      if !arrival.Arrived? {
        return;
      }
      MatchingSnoc(mod, EventsOf(arrivals[..consumed - 1]), arrival.event);
      if Wanted(mod, arrival.event) {
        if !arrival.sendOk {
          failed := true;
          return;
        }
        sent := sent + [arrival.event];
      }
    }
  }

  lemma {:induction false} EventsOfArrived(events: seq<Event>, ends: seq<Arrival>)
    requires forall k :: 0 <= k < |ends| ==> !ends[k].Arrived?
    ensures EventsOf(AllSent(events) + ends) == events
    decreases |ends|, |events|
  {
    var all := AllSent(events) + ends;
    if ends != [] {
      assert all[..|all| - 1] == AllSent(events) + ends[..|ends| - 1];
      EventsOfArrived(events, ends[..|ends| - 1]);
    } else if events != [] {
      var front := events[..|events| - 1];
      assert all[..|all| - 1] == AllSent(front) + [];
      EventsOfArrived(front, []);
    }
  }

  /** Arrivals of the given events, all of which can be sent. */
  function AllSent(events: seq<Event>): seq<Arrival> {
    seq(|events|, i requires 0 <= i < |events| => Arrived(events[i], true))
  }

  /** A watch of everything that meets only events it can send, and then an end, sends exactly those events. */
  lemma WatchEverything(events: seq<Event>, end: Arrival, sent: seq<Event>, consumed: nat, failed: bool)
    requires !end.Arrived? && Watched("", AllSent(events) + [end], sent, consumed, failed)
    ensures sent == events && consumed == |events| + 1 && !failed
  {
    var arrivals := AllSent(events) + [end];
    assert forall k :: 0 <= k < |events| ==> GoesOn("", arrivals[k]);
    assert arrivals[|events|] == end;
    assert consumed == |events| + 1;
    assert arrivals[..consumed] == arrivals;
    EventsOfArrived(events, [end]);
    MatchingEverything(events);
  }

  /** What the loop sent, where its events are what it took out of one channel. */
  lemma {:induction false} ClientSeesOffered(ch: Chan, mod: string, arrivals: seq<Arrival>,
                                             sent: seq<Event>, consumed: nat, failed: bool)
    requires ChanInv(ch) && Watched(mod, arrivals, sent, consumed, failed)
    requires EventsOf(arrivals[..consumed]) == ch.received
    ensures Subsequence(sent, Matching(mod, ch.offered))
    ensures !ch.overrun && ch.buffer == [] && !failed ==> sent == Matching(mod, ch.offered)
  {
    SubsequenceFront(ch.received, ch.buffer, ch.offered);
    MatchingSubsequence(mod, ch.received, ch.offered);
    SubsequenceFront(sent, if failed then [arrivals[consumed - 1].event] else [], Matching(mod, ch.offered));
    assert ch.buffer == [] ==> ch.received + ch.buffer == ch.received;
  }

  /** End to end through one broker, whatever else happens on it: if the loop's arrivals are what was taken
      out of channel `c`, the client is sent an in-order selection of the wanted events offered to it since
      it subscribed, and all of them if no offer found ten events waiting, nothing is still buffered and no
      send failed; with no module named, that is everything offered. */
  method WatchSubscription(mod: string, arrivals: seq<Arrival>,
                           ghost states: seq<Broker>, ghost steps: seq<Step>, ghost c: nat)
    returns (sent: seq<Event>, consumed: nat, failed: bool)
    requires IsRun(states, steps) && c < |states[|steps|].chans|
    ensures Watched(mod, arrivals, sent, consumed, failed)
    ensures
      var ch := states[|steps|].chans[c];
      EventsOf(arrivals[..consumed]) == ch.received ==>
        && Subsequence(sent, Matching(mod, ch.offered))
        && (FullOffers(states, steps, c) == 0 && ch.buffer == [] && !failed ==>
              sent == Matching(mod, ch.offered) && (mod == "" ==> sent == ch.offered))
  {
    sent, consumed, failed := Watch(mod, arrivals);
    ghost var ch := states[|steps|].chans[c];
    if EventsOf(arrivals[..consumed]) == ch.received {
      ReachableBroker(states, steps);
      DropsCounted(states, steps, c);
      MatchingEverything(ch.offered);
      ClientSeesOffered(ch, mod, arrivals, sent, consumed, failed);
    }
  }

  // ---- The broker object ----

  class EventBrokerObject {
    var subs: map<nat, nat>
    var nextID: nat
    var chans: seq<Chan>
    var published: seq<Event>

    function View(): Broker
      reads this
    {
      Broker(subs, nextID, chans, [], false, published)
    }

    /** No publish is under way between calls, and subscribers have open channels of their own. */
    ghost predicate Valid()
      reads this
    {
      SubsInv(View())
    }

    constructor ()
      ensures View() == NEW_BROKER && Valid()
    {
      subs, nextID, chans, published := map[], 1, [], [];
    }

    method SubscribeClient() returns (id: nat, c: nat)
      requires Valid()
      modifies this
      ensures View() == Subscribed(old(View())) && Valid()
      ensures id in subs && subs[id] == c && id == IdOf(c)
      ensures c == |old(chans)| && chans[c].offered == [] && chans[c].buffer == [] && !chans[c].closed
    {
      SubscribeKeepsSubs(View());
      id, c := nextID, |chans|;
      nextID := (nextID + 1) % ID_SPACE;
      chans := chans + [Chan([], false, [], [], false, |published|)];
      subs := subs[id := c];
    }

    method UnsubscribeClient(id: nat)
      requires Valid()
      modifies this
      ensures View() == Unsubscribed(old(View()), id) && Valid()
      ensures id !in subs
    {
      StepKeepsSubs(View(), Unsubscribe(id));
      if id in subs {
        var c := subs[id];
        chans := chans[c := chans[c].(closed := true)];
        subs := subs - {id};
      }
    }

    /** A send that does not block. */
    method Send(c: nat, ev: Event)
      requires c < |chans|
      modifies this`chans
      ensures chans == old(chans)[c := Offer(old(chans)[c], ev)]
    {
      var ch := chans[c];
      if |ch.buffer| < CAPACITY {
        chans := chans[c := ch.(buffer := ch.buffer + [ev], offered := ch.offered + [ev])];
      } else {
        chans := chans[c := ch.(offered := ch.offered + [ev], overrun := true)];
      }
    }

    /** A publish under way in this object. */
    ghost function Publishing(ev: Event, todo: set<nat>): Broker
      reads this
    {
      View().(inFlight := [Delivery(ev, todo)])
    }

    /** Offer the event once to every subscriber, in no particular order, and to nobody else: a run of the
        broker's own steps, from the beginning of this publish to its end. */
    method Publish(ev: Event) returns (ghost states: seq<Broker>, ghost steps: seq<Step>)
      requires Valid()
      modifies this`chans, this`published
      ensures Valid() && |chans| == |old(chans)| && published == old(published) + [ev]
      ensures forall id :: id in subs ==> chans[subs[id]] == Offer(old(chans)[subs[id]], ev)
      ensures forall id :: id in subs ==>
        chans[subs[id]].buffer == old(chans)[subs[id]].buffer + if |old(chans)[subs[id]].buffer| < 10 then [ev] else []
      ensures forall c :: 0 <= c < |chans| && c !in subs.Values ==> chans[c] == old(chans)[c]
      ensures Follows(states, steps) && OnePublish(ev, steps)
      ensures states[0] == old(View()) && states[|steps|] == View()
    {
      ghost var before := View();
      SubscribersOwnChannels(before);
      published := published + [ev];
      states, steps := [before, Publishing(ev, subs.Keys)], [BeginPublish(ev)];
      ghost var deliveries, order := OfferToAll(ev);
      OffersKeepSubs(before, View());
      FollowsThen(states, steps, deliveries, order);
      states, steps := states + deliveries[1..], steps + order;
      assert states[|steps|] == Publishing(ev, {});
      FollowsSnoc(states, steps, EndPublish(0), View());
      states, steps := states + [View()], steps + [EndPublish(0)];
    }

    /** One turn of the loop is one delivery step more. */
    method OfferOne(ev: Event, id: nat, ghost todo: set<nat>,
                    ghost first: Broker, ghost states: seq<Broker>, ghost steps: seq<Step>)
      returns (ghost states': seq<Broker>, ghost steps': seq<Step>)
      requires id in todo && id in subs && subs[id] < |chans| && !chans[subs[id]].closed
      requires Delivering(first, states, steps, Publishing(ev, todo))
      modifies this`chans
      ensures chans == old(chans)[subs[id] := Offer(old(chans)[subs[id]], ev)]
      ensures Delivering(first, states', steps', Publishing(ev, todo - {id}))
    {
      Send(subs[id], ev);
      ghost var was, now := old(Publishing(ev, todo)), Publishing(ev, todo - {id});
      states', steps' := DeliveringSnoc(first, states, steps, was, Deliver(0, id), now);
    }

    method OfferToAll(ev: Event) returns (ghost states: seq<Broker>, ghost steps: seq<Step>)
      requires OwnChannels(subs) && forall id :: id in subs ==> subs[id] < |chans| && !chans[subs[id]].closed
      modifies this`chans
      ensures |chans| == |old(chans)|
      ensures forall id :: id in subs ==> chans[subs[id]] == Offer(old(chans)[subs[id]], ev)
      ensures forall c :: 0 <= c < |chans| && c !in subs.Values ==> chans[c] == old(chans)[c]
      ensures Delivering(old(Publishing(ev, subs.Keys)), states, steps, Publishing(ev, {}))
    {
      var todo := subs.Keys;
      ghost var first := Publishing(ev, todo);
      states, steps := [first], [];
      while todo != {}
        invariant todo <= subs.Keys && OfferedExcept(subs, old(chans), chans, todo, ev)
        invariant Delivering(first, states, steps, Publishing(ev, todo))
        decreases |todo|
      {
        var id :| id in todo;
        OfferedOne(subs, old(chans), chans, todo, ev, id);
        states, steps := OfferOne(ev, id, todo, first, states, steps);
        todo := todo - {id};
      }
    }
  }

  // ---- Publishing as steps ----

  /** Every subscriber but those in `todo` has been offered the event, and nobody else. */
  ghost predicate OfferedExcept(subs: map<nat, nat>, was: seq<Chan>, now: seq<Chan>, todo: set<nat>, ev: Event) {
    && |now| == |was|
    && (forall id :: id in subs ==>
          && subs[id] < |was|
          && now[subs[id]] == if id in todo then was[subs[id]] else Offer(was[subs[id]], ev))
    && forall c :: 0 <= c < |now| && c !in subs.Values ==> now[c] == was[c]
  }

  lemma OfferedOne(subs: map<nat, nat>, was: seq<Chan>, now: seq<Chan>, todo: set<nat>, ev: Event, id: nat)
    requires OwnChannels(subs) && OfferedExcept(subs, was, now, todo, ev) && id in todo && id in subs
    ensures OfferedExcept(subs, was, now[subs[id] := Offer(now[subs[id]], ev)], todo - {id}, ev)
  {
    assert subs[id] in subs.Values;
  }

  /** Begin, deliver to one subscriber after the other, end. */
  predicate OnePublish(ev: Event, steps: seq<Step>) {
    && 2 <= |steps| && steps[0] == BeginPublish(ev) && steps[|steps| - 1] == EndPublish(0)
    && forall k :: 1 <= k < |steps| - 1 ==> steps[k].Deliver?
  }

  lemma FollowsSnoc(states: seq<Broker>, steps: seq<Step>, step: Step, next: Broker)
    requires Follows(states, steps) && Enabled(states[|steps|], step) && next == After(states[|steps|], step)
    ensures Follows(states + [next], steps + [step])
  {
  }

  /** Deliveries alone, leading from one state to another. */
  ghost predicate Delivering(first: Broker, states: seq<Broker>, steps: seq<Step>, last: Broker) {
    && Follows(states, steps) && states[0] == first && states[|steps|] == last
    && forall k :: 0 <= k < |steps| ==> steps[k].Deliver?
  }

  lemma DeliveringSnoc(first: Broker, states: seq<Broker>, steps: seq<Step>, last: Broker, step: Step, next: Broker)
    returns (states': seq<Broker>, steps': seq<Step>)
    requires Delivering(first, states, steps, last) && step.Deliver?
    requires Enabled(last, step) && next == After(last, step)
    ensures Delivering(first, states', steps', next)
  {
    FollowsSnoc(states, steps, step, next);
    states', steps' := states + [next], steps + [step];
  }

  lemma FollowsThen(states: seq<Broker>, steps: seq<Step>, states': seq<Broker>, steps': seq<Step>)
    requires Follows(states, steps) && Follows(states', steps') && states'[0] == states[|steps|]
    ensures Follows(states + states'[1..], steps + steps')
  {
    var all := states + states'[1..];
    assert forall k :: 0 <= k < |states'| ==> all[|steps| + k] == states'[k];
    forall k | 0 <= k < |steps + steps'|
      ensures Enabled(all[k], (steps + steps')[k]) && all[k + 1] == After(all[k], (steps + steps')[k])
    {
      if |steps| <= k {
        assert all[k] == states'[k - |steps|] && all[k + 1] == states'[k - |steps| + 1];
      }
    }
  }

  lemma OffersKeepSubs(b: Broker, b': Broker)
    requires SubsInv(b) && b'.subs == b.subs && b'.nextID == b.nextID && |b'.chans| == |b.chans|
    requires b'.inFlight == b.inFlight && b'.panicked == b.panicked
    requires forall id :: id in b.subs ==> b'.chans[b.subs[id]].closed == b.chans[b.subs[id]].closed
    ensures SubsInv(b')
  {
  }
}
