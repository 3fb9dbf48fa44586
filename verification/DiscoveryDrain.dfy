/**
 * How fast expired entities leave.  A tick removes at most one, so an entity can stay connected after its
 * advertisement ran out, but only as long as there are entities before it in the table.
 */
module DiscoveryDrain {
  import opened Basics
  import opened Discovery
  import opened DiscoveryRuns
  import opened DiscoveryEvents

  function TickAll(c: Controller, times: seq<nat>): Controller
    decreases |times|
  {
    if times == [] then c else TickAll(Tick(c, times[0]), times[1..])
  }

  predicate SomeExpired(entities: seq<Entity>, now: nat) {
    FirstExpired(entities, now) < |entities|
  }

  /** How many of the ticks find an expired entity. */
  function BusyTicks(c: Controller, times: seq<nat>): nat
    decreases |times|
  {
    if times == [] then 0
    else (if SomeExpired(c.entities, times[0]) then 1 else 0) + BusyTicks(Tick(c, times[0]), times[1..])
  }

  /** Without advertisements exactly one entity leaves at each tick that finds an expired one. */
  lemma {:induction false} EachBusyTickRemovesOne(c: Controller, times: seq<nat>)
    ensures |TickAll(c, times).entities| + BusyTicks(c, times) == |c.entities|
    decreases |times|
  {
    if times != [] {
      EachBusyTickRemovesOne(Tick(c, times[0]), times[1..]);
    }
  }

  ghost predicate DistinctIds(entities: seq<Entity>) {
    forall i, j :: 0 <= i < j < |entities| ==> entities[i].entityId != entities[j].entityId
  }

  lemma RemoveKeepsDistinct(entities: seq<Entity>, k: nat)
    requires DistinctIds(entities) && k < |entities|
    ensures DistinctIds(RemoveAt(entities, k)) && !IsAdvertised(RemoveAt(entities, k), entities[k].entityId)
  {
    var rest := RemoveAt(entities, k);
    assert forall i :: 0 <= i < |rest| ==> rest[i] == entities[if i < k then i else i + 1];
  }

  lemma {:induction false} GoneStaysGone(c: Controller, times: seq<nat>, id: nat)
    requires !IsAdvertised(c.entities, id)
    ensures !IsAdvertised(TickAll(c, times).entities, id)
    decreases |times|
  {
    if times != [] {
      var k := FirstExpired(c.entities, times[0]);
      var next := Tick(c, times[0]);
      assert forall i :: 0 <= i < |next.entities| ==> next.entities[i] in c.entities;
      GoneStaysGone(next, times[1..], id);
    }
  }

  /** An expired entity is gone after at most one tick more than there are entities before it. */
  lemma {:induction false} DepartsWithin(c: Controller, times: seq<nat>, p: nat)
    requires DistinctIds(c.entities) && p < |c.entities| && p < |times|
    requires forall t :: t in times ==> c.entities[p].IsExpired(t)
    ensures !IsAdvertised(TickAll(c, times).entities, c.entities[p].entityId)
    decreases |times|
  {
    var k, next := FirstExpired(c.entities, times[0]), Tick(c, times[0]);
    assert times[0] in times;
    assert k <= p;
    RemoveKeepsDistinct(c.entities, k);
    if k == p {
      GoneStaysGone(next, times[1..], c.entities[p].entityId);
    } else {
      assert next.entities[p - 1] == c.entities[p];
      DepartsWithin(next, times[1..], p - 1);
    }
  }

  /** The entities that are not expired, in order. */
  function Unexpired(entities: seq<Entity>, now: nat): (rest: seq<Entity>)
    ensures |rest| <= |entities|
  {
    if entities == [] then []
    else (if entities[0].IsExpired(now) then [] else [entities[0]]) + Unexpired(entities[1..], now)
  }

  lemma UnexpiredStep(e: Entity, rest: seq<Entity>, now: nat)
    ensures Unexpired([e] + rest, now) == (if e.IsExpired(now) then [] else [e]) + Unexpired(rest, now)
  {
    assert ([e] + rest)[1..] == rest;
  }

  lemma {:induction false} RemovingTheFirst(entities: seq<Entity>, now: nat)
    ensures var k := FirstExpired(entities, now);
            if k < |entities|
            then Unexpired(RemoveAt(entities, k), now) == Unexpired(entities, now) &&
                |Unexpired(entities, now)| < |entities|
            else Unexpired(entities, now) == entities
  {
    if entities != [] {
      hide FirstExpired, Entity.IsExpired, Unexpired;
      var k, e, rest := FirstExpired(entities, now), entities[0], entities[1..];
      assert entities == [e] + rest;
      UnexpiredStep(e, rest, now);
      if e.IsExpired(now) {
        assert k == 0 && RemoveAt(entities, 0) == rest;
      } else {
        RemovingTheFirst(rest, now);
        FirstOfTheRest(entities, now);
        if k < |entities| {
          assert RemoveAt(entities, k) == [e] + RemoveAt(rest, k - 1);
          UnexpiredStep(e, RemoveAt(rest, k - 1), now);
        }
      }
    } else {
      assert Unexpired(entities, now) == [];
    }
  }

  lemma FirstOfTheRest(entities: seq<Entity>, now: nat)
    requires entities != [] && !entities[0].IsExpired(now)
    ensures FirstExpired(entities, now) == 1 + FirstExpired(entities[1..], now)
  {
    var k, r := FirstExpired(entities, now), FirstExpired(entities[1..], now);
    assert r < |entities| - 1 ==> entities[r + 1].IsExpired(now);
    assert forall i :: 0 <= i < r ==> !entities[1..][i].IsExpired(now) && entities[1..][i] == entities[i + 1];
    assert 0 < k && (k < |entities| ==> entities[1..][k - 1].IsExpired(now));
  }

  /** Every entity is expired at all of these times, or at none. */
  ghost predicate SameAt(entities: seq<Entity>, times: seq<nat>, now: nat) {
    forall e, t :: e in entities && t in times ==> e.IsExpired(t) == e.IsExpired(now)
  }

  lemma {:induction false} SameUnexpired(entities: seq<Entity>, t: nat, now: nat)
    requires forall e :: e in entities ==> e.IsExpired(t) == e.IsExpired(now)
    ensures Unexpired(entities, t) == Unexpired(entities, now)
  {
    if entities != [] {
      SameUnexpired(entities[1..], t, now);
    }
  }

  /** When k entities are expired and no other expires meanwhile, k ticks leave exactly the others, in order. */
  lemma {:induction false} ExpiredAreGone(c: Controller, times: seq<nat>, now: nat)
    requires SameAt(c.entities, times, now) && |times| == |c.entities| - |Unexpired(c.entities, now)|
    ensures TickAll(c, times).entities == Unexpired(c.entities, now)
    decreases |times|
  {
    if times == [] {
      RemovingTheFirst(c.entities, now);
    } else {
      var t := times[0];
      assert t in times;
      SameUnexpired(c.entities, t, now);
      RemovingTheFirst(c.entities, t);
      var next := Tick(c, t);
      assert forall e :: e in next.entities ==> e in c.entities;
      SameUnexpired(next.entities, t, now);
      ExpiredAreGone(next, times[1..], now);
    }
  }

  /** A tick at each of these times, in a run. */
  function Ticks(times: seq<nat>): seq<Event> {
    seq(|times|, i requires 0 <= i < |times| => TimerTick(times[i]))
  }

  lemma {:induction false} TicksAreARun(events: seq<Event>, times: seq<nat>)
    ensures Run(events + Ticks(times)) == TickAll(Run(events), times)
    decreases |times|
  {
    if times == [] {
      assert events + Ticks(times) == events;
    } else {
      var first := events + [TimerTick(times[0])];
      assert first[..|events|] == events;
      assert events + Ticks(times) == first + Ticks(times[1..]);
      TicksAreARun(first, times[1..]);
    }
  }

  lemma ExpiredAtAll(events: seq<Event>, times: seq<nat>, p: nat)
    requires Monotone(events + Ticks(times)) && p < |Run(events).entities|
    requires forall t :: t in times ==> IsOverdue(Latest(events, Run(events).entities[p].entityId), t)
    ensures Monotone(events)
    ensures forall t :: t in times ==> Run(events).entities[p].IsExpired(t)
  {
    var c, more := Run(events), events + Ticks(times);
    assert forall i :: 0 <= i < |events| ==> more[i] == events[i];
    EveryRunFollows(events);
    hide Run, Inv, FollowsFrom, IsOverdue, Latest;
    forall t | t in times ensures c.entities[p].IsExpired(t) {
      var i :| 0 <= i < |times| && times[i] == t;
      assert more[|events| + i] == TimerTick(t);
      InvLater(c, EndOf(events), t);
      ExpiredIsOverdue(c, events, p, t);
    }
  }

  /**
   * In every run: once the latest advertisement of the entity at position `p` of the table has run out, and no other
   * comes, `p + 1` ticks are enough for it to leave the table and for its station to be disconnected.
   */
  lemma DisconnectsWithin(events: seq<Event>, times: seq<nat>, p: nat)
    requires Monotone(events + Ticks(times)) && p < |Run(events).entities| && p < |times|
    requires forall t :: t in times ==> IsOverdue(Latest(events, Run(events).entities[p].entityId), t)
    ensures var c, id := Run(events + Ticks(times)), Run(events).entities[p].entityId;
            && !IsAdvertised(c.entities, id)
            && forall i :: 0 <= i < |c.stations| && c.stations[i].entityId == id ==>
                 c.stations[i].status == Disconnected
  {
    ExpiredAtAll(events, times, p);
    EveryRunKeeps(events);
    EveryRunKeeps(events + Ticks(times));
    TicksAreARun(events, times);
    hide Run, TickAll, Monotone;
    DepartsWithin(Run(events), times, p);
  }
}
