/**
 * Discovery in terms of what was received: what each advertisement and each tick does to the tables and to the log is
 * said from the advertisements received before, not from the tables.
 */
module DiscoveryEvents {
  import opened Basics
  import opened Timers
  import opened Discovery
  import opened DiscoveryRuns

  /** An advertisement that asks to be enumerated, of an entity with an id. */
  predicate IsAccepted(ad: Advert) {
    !ad.controllerIgnore && !ad.notReady && ad.entityId != 0
  }

  /** The latest accepted advertisement of an entity. */
  function Latest(events: seq<Event>, id: nat): (latest: Option<Event>)
    ensures latest.Some? ==>
              latest.value.Advertisement? && IsAccepted(latest.value.ad) && latest.value.ad.entityId == id
  {
    if events == [] then None
    else
      var last := events[|events| - 1];
      if last.Advertisement? && IsAccepted(last.ad) && last.ad.entityId == id then Some(last)
      else Latest(events[..|events| - 1], id)
  }

  lemma LatestOfOneMore(events: seq<Event>, event: Event, id: nat)
    ensures Latest(events + [event], id) ==
            if event.Advertisement? && IsAccepted(event.ad) && event.ad.entityId == id then Some(event)
            else Latest(events, id)
    ensures Run(events + [event]) == Step(Run(events), event)
    ensures Monotone(events + [event]) ==> Monotone(events) && EndOf(events) <= event.now
  {
    var more := events + [event];
    assert more[..|events|] == events && more[|events|] == event;
    if Monotone(more) {
      assert forall i :: 0 <= i < |events| ==> more[i] == events[i];
    }
  }

  ghost predicate InTable(entities: seq<Entity>, id: nat) {
    exists i :: 0 <= i < |entities| && entities[i].entityId == id
  }

  /** What an advertisement makes of the entity and of the station, each put in its place or added at the end. */
  function AdvertisedEntity(ad: Advert, now: nat): (e: Entity)
    ensures e.entityId == ad.entityId
  {
    Entity(ad.entityId, TimerValue(true, false, 2000 * ad.validTime, now % 0x1_0000_0000), now)
  }

  function AdvertisedStation(ad: Advert): Station {
    Station(ad.entityId, Connected, ad.entityId, ad.availableIndex, ad.entityModelId)
  }

  /** `v'` is `v` with `x` at position `k`, which may be the end. */
  ghost predicate IsPlaced<T(!new)>(v: seq<T>, k: nat, x: T, v': seq<T>) {
    k <= |v| && v' == if k < |v| then v[k := x] else v + [x]
  }

  lemma ReceiveEffect(c: Controller, ad: Advert, now: nat)
    requires Inv(c, now) && IsAccepted(ad)
    ensures var c', id := Receive(c, ad, now), ad.entityId;
            var p, q := FindEntity(c.entities, id), FirstStation(c.stations, id);
            && IsPlaced(c.entities, p, AdvertisedEntity(ad, now), c'.entities)
            && IsPlaced(c.stations, q, AdvertisedStation(ad), c'.stations)
            && c'.firstTick == c.firstTick
            && c'.log == c.log +
                 (if q < |c.stations| && (ad.availableIndex < c.stations[q].availableIndex ||
                                          ad.entityModelId != c.stations[q].entityModelId)
                  then [Reenumerated(id)] else []) +
                 [if p < |c.entities| then Renewed(id, now, 2000 * ad.validTime)
                  else Arrived(id, now, 2000 * ad.validTime)]
  {
    hide PhaseOf, PhaseIn, FindEntity, FirstStation, LastAdvertised;
    LookupsAgree(c.stations, ad.entityId);
    assert c.log + [] == c.log;
  }

  // --------------------------------------------------------------------------- the tables follow from the events

  ghost predicate EntityFrom(e: Entity, latest: Option<Event>) {
    latest.Some? && latest.value.Advertisement? && e == AdvertisedEntity(latest.value.ad, latest.value.now)
  }

  ghost predicate StationFrom(station: Station, latest: Option<Event>) {
    && latest.Some? && latest.value.Advertisement?
    && station.availableIndex == latest.value.ad.availableIndex
    && station.entityModelId == latest.value.ad.entityModelId
  }

  ghost predicate HasTicked(events: seq<Event>) {
    exists i :: 0 <= i < |events| && events[i].TimerTick?
  }

  ghost predicate EntitiesFollow(entities: seq<Entity>, events: seq<Event>) {
    forall i :: 0 <= i < |entities| ==> EntityFrom(entities[i], Latest(events, entities[i].entityId))
  }

  ghost predicate StationsFollow(stations: seq<Station>, events: seq<Event>) {
    && (forall i :: 0 <= i < |stations| ==> StationFrom(stations[i], Latest(events, stations[i].entityId)))
    && (forall id: nat :: Latest(events, id).Some? ==> IsKnown(stations, id))
  }

  /** Both tables hold what the latest accepted advertisements said, and there is a station for each of them. */
  ghost predicate FollowsFrom(c: Controller, events: seq<Event>) {
    EntitiesFollow(c.entities, events) && StationsFollow(c.stations, events) && (c.firstTick <==> !HasTicked(events))
  }

  lemma TickedOnceMore(events: seq<Event>, event: Event)
    ensures HasTicked(events + [event]) <==> HasTicked(events) || event.TimerTick?
  {
    var more := events + [event];
    assert more[|events|] == event && forall i :: 0 <= i < |events| ==> more[i] == events[i];
  }

  lemma EntitiesFollowOn(entities: seq<Entity>, events: seq<Event>, ad: Advert, now: nat, entities': seq<Entity>)
    requires IsAccepted(ad) && EntitiesFollow(entities, events)
    requires IsPlaced(entities, FindEntity(entities, ad.entityId), AdvertisedEntity(ad, now), entities')
    requires forall i, j :: 0 <= i < j < |entities| ==> entities[i].entityId != entities[j].entityId
    ensures EntitiesFollow(entities', events + [Advertisement(ad, now)])
  {
    hide Latest, FindEntity, AdvertisedEntity;
    var k := FindEntity(entities, ad.entityId);
    forall i | 0 <= i < |entities'|
      ensures EntityFrom(entities'[i], Latest(events + [Advertisement(ad, now)], entities'[i].entityId))
    {
      LatestOfOneMore(events, Advertisement(ad, now), entities'[i].entityId);
      if i == k {
        assert entities'[i] == AdvertisedEntity(ad, now);
      } else {
        assert entities'[i] == entities[i] && EntityFrom(entities[i], Latest(events, entities[i].entityId));
      }
    }
  }

  lemma StationsFollowOn(stations: seq<Station>, events: seq<Event>, ad: Advert, now: nat, stations': seq<Station>)
    requires IsAccepted(ad) && StationsFollow(stations, events) && StationsOk(stations)
    requires IsPlaced(stations, FirstStation(stations, ad.entityId), AdvertisedStation(ad), stations')
    ensures StationsFollow(stations', events + [Advertisement(ad, now)])
  {
    var event := Advertisement(ad, now);
    hide Latest, FirstStation;
    var q := FirstStation(stations, ad.entityId);
    forall i | 0 <= i < |stations'|
      ensures StationFrom(stations'[i], Latest(events + [event], stations'[i].entityId))
    {
      LatestOfOneMore(events, event, stations'[i].entityId);
      if i == q {
        assert stations'[i] == AdvertisedStation(ad);
      } else {
        assert stations'[i] == stations[i] && StationFrom(stations[i], Latest(events, stations[i].entityId));
      }
    }
    forall id: nat | Latest(events + [event], id).Some? ensures IsKnown(stations', id) {
      LatestOfOneMore(events, event, id);
      KnownAfter(stations, AdvertisedStation(ad), stations', id);
    }
  }

  lemma AcceptedFollows(c: Controller, events: seq<Event>, ad: Advert, now: nat)
    requires Inv(c, now) && FollowsFrom(c, events) && IsAccepted(ad)
    ensures FollowsFrom(Receive(c, ad, now), events + [Advertisement(ad, now)])
  {
    var event, c' := Advertisement(ad, now), Receive(c, ad, now);
    ReceiveEffect(c, ad, now);
    TickedOnceMore(events, event);
    hide Receive, StoriesOk, TablesAgree, StationsOk, EntitiesFollow, StationsFollow, HasTicked, IsPlaced;
    EntitiesFollowOn(c.entities, events, ad, now, c'.entities);
    StationsFollowOn(c.stations, events, ad, now, c'.stations);
  }

  lemma KnownAfter(stations: seq<Station>, station: Station, stations': seq<Station>, id: nat)
    requires IsPlaced(stations, FirstStation(stations, station.entityId), station, stations')
    ensures IsKnown(stations', id) <==> IsKnown(stations, id) || id == station.entityId
  {
    var q, k, k' := FirstStation(stations, station.entityId), FirstStation(stations, id), FirstStation(stations', id);
    assert stations'[q] == station && forall i :: 0 <= i < |stations| && i != q ==> stations'[i] == stations[i];
    assert k < |stations| ==> stations'[k].entityId == id;
  }

  /** Nothing but the status of the station of the departed entity differs. */
  ghost predicate IsDisconnected(stations: seq<Station>, departed: Option<nat>, stations': seq<Station>) {
    && |stations'| == |stations|
    && (forall i :: 0 <= i < |stations| && departed != Some(stations[i].entityId) ==> stations'[i] == stations[i])
    && (forall i :: 0 <= i < |stations| && departed == Some(stations[i].entityId) ==>
          stations'[i] == stations[i].(status := Disconnected))
  }

  lemma TickEffect(c: Controller, now: nat)
    requires Inv(c, now)
    ensures var c', k := Tick(c, now), FirstExpired(c.entities, now);
            var departed := if k < |c.entities| then Some(c.entities[k].entityId) else None;
            && c'.entities == (if k < |c.entities| then RemoveAt(c.entities, k) else c.entities)
            && IsDisconnected(c.stations, departed, c'.stations)
            && !c'.firstTick
            && c'.log == c.log + (if c.firstTick then [DiscoverSent] else []) +
                 if departed.Some? then [Departed(departed.value, now)] else []
  {
    hide StoriesOk, EntitiesOk;
    var c', k := Tick(c, now), FirstExpired(c.entities, now);
    if k < |c.entities| {
      assert IsKnown(c.stations, c.entities[k].entityId);
    } else {
      assert c'.log + [] == c'.log;
    }
  }

  lemma TickedEntitiesFollow(entities: seq<Entity>, events: seq<Event>, now: nat, entities': seq<Entity>, k: nat)
    requires EntitiesFollow(entities, events)
    requires entities' == if k < |entities| then RemoveAt(entities, k) else entities
    ensures EntitiesFollow(entities', events + [TimerTick(now)])
  {
    hide Latest, EntityFrom;
    forall i | 0 <= i < |entities'|
      ensures EntityFrom(entities'[i], Latest(events + [TimerTick(now)], entities'[i].entityId))
    {
      LatestOfOneMore(events, TimerTick(now), entities'[i].entityId);
      assert entities'[i] == entities[if k < |entities| && i >= k then i + 1 else i];
    }
  }

  lemma TickedStationsFollow(
    stations: seq<Station>, events: seq<Event>, now: nat, departed: Option<nat>, stations': seq<Station>)
    requires StationsFollow(stations, events) && IsDisconnected(stations, departed, stations')
    ensures StationsFollow(stations', events + [TimerTick(now)])
  {
    hide Latest, FirstStation;
    StationsStay(stations, stations');
    forall i | 0 <= i < |stations'|
      ensures StationFrom(stations'[i], Latest(events + [TimerTick(now)], stations'[i].entityId))
    {
      LatestOfOneMore(events, TimerTick(now), stations'[i].entityId);
      assert StationFrom(stations[i], Latest(events, stations[i].entityId));
    }
    forall id: nat | Latest(events + [TimerTick(now)], id).Some? ensures IsKnown(stations', id) {
      LatestOfOneMore(events, TimerTick(now), id);
    }
  }

  lemma TickFollows(c: Controller, events: seq<Event>, now: nat)
    requires Inv(c, now) && FollowsFrom(c, events)
    ensures FollowsFrom(Tick(c, now), events + [TimerTick(now)])
  {
    hide Tick, Inv, HasTicked, FirstExpired, EntitiesFollow, StationsFollow, IsDisconnected;
    var c', k := Tick(c, now), FirstExpired(c.entities, now);
    TickEffect(c, now);
    TickedOnceMore(events, TimerTick(now));
    TickedEntitiesFollow(c.entities, events, now, c'.entities, k);
    TickedStationsFollow(
      c.stations, events, now, if k < |c.entities| then Some(c.entities[k].entityId) else None, c'.stations);
  }

  lemma {:induction false} EveryRunFollows(events: seq<Event>)
    requires Monotone(events)
    ensures Inv(Run(events), EndOf(events)) && FollowsFrom(Run(events), events)
  {
    hide Inv, FollowsFrom, Receive, Tick;
    EveryRunKeeps(events);
    if events == [] {
      NothingFollows();
    } else {
      var n := |events| - 1;
      var before, event := events[..n], events[n];
      assert events == before + [event];
      EveryRunFollows(before);
      LatestOfOneMore(before, event, 0);
      InvLater(Run(before), EndOf(before), event.now);
      match event
      case TimerTick(now) => TickFollows(Run(before), before, now);
      case Advertisement(ad, now) =>
        if IsAccepted(ad) {
          AcceptedFollows(Run(before), before, ad, now);
        } else {
          IgnoredChangesNothing(Run(before), before, ad, now);
        }
    }
  }

  lemma NothingFollows()
    ensures FollowsFrom(INITIAL, [])
  {
  }

  lemma InvLater(c: Controller, now: nat, later: nat)
    requires Inv(c, now) && now <= later
    ensures Inv(c, later)
  {
  }

  lemma IgnoredChangesNothing(c: Controller, events: seq<Event>, ad: Advert, now: nat)
    requires !IsAccepted(ad)
    ensures Receive(c, ad, now) == c
    ensures FollowsFrom(c, events) ==> FollowsFrom(c, events + [Advertisement(ad, now)])
  {
    var event := Advertisement(ad, now);
    TickedOnceMore(events, event);
    forall id: nat ensures Latest(events + [event], id) == Latest(events, id) { LatestOfOneMore(events, event, id); }
    hide Latest, HasTicked, FirstStation;
  }

  lemma PlacedEntity(c: Controller, c': Controller, e: Entity)
    requires IsPlaced(c.entities, FindEntity(c.entities, e.entityId), e, c'.entities)
    ensures InTable(c.entities, e.entityId) <==> FindEntity(c.entities, e.entityId) < |c.entities|
    ensures InTable(c'.entities, e.entityId) && e in c'.entities
    ensures |c'.entities| == |c.entities| + if InTable(c.entities, e.entityId) then 0 else 1
    ensures forall i :: 0 <= i < |c.entities| && c.entities[i].entityId != e.entityId ==>
              c'.entities[i] == c.entities[i]
  {
    assert c'.entities[FindEntity(c.entities, e.entityId)] == e;
  }

  lemma PlacedStation(c: Controller, c': Controller, events: seq<Event>, station: Station)
    requires IsPlaced(c.stations, FirstStation(c.stations, station.entityId), station, c'.stations)
    requires StationsFollow(c.stations, events)
    ensures Latest(events, station.entityId).Some? <==> FirstStation(c.stations, station.entityId) < |c.stations|
    ensures station in c'.stations
    ensures |c'.stations| == |c.stations| + if Latest(events, station.entityId).Some? then 0 else 1
    ensures forall i :: 0 <= i < |c.stations| && c.stations[i].entityId != station.entityId ==>
              c'.stations[i] == c.stations[i]
  {
    hide Latest;
    assert c'.stations[FirstStation(c.stations, station.entityId)] == station;
  }

  lemma PhaseOfEntity(c: Controller, e: Entity, now: nat)
    requires Inv(c, now) && e in c.entities
    ensures PhaseOf(c.log, e.entityId) == Present(e.at, e.inflightTimer.count)
  {
    hide TablesAgree, StationsOk, PhaseOf, FindEntity;
    var i :| 0 <= i < |c.entities| && c.entities[i] == e;
    EntityAt(c.entities, i, now);
    assert PhaseOf(c.log, e.entityId) == PhaseIn(c.entities, e.entityId);
  }

  // --------------------------------------------------------------------------------------------- main results

  /** An accepted advertisement asks for a new enumeration, compared with the one before it. */
  predicate AsksAgain(ad: Advert, previous: Option<Event>) {
    previous.Some? && previous.value.Advertisement? &&
    (ad.availableIndex < previous.value.ad.availableIndex || ad.entityModelId != previous.value.ad.entityModelId)
  }

  lemma AsksAgainAsStored(c: Controller, events: seq<Event>, ad: Advert)
    requires FollowsFrom(c, events)
    ensures var q := FirstStation(c.stations, ad.entityId);
            AsksAgain(ad, Latest(events, ad.entityId)) <==>
            q < |c.stations| && (ad.availableIndex < c.stations[q].availableIndex ||
                                 ad.entityModelId != c.stations[q].entityModelId)
  {
    hide Latest, FirstStation, EntitiesFollow, HasTicked;
    assert IsKnown(c.stations, ad.entityId) <== Latest(events, ad.entityId).Some?;
  }

  /**
   * In every run an accepted advertisement puts its entity in the table, valid from now for twice its valid time, and
   * connects its station, which holds the index and model advertised; it is told as an arrival exactly when the entity
   * was not in the table, and as a renewal otherwise; and the station is enumerated again exactly when an earlier
   * advertisement was accepted, and the latest of them had a greater index or another model.  Nothing else changes.
   * An advertisement that is not accepted changes nothing.
   */
  lemma AdvertisementsTakeEffect(events: seq<Event>, ad: Advert, now: nat)
    requires Monotone(events + [Advertisement(ad, now)])
    ensures !IsAccepted(ad) ==> Run(events + [Advertisement(ad, now)]) == Run(events)
    ensures IsAccepted(ad) ==>
              var c, c', id := Run(events), Run(events + [Advertisement(ad, now)]), ad.entityId;
              && InTable(c'.entities, id) && AdvertisedEntity(ad, now) in c'.entities
              && AdvertisedStation(ad) in c'.stations
              && PhaseOf(c'.log, id) == Present(now, 2000 * ad.validTime)
              && c'.log == c.log +
                   (if AsksAgain(ad, Latest(events, id)) then [Reenumerated(id)] else []) +
                   [if InTable(c.entities, id) then Renewed(id, now, 2000 * ad.validTime)
                    else Arrived(id, now, 2000 * ad.validTime)]
              && |c'.entities| == |c.entities| + (if InTable(c.entities, id) then 0 else 1)
              && |c'.stations| == |c.stations| + (if Latest(events, id).Some? then 0 else 1)
              && (forall i :: 0 <= i < |c.entities| && c.entities[i].entityId != id ==> c'.entities[i] == c.entities[i])
              && (forall i :: 0 <= i < |c.stations| && c.stations[i].entityId != id ==> c'.stations[i] == c.stations[i])
  {
    var event := Advertisement(ad, now);
    hide Receive, Inv, PhaseOf, Monotone;
    LatestOfOneMore(events, event, 0);
    if IsAccepted(ad) {
      var c, c', id := Run(events), Run(events + [event]), ad.entityId;
      EveryRunFollows(events);
      EveryRunFollows(events + [event]);
      InvLater(c, EndOf(events), now);
      ReceiveEffect(c, ad, now);
      AsksAgainAsStored(c, events, ad);
      hide Run, FindEntity, FirstStation, Latest, IsPlaced, AsksAgain, InTable, StationsFollow;
      PlacedEntity(c, c', AdvertisedEntity(ad, now));
      PlacedStation(c, c', events, AdvertisedStation(ad));
      PhaseOfEntity(c', AdvertisedEntity(ad, now), now);
    } else {
      IgnoredChangesNothing(Run(events), events, ad, now);
    }
  }

  /** The latest advertisement was accepted longer ago than twice its valid time, on a clock of 32 bits. */
  predicate IsOverdue(latest: Option<Event>, now: nat) {
    latest.Some? && latest.value.Advertisement? &&
    (now - latest.value.now) % 0x1_0000_0000 > 2000 * latest.value.ad.validTime
  }

  lemma ExpiredIsOverdue(c: Controller, events: seq<Event>, i: nat, now: nat)
    requires Inv(c, now) && FollowsFrom(c, events) && i < |c.entities|
    ensures c.entities[i].IsExpired(now) <==> IsOverdue(Latest(events, c.entities[i].entityId), now)
  {
    hide StoriesOk, TablesAgree, StationsOk, StationsFollow, HasTicked, Latest;
    ElapsedMsIsDistance(c.entities[i].at, now);
  }

  /** The first entity of the table that is overdue, or the end of the table. */
  ghost predicate IsFirstOverdue(entities: seq<Entity>, events: seq<Event>, now: nat, k: nat) {
    && k <= |entities|
    && (k < |entities| ==> IsOverdue(Latest(events, entities[k].entityId), now))
    && forall i :: 0 <= i < k ==> !IsOverdue(Latest(events, entities[i].entityId), now)
  }

  lemma FirstOverdueIsFirstExpired(c: Controller, events: seq<Event>, now: nat, k: nat)
    requires Inv(c, now) && FollowsFrom(c, events) && IsFirstOverdue(c.entities, events, now, k)
    ensures k == FirstExpired(c.entities, now)
  {
    hide Inv, FollowsFrom, IsOverdue, Latest, Entity.IsExpired;
    forall i | 0 <= i < |c.entities|
      ensures c.entities[i].IsExpired(now) <==> IsOverdue(Latest(events, c.entities[i].entityId), now)
    {
      ExpiredIsOverdue(c, events, i, now);
    }
  }

  /**
   * In every run a tick asks the entities of the network to answer exactly when it is the first tick, and then takes
   * out the first entity of the table that is overdue, whose station it disconnects.  Nothing else changes.
   */
  lemma TicksTakeEffect(events: seq<Event>, now: nat, k: nat)
    requires Monotone(events + [TimerTick(now)]) && IsFirstOverdue(Run(events).entities, events, now, k)
    ensures var c, c' := Run(events), Run(events + [TimerTick(now)]);
            var departed := if k < |c.entities| then Some(c.entities[k].entityId) else None;
            && c'.entities == (if k < |c.entities| then c.entities[..k] + c.entities[k + 1..] else c.entities)
            && IsDisconnected(c.stations, departed, c'.stations)
            && c'.log == c.log + (if HasTicked(events) then [] else [DiscoverSent]) +
                 if departed.Some? then [Departed(departed.value, now)] else []
  {
    hide Latest, Inv, Monotone, Tick, EntitiesFollow, StationsFollow, IsFirstOverdue, FirstExpired, HasTicked, Run,
      IsDisconnected, Entity.IsExpired, RemoveAt;
    var c := Run(events);
    LatestOfOneMore(events, TimerTick(now), 0);
    EveryRunFollows(events);
    InvLater(c, EndOf(events), now);
    FirstOverdueIsFirstExpired(c, events, now, k);
    TickEffect(c, now);
    assert k < |c.entities| ==> RemoveAt(c.entities, k) == c.entities[..k] + c.entities[k + 1..];
  }

  lemma SomeFirstOverdue(entities: seq<Entity>, events: seq<Event>, now: nat) returns (k: nat)
    ensures IsFirstOverdue(entities, events, now, k)
  {
    hide Latest, IsOverdue;
    k := FindFirst(entities, (e: Entity) => IsOverdue(Latest(events, e.entityId), now));
  }

  lemma {:induction false} LatestIsEarlier(events: seq<Event>, id: nat, now: nat)
    requires Monotone(events) && EndOf(events) <= now
    ensures var latest := Latest(events, id); latest.Some? ==> latest.value.now <= now
  {
    if events != [] {
      LatestIsEarlier(events[..|events| - 1], id, now);
    }
  }

  /** A departure that a tick tells, past twice the valid time of the latest accepted advertisement before it. */
  ghost predicate IsDueDeparture(before: seq<Event>, event: Event, o: Output) {
    o.Departed? && event == TimerTick(o.at) &&
    var latest := Latest(before, o.entityId);
    latest.Some? && latest.value.Advertisement? && o.at > latest.value.now + 2000 * latest.value.ad.validTime
  }

  /** Position `k` of the log was written by event number `n`. */
  ghost predicate IsWrittenBy(events: seq<Event>, k: nat, n: nat) {
    n < |events| && |Run(events[..n]).log| <= k < |Run(events[..n + 1]).log|
  }

  /** The positions from `n` on hold only departures that are due. */
  ghost predicate DeparturesAreDue(log: seq<Output>, n: nat, before: seq<Event>, event: Event) {
    forall k :: n <= k < |log| && log[k].Departed? ==> IsDueDeparture(before, event, log[k])
  }

  lemma TickDeparturesAreDue(events: seq<Event>, now: nat)
    requires Monotone(events + [TimerTick(now)])
    ensures Run(events).log <= Run(events + [TimerTick(now)]).log
    ensures DeparturesAreDue(Run(events + [TimerTick(now)]).log, |Run(events).log|, events, TimerTick(now))
  {
    hide Latest, Monotone, Run, HasTicked, IsDisconnected;
    var entities := Run(events).entities;
    LatestOfOneMore(events, TimerTick(now), 0);
    var k := SomeFirstOverdue(entities, events, now);
    TicksTakeEffect(events, now, k);
    if k < |entities| {
      LatestIsEarlier(events, entities[k].entityId, now);
    }
  }

  lemma AdvertisementsTellNoDeparture(events: seq<Event>, ad: Advert, now: nat)
    requires Monotone(events + [Advertisement(ad, now)])
    ensures Run(events).log <= Run(events + [Advertisement(ad, now)]).log
    ensures DeparturesAreDue(
              Run(events + [Advertisement(ad, now)]).log, |Run(events).log|, events, Advertisement(ad, now))
  {
    hide Latest, Monotone, Run, PhaseOf, InTable, IsAccepted, IsDueDeparture;
    AdvertisementsTakeEffect(events, ad, now);
  }

  lemma LogGrows(events: seq<Event>, event: Event)
    requires Monotone(events + [event])
    ensures Run(events).log <= Run(events + [event]).log
    ensures DeparturesAreDue(Run(events + [event]).log, |Run(events).log|, events, event)
  {
    hide Monotone, Run, DeparturesAreDue;
    match event
    case TimerTick(now) => TickDeparturesAreDue(events, now);
    case Advertisement(ad, now) => AdvertisementsTellNoDeparture(events, ad, now);
  }

  lemma WrittenByNow(events: seq<Event>, event: Event, k: nat, n: nat)
    ensures |Run(events).log| <= k < |Run(events + [event]).log| ==> IsWrittenBy(events + [event], k, |events|)
    ensures IsWrittenBy(events, k, n) ==> IsWrittenBy(events + [event], k, n)
    ensures n < |events| ==> (events + [event])[..n] == events[..n]
    ensures (events + [event])[..|events|] == events
  {
    hide Run;
    var more := events + [event];
    assert more[..|events|] == events && more[..|events| + 1] == more;
    assert n < |events| ==> more[..n] == events[..n] && more[..n + 1] == events[..n + 1];
  }

  /**
   * A station is reported disconnected only by a tick, and only when that tick comes more than twice the valid time
   * of the latest accepted advertisement after it.
   */
  lemma {:induction false} NeverDisconnectedEarly(events: seq<Event>, k: nat)
    requires Monotone(events) && k < |Run(events).log| && Run(events).log[k].Departed?
    ensures exists n: nat ::
              IsWrittenBy(events, k, n) && IsDueDeparture(events[..n], events[n], Run(events).log[k])
  {
    if events != [] {
      var before, event := events[..|events| - 1], events[|events| - 1];
      assert events == before + [event];
      LatestOfOneMore(before, event, 0);
      hide IsDueDeparture, Step, Run, Monotone;
      LogGrows(before, event);
      if k < |Run(before).log| {
        NeverDisconnectedEarly(before, k);
        var m: nat :|
          IsWrittenBy(before, k, m) && IsDueDeparture(before[..m], before[m], Run(before).log[k]);
        WrittenByNow(before, event, k, m);
      } else {
        WrittenByNow(before, event, k, |before|);
      }
    }
  }
}
