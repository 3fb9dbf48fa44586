/** What holds of discovery over every run of advertisements and ticks. */
module DiscoveryRuns {
  import opened Basics
  import opened Timers
  import opened Discovery

  // ------------------------------------------------------------------------------- the story of one entity

  /** Where an entity stands: absent, or present since an advertisement that is valid for so long. */
  datatype Phase = Absent | Present(at: nat, validMs: uint32) | Broken

  /** The protocol one entity has to follow: arrive, renew any number of times, and depart when overdue. */
  function Follow(phase: Phase, o: Output): Phase {
    match o
    case Arrived(_, at, validMs) => if phase.Absent? then Present(at, validMs) else Broken
    case Renewed(_, at, validMs) => if phase.Present? && phase.at <= at then Present(at, validMs) else Broken
    case Departed(_, at) => if phase.Present? && at > phase.at + phase.validMs then Absent else Broken
    case Reenumerated(_) => phase
    case DiscoverSent => phase
  }

  predicate Concerns(o: Output, id: nat) {
    !o.DiscoverSent? && o.entityId == id
  }

  function PhaseOf(log: seq<Output>, id: nat): Phase {
    if log == [] then Absent
    else
      var phase, last := PhaseOf(log[..|log| - 1], id), log[|log| - 1];
      if Concerns(last, id) then Follow(phase, last) else phase
  }

  // -------------------------------------------------------------------------------------- the invariant

  predicate IsAdvertised(entities: seq<Entity>, id: nat) {
    FindEntity(entities, id) < |entities|
  }

  predicate IsKnown(stations: seq<Station>, id: nat) {
    FirstStation(stations, id) < |stations|
  }

  ghost predicate EntitiesOk(entities: seq<Entity>, now: nat) {
    && (forall i, j :: 0 <= i < j < |entities| ==> entities[i].entityId != entities[j].entityId)
    && (forall i :: 0 <= i < |entities| ==>
          var t := entities[i].inflightTimer;
          t.running && !t.elapsed && t.startTime == entities[i].at % TWO_32 && entities[i].at <= now)
  }

  ghost predicate StationsOk(stations: seq<Station>) {
    && (forall i, j :: 0 <= i < j < |stations| ==> stations[i].entityId != stations[j].entityId)
    && (forall i :: 0 <= i < |stations| ==> stations[i].advertisedId == stations[i].entityId != 0)
  }

  /** A station is connected exactly when its entity is in the other table, which holds no other entities. */
  ghost predicate TablesAgree(c: Controller) {
    && (forall i :: 0 <= i < |c.stations| ==>
          c.stations[i].status == if IsAdvertised(c.entities, c.stations[i].entityId) then Connected else Disconnected)
    && (forall i :: 0 <= i < |c.entities| ==> IsKnown(c.stations, c.entities[i].entityId))
  }

  /** The phase that the table records for an entity. */
  function PhaseIn(entities: seq<Entity>, id: nat): Phase {
    var k := FindEntity(entities, id);
    if k < |entities| then Present(entities[k].at, entities[k].inflightTimer.count) else Absent
  }

  ghost predicate StoriesOk(c: Controller) {
    forall id: nat :: PhaseOf(c.log, id) == PhaseIn(c.entities, id)
  }

  ghost predicate Inv(c: Controller, now: nat) {
    EntitiesOk(c.entities, now) && StationsOk(c.stations) && TablesAgree(c) && StoriesOk(c)
  }

  // ---------------------------------------------------------------------------------------- the lookups

  lemma EntityAt(entities: seq<Entity>, i: nat, now: nat)
    requires EntitiesOk(entities, now) && i < |entities|
    ensures FindEntity(entities, entities[i].entityId) == i
  {
  }

  /** With distinct ids the first match on a tick and the last match on a receive are the same station. */
  lemma LookupsAgree(stations: seq<Station>, id: nat)
    requires StationsOk(stations)
    ensures FirstStation(stations, id) == LastAdvertised(stations, id)
  {
  }

  /** Searching a table after an entry was put in place of the one with the same id. */
  lemma FindAfterReplace(entities: seq<Entity>, k: nat, e: Entity, id: nat)
    requires k < |entities| && FindEntity(entities, e.entityId) == k
    ensures FindEntity(entities[k := e], id) == FindEntity(entities, id)
  {
    var entities' := entities[k := e];
    assert forall i :: 0 <= i < |entities| ==> entities'[i].entityId == entities[i].entityId;
  }

  lemma FindAfterPush(entities: seq<Entity>, e: Entity, id: nat)
    requires FindEntity(entities, e.entityId) == |entities|
    ensures var k := FindEntity(entities + [e], id);
            if id == e.entityId then k == |entities|
            else if FindEntity(entities, id) < |entities| then k == FindEntity(entities, id) else k == |entities| + 1
  {
    var entities' := entities + [e];
    assert entities'[|entities|] == e && forall i :: 0 <= i < |entities| ==> entities'[i] == entities[i];
  }

  lemma FindAfterRemove(entities: seq<Entity>, k: nat, id: nat, now: nat)
    requires EntitiesOk(entities, now) && k < |entities|
    ensures var i, was := FindEntity(RemoveAt(entities, k), id), FindEntity(entities, id);
            if id == entities[k].entityId || was == |entities| then i == |entities| - 1
            else i < |entities| - 1 && RemoveAt(entities, k)[i] == entities[was]
  {
    var rest, was := RemoveAt(entities, k), FindEntity(entities, id);
    var i := FindEntity(rest, id);
    if i < |rest| {
      assert rest[i] == entities[if i < k then i else i + 1];
    }
    if was < |entities| && was != k {
      assert rest[if was < k then was else was - 1] == entities[was];
    }
  }

  lemma PhaseAfter(log: seq<Output>, o: Output, id: nat)
    ensures PhaseOf(log + [o], id) == if Concerns(o, id) then Follow(PhaseOf(log, id), o) else PhaseOf(log, id)
  {
    assert (log + [o])[..|log|] == log;
  }

  // -------------------------------------------------------------------- every step keeps the invariant

  /** What `state_avail` does to the table, seen through the search. */
  lemma AvailUpdates(c: Controller, id: nat, validMs: uint32, now: nat, x: nat)
    ensures PhaseIn(Avail(c, id, validMs, now).entities, x) ==
            if x == id then Present(now, validMs) else PhaseIn(c.entities, x)
  {
    var c', k := Avail(c, id, validMs, now), FindEntity(c.entities, id);
    var e := c'.entities[k];
    if k < |c.entities| {
      FindAfterReplace(c.entities, k, e, x);
    } else {
      FindAfterPush(c.entities, e, x);
    }
  }

  lemma AvailKeepsEntities(c: Controller, id: nat, validMs: uint32, now: nat)
    requires EntitiesOk(c.entities, now)
    ensures var entities := Avail(c, id, validMs, now).entities;
            && EntitiesOk(entities, now)
            && (forall i :: 0 <= i < |entities| ==>
                 entities[i].entityId == id || IsAdvertised(c.entities, entities[i].entityId))
  {
    var entities := Avail(c, id, validMs, now).entities;
    assert forall i :: 0 <= i < |entities| ==>
           entities[i].entityId == id || (i < |c.entities| && entities[i] == c.entities[i]);
  }

  /** `state_avail` puts the entity in the table, and its story follows. */
  lemma AvailKeeps(c: Controller, id: nat, validMs: uint32, now: nat)
    requires EntitiesOk(c.entities, now) && StoriesOk(c)
    ensures var c' := Avail(c, id, validMs, now);
            && c'.stations == c.stations
            && EntitiesOk(c'.entities, now) && StoriesOk(c')
            && (forall x :: IsAdvertised(c'.entities, x) <==> x == id || IsAdvertised(c.entities, x))
            && (forall i :: 0 <= i < |c'.entities| ==>
                 c'.entities[i].entityId == id || IsAdvertised(c.entities, c'.entities[i].entityId))
  {
    var c' := Avail(c, id, validMs, now);
    AvailKeepsEntities(c, id, validMs, now);
    forall x: nat
      ensures IsAdvertised(c'.entities, x) <==> x == id || IsAdvertised(c.entities, x)
      ensures PhaseOf(c'.log, x) == PhaseIn(c'.entities, x)
    {
      assert PhaseOf(c.log, id) == PhaseIn(c.entities, id);
      PhaseAfter(c.log, c'.log[|c.log|], x);
      AvailUpdates(c, id, validMs, now, x);
    }
  }

  lemma ReenumerationIsNoEdge(c: Controller, outs: seq<Output>)
    requires StoriesOk(c) && |outs| <= 1 && (outs != [] ==> outs[0].Reenumerated? || outs[0].DiscoverSent?)
    ensures StoriesOk(c.(log := c.log + outs))
  {
    forall id: nat ensures PhaseOf(c.log + outs, id) == PhaseOf(c.log, id) {
      if outs == [] {
        assert c.log + outs == c.log;
      } else {
        PhaseAfter(c.log, outs[0], id);
      }
    }
  }

  lemma ReadvertiseKeeps(c: Controller, k: nat, ad: Advert, now: nat)
    requires Inv(c, now) && k < |c.stations| && c.stations[k].advertisedId == ad.entityId
    ensures Inv(Readvertise(c, k, ad, now), now)
  {
    hide PhaseOf, PhaseIn, Avail, EntitiesOk, FirstStation, FindEntity, LastAdvertised;
    var c', station := Readvertise(c, k, ad, now), c.stations[k];
    var outs := if station.MustReenumerate(ad) then [Reenumerated(station.entityId)] else [];
    var status := if station.status == Disconnected then Connected else station.status;
    var stations := c.stations[k := station.Refreshed(ad).(status := status)];
    ReenumerationIsNoEdge(c, outs);
    var mid := c.(stations := stations, log := c.log + outs);
    assert StoriesOk(mid);
    AvailKeeps(mid, ad.entityId, ad.ValidMs(), now);
    StationsStay(c.stations, stations);
    assert c' == Avail(mid, ad.entityId, ad.ValidMs(), now);
    forall i | 0 <= i < |c'.stations|
      ensures c'.stations[i].status ==
              if IsAdvertised(c'.entities, c'.stations[i].entityId) then Connected else Disconnected
    {
      assert i != k ==> c'.stations[i] == c.stations[i] && c.stations[i].entityId != ad.entityId;
    }
  }

  /** Rewriting stations without changing their ids leaves every lookup as it was. */
  lemma StationsStay(stations: seq<Station>, stations': seq<Station>)
    requires |stations'| == |stations|
    requires forall i :: 0 <= i < |stations| ==> stations'[i].entityId == stations[i].entityId
    ensures forall id :: FirstStation(stations', id) == FirstStation(stations, id)
  {
    forall id ensures FirstStation(stations', id) == FirstStation(stations, id) {
      FirstStationIs(stations', id, FirstStation(stations, id));
    }
  }

  lemma FirstStationIs(stations: seq<Station>, id: nat, k: nat)
    requires k <= |stations| && (k < |stations| ==> stations[k].entityId == id)
    requires forall i :: 0 <= i < k ==> stations[i].entityId != id
    ensures FirstStation(stations, id) == k
  {
  }

  lemma NewStationKeeps(c: Controller, ad: Advert, now: nat)
    requires Inv(c, now) && ad.entityId != 0 && !ad.controllerIgnore && !ad.notReady
    requires LastAdvertised(c.stations, ad.entityId) == |c.stations|
    ensures Inv(Receive(c, ad, now), now)
  {
    hide PhaseOf, PhaseIn, Avail, EntitiesOk, FirstStation, FindEntity, LastAdvertised;
    var c' := Receive(c, ad, now);
    LookupsAgree(c.stations, ad.entityId);
    assert !IsAdvertised(c.entities, ad.entityId);
    AvailKeeps(c, ad.entityId, ad.ValidMs(), now);
    forall id | id == ad.entityId || IsKnown(c.stations, id)
      ensures IsKnown(c'.stations, id)
    {
      if IsKnown(c.stations, id) {
        assert c'.stations[FirstStation(c.stations, id)].entityId == id;
      } else {
        assert c'.stations[|c.stations|].entityId == id;
      }
    }
    forall i | 0 <= i < |c'.stations|
      ensures c'.stations[i].status ==
              if IsAdvertised(c'.entities, c'.stations[i].entityId) then Connected else Disconnected
    {
      assert i < |c.stations| ==> c'.stations[i] == c.stations[i] && c.stations[i].entityId != ad.entityId;
    }
  }

  lemma TickKeeps(c: Controller, now: nat)
    requires Inv(c, now)
    ensures Inv(Tick(c, now), now)
  {
    var c' := Tick(c, now);
    var c1 := c.(firstTick := false, log := c.log + if c.firstTick then [DiscoverSent] else []);
    ReenumerationIsNoEdge(c, if c.firstTick then [DiscoverSent] else []);
    var k := FirstExpired(c.entities, now);
    if k < |c.entities| {
      DepartureKeeps(c1, c', k, now);
    }
  }

  lemma DepartureKeepsStories(c: Controller, c': Controller, k: nat, now: nat)
    requires EntitiesOk(c.entities, now) && StoriesOk(c) && k < |c.entities| && c.entities[k].IsExpired(now)
    requires c'.entities == RemoveAt(c.entities, k)
    requires c'.log == c.log + [Departed(c.entities[k].entityId, now)]
    ensures StoriesOk(c')
  {
    var e := c.entities[k];
    EntityAt(c.entities, k, now);
    ElapsedMsIsDistance(e.at, now);
    assert PhaseOf(c.log, e.entityId) == PhaseIn(c.entities, e.entityId);
    forall id: nat
      ensures PhaseOf(c'.log, id) == PhaseIn(c'.entities, id)
    {
      PhaseAfter(c.log, Departed(e.entityId, now), id);
      FindAfterRemove(c.entities, k, id, now);
    }
  }

  lemma RemoveKeepsEntities(entities: seq<Entity>, k: nat, now: nat)
    requires EntitiesOk(entities, now) && k < |entities|
    ensures EntitiesOk(RemoveAt(entities, k), now)
  {
    var rest := RemoveAt(entities, k);
    assert forall i :: 0 <= i < |rest| ==> rest[i] == entities[if i < k then i else i + 1];
  }

  lemma DepartureKeeps(c: Controller, c': Controller, k: nat, now: nat)
    requires Inv(c, now) && k < |c.entities| && c.entities[k].IsExpired(now)
    requires c'.entities == RemoveAt(c.entities, k)
    requires c'.log == c.log + [Departed(c.entities[k].entityId, now)]
    requires var i := FirstStation(c.stations, c.entities[k].entityId);
             i < |c.stations| && c'.stations == c.stations[i := c.stations[i].(status := Disconnected)]
    ensures Inv(c', now)
  {
    DepartureKeepsStories(c, c', k, now);
    DepartureKeepsAgreement(c, c', k, now);
    hide StoriesOk, TablesAgree, FirstStation;
    RemoveKeepsEntities(c.entities, k, now);
  }

  lemma DepartureKeepsAgreement(c: Controller, c': Controller, k: nat, now: nat)
    requires EntitiesOk(c.entities, now) && StationsOk(c.stations) && TablesAgree(c) && k < |c.entities|
    requires c'.entities == RemoveAt(c.entities, k)
    requires var i := FirstStation(c.stations, c.entities[k].entityId);
             i < |c.stations| && c'.stations == c.stations[i := c.stations[i].(status := Disconnected)]
    ensures TablesAgree(c')
  {
    StationsStay(c.stations, c'.stations);
    forall i | 0 <= i < |c'.entities|
      ensures IsKnown(c'.stations, c'.entities[i].entityId)
    {
      assert c'.entities[i] == c.entities[if i < k then i else i + 1];
    }
    forall i | 0 <= i < |c'.stations|
      ensures c'.stations[i].status ==
              if IsAdvertised(c'.entities, c'.stations[i].entityId) then Connected else Disconnected
    {
      FindAfterRemove(c.entities, k, c'.stations[i].entityId, now);
    }
  }

  /** After every advertisement and tick the two tables agree and every entity has followed the protocol. */
  lemma {:induction false} EveryRunKeeps(events: seq<Event>)
    requires Monotone(events)
    ensures Inv(Run(events), EndOf(events))
  {
    if events != [] {
      var n := |events| - 1;
      var c, event := Run(events[..n]), events[n];
      EveryRunKeeps(events[..n]);
      assert Inv(c, event.now);
      match event
      case TimerTick(now) => TickKeeps(c, now);
      case Advertisement(ad, now) =>
        var k := LastAdvertised(c.stations, ad.entityId);
        if !(ad.controllerIgnore || ad.notReady || ad.entityId == 0) {
          if k < |c.stations| {
            ReadvertiseKeeps(c, k, ad, now);
          } else {
            NewStationKeeps(c, ad, now);
          }
        }
    }
  }

  // ------------------------------------------------------------------------------------------ alternation

  /** The arrivals and departures of one entity. */
  function Edges(log: seq<Output>, id: nat): seq<Output> {
    if log == [] then []
    else
      var last := log[|log| - 1];
      Edges(log[..|log| - 1], id) + if Concerns(last, id) && (last.Arrived? || last.Departed?) then [last] else []
  }

  lemma {:induction false} ProtocolAlternates(log: seq<Output>, id: nat)
    requires !PhaseOf(log, id).Broken?
    ensures forall k :: 0 <= k < |Edges(log, id)| ==> (Edges(log, id)[k].Arrived? <==> k % 2 == 0)
    ensures PhaseOf(log, id).Present? <==> |Edges(log, id)| % 2 == 1
  {
    if log != [] {
      ProtocolAlternates(log[..|log| - 1], id);
    }
  }

  /**
   * For each entity the connected and disconnected notifications strictly alternate, starting with connected;
   * the entity is in the table, and its station connected, exactly when the last one was connected.
   */
  lemma NotificationsAlternate(events: seq<Event>, id: nat)
    requires Monotone(events)
    ensures var c, edges := Run(events), Edges(Run(events).log, id);
            && (forall k :: 0 <= k < |edges| ==> (edges[k].Arrived? <==> k % 2 == 0))
            && (IsAdvertised(c.entities, id) <==> |edges| % 2 == 1)
            && (forall i :: 0 <= i < |c.stations| && c.stations[i].entityId == id ==>
                  (c.stations[i].status == Connected <==> |edges| % 2 == 1))
  {
    EveryRunKeeps(events);
    ProtocolAlternates(Run(events).log, id);
  }

  lemma {:induction false} FollowedAllAlong(log: seq<Output>, id: nat, k: nat)
    requires !PhaseOf(log, id).Broken? && k < |log| && Concerns(log[k], id)
    ensures !Follow(PhaseOf(log[..k], id), log[k]).Broken?
  {
    var n := |log| - 1;
    if k < n {
      FollowedAllAlong(log[..n], id, k);
      assert log[..n][..k] == log[..k] && log[..n][k] == log[k];
    }
  }

  /** The latest advertisement of an entity before position `k` of the log, if it had one. */
  function LatestAdvert(log: seq<Output>, id: nat): Option<Output> {
    if log == [] then None
    else
      var last := log[|log| - 1];
      if Concerns(last, id) && (last.Arrived? || last.Renewed?) then Some(last) else LatestAdvert(log[..|log| - 1], id)
  }

  lemma {:induction false} PresenceIsTheLatestAdvert(log: seq<Output>, id: nat)
    requires PhaseOf(log, id).Present?
    ensures var ad := LatestAdvert(log, id);
            ad.Some? && (ad.value.Arrived? || ad.value.Renewed?) &&
            PhaseOf(log, id) == Present(ad.value.at, ad.value.validMs)
  {
    var last := log[|log| - 1];
    if !(Concerns(last, id) && (last.Arrived? || last.Renewed?)) {
      PresenceIsTheLatestAdvert(log[..|log| - 1], id);
    }
  }

  /** A departure in the log lies past the validity of the arrival or renewal before it. */
  lemma DepartsAfterItsAdvert(events: seq<Event>, k: nat)
    requires Monotone(events) && k < |Run(events).log| && Run(events).log[k].Departed?
    ensures var log := Run(events).log;
            var ad := LatestAdvert(log[..k], log[k].entityId);
            ad.Some? && (ad.value.Arrived? || ad.value.Renewed?) && log[k].at > ad.value.at + ad.value.validMs
  {
    var log := Run(events).log;
    var id := log[k].entityId;
    EveryRunKeeps(events);
    FollowedAllAlong(log, id, k);
    PresenceIsTheLatestAdvert(log[..k], id);
  }

  // -------------------------------------------------------------------------------------- stable indices

  lemma StationsAreOk(events: seq<Event>)
    requires Monotone(events)
    ensures StationsOk(Run(events).stations)
  {
    EveryRunKeeps(events);
  }

  lemma StepKeepsStations(c: Controller, event: Event, i: nat)
    requires i < |c.stations| && StationsOk(c.stations)
    ensures i < |Step(c, event).stations|
    ensures Step(c, event).stations[i].entityId == c.stations[i].entityId
  {
  }

  /** Stations are only ever added at the end, so an index once returned names the same entity for ever. */
  lemma {:induction false} StationIndicesAreStable(events: seq<Event>, n: nat, i: nat)
    requires Monotone(events) && n <= |events| && i < |Run(events[..n]).stations|
    ensures i < |Run(events).stations|
    ensures var station := Run(events).stations[i];
            station.entityId == station.advertisedId == Run(events[..n]).stations[i].entityId
  {
    StationsAreOk(events);
    if n == |events| {
      assert events[..n] == events;
    } else {
      var last := |events| - 1;
      assert events[..last][..n] == events[..n];
      StationsAreOk(events[..last]);
      StationIndicesAreStable(events[..last], n, i);
      hide Step, StationsOk;
      StepKeepsStations(Run(events[..last]), events[last], i);
    }
  }
}
