/**
 * Discovery of end stations: the ADP state machine of controller/lib/src/adp_discovery_state_machine.cpp, which
 * keeps the entities whose advertisements are still valid, and the station table of
 * controller/lib/src/controller_imp.cpp, which is kept separately and never shrinks.
 */
module Discovery {
  import opened Basics
  import opened Timers

  /** A parsed ADPDU.  The first two flags are the capabilities that ask a controller to stay away. */
  datatype Advert = Advert(
    entityId: nat, controllerIgnore: bool, notReady: bool, validTime: uint8, availableIndex: uint32, entityModelId: nat)
  {
    function ValidMs(): uint32 {
      validTime * 2 * 1000
    }
  }

  /** `at` is history: the unbounded time at which the timer was last started. */
  datatype Entity = Entity(entityId: nat, inflightTimer: TimerValue, at: nat) {
    predicate IsExpired(now: nat) {
      inflightTimer.Polled(now).elapsed
    }
  }

  datatype Status = Unknown | Connected | Disconnected

  /** An end station, with the parts of its latest advertisement that are looked at. */
  datatype Station = Station(
    entityId: nat, status: Status, advertisedId: nat, availableIndex: uint32, entityModelId: nat)
  {
    /** `proc_adpdu`: the stored advertisement is replaced. */
    function Refreshed(ad: Advert): Station {
      this.(advertisedId := ad.entityId, availableIndex := ad.availableIndex, entityModelId := ad.entityModelId)
    }

    predicate MustReenumerate(ad: Advert) {
      ad.availableIndex < availableIndex || ad.entityModelId != entityModelId
    }
  }

  datatype Output =
    | DiscoverSent
    | Arrived(entityId: nat, at: nat, validMs: uint32)
    | Renewed(entityId: nat, at: nat, validMs: uint32)
    | Departed(entityId: nat, at: nat)
    | Reenumerated(entityId: nat)

  datatype Controller = Controller(firstTick: bool, entities: seq<Entity>, stations: seq<Station>, log: seq<Output>)

  const INITIAL := Controller(true, [], [], [])

  // ------------------------------------------------------------------------------------------- lookups

  /** `have_entity`: the first entity with this id, or the end of the vector. */
  function FindEntity(entities: seq<Entity>, id: nat): (k: nat)
    ensures k <= |entities|
    ensures k < |entities| ==> entities[k].entityId == id
    ensures forall i :: 0 <= i < k ==> entities[i].entityId != id
  {
    FindFirst(entities, (e: Entity) => e.entityId == id)
  }

  /** `is_end_station_found_by_entity_id`: the first station with this id, or the end of the vector. */
  function FirstStation(stations: seq<Station>, id: nat): (k: nat)
    ensures k <= |stations|
    ensures k < |stations| ==> stations[k].entityId == id
    ensures forall i :: 0 <= i < k ==> stations[i].entityId != id
  {
    FindFirst(stations, (station: Station) => station.entityId == id)
  }

  /** The search on receive: the last station advertised with this id, or the end of the vector. */
  function LastAdvertised(stations: seq<Station>, id: nat): (k: nat)
    ensures k <= |stations|
    ensures k < |stations| ==> stations[k].advertisedId == id
    ensures forall i :: (if k < |stations| then k else -1) < i < |stations| ==> stations[i].advertisedId != id
  {
    if stations == [] then 0
    else
      var n := |stations| - 1;
      if stations[n].advertisedId == id then n
      else
        var k := LastAdvertised(stations[..n], id);
        if k < n then k else |stations|
  }

  function FirstExpired(entities: seq<Entity>, now: nat): (k: nat)
    ensures k <= |entities|
    ensures k < |entities| ==> entities[k].IsExpired(now)
    ensures forall i :: 0 <= i < k ==> !entities[i].IsExpired(now)
  {
    FindFirst(entities, (e: Entity) => e.IsExpired(now))
  }

  // ------------------------------------------------------------------------------------------- the steps

  /** `state_avail`. */
  function Avail(c: Controller, id: nat, validMs: uint32, now: nat): Controller {
    var k := FindEntity(c.entities, id);
    if k < |c.entities|
    then c.(entities := c.entities[k := Entity(id, c.entities[k].inflightTimer.Started(validMs, now), now)],
            log := c.log + [Renewed(id, now, validMs)])
    else c.(entities := c.entities + [Entity(id, IDLE.Started(validMs, now), now)],
            log := c.log + [Arrived(id, now, validMs)])
  }

  /** A received advertisement for the station at position `k`. */
  function Readvertise(c: Controller, k: nat, ad: Advert, now: nat): Controller
    requires k < |c.stations|
  {
    var station := c.stations[k];
    var outs := if station.MustReenumerate(ad) then [Reenumerated(station.entityId)] else [];
    var refreshed := station.Refreshed(ad);
    var status := if refreshed.status == Disconnected then Connected else refreshed.status;
    Avail(c.(stations := c.stations[k := refreshed.(status := status)], log := c.log + outs),
          ad.entityId, ad.ValidMs(), now)
  }

  /** The ADP branch of `rx_packet_event`. */
  function Receive(c: Controller, ad: Advert, now: nat): Controller {
    var k := LastAdvertised(c.stations, ad.entityId);
    if ad.controllerIgnore || ad.notReady || ad.entityId == 0 then c
    else if k < |c.stations| then Readvertise(c, k, ad, now)
    else
      var c' := Avail(c, ad.entityId, ad.ValidMs(), now);
      c'.(stations := c'.stations +
            [Station(ad.entityId, Connected, ad.entityId, ad.availableIndex, ad.entityModelId)])
  }

  /** `tick` of the ADP state machine, and what `time_tick_event` does with its answer. */
  function Tick(c: Controller, now: nat): Controller {
    var c1 := c.(firstTick := false, log := c.log + if c.firstTick then [DiscoverSent] else []);
    var k := FirstExpired(c.entities, now);
    if k == |c.entities| then c1
    else
      var id := c.entities[k].entityId;
      var i := FirstStation(c.stations, id);
      c1.(entities := RemoveAt(c.entities, k),
          stations := if i < |c.stations| then c.stations[i := c.stations[i].(status := Disconnected)] else c.stations,
          log := c1.log + [Departed(id, now)])
  }

  datatype Event = Advertisement(ad: Advert, now: nat) | TimerTick(now: nat)

  function Step(c: Controller, event: Event): Controller {
    match event
    case Advertisement(ad, now) => Receive(c, ad, now)
    case TimerTick(now) => Tick(c, now)
  }

  function Run(events: seq<Event>): Controller {
    if events == [] then INITIAL else Step(Run(events[..|events| - 1]), events[|events| - 1])
  }

  ghost predicate Monotone(events: seq<Event>) {
    forall i, j :: 0 <= i <= j < |events| ==> events[i].now <= events[j].now
  }

  function EndOf(events: seq<Event>): nat {
    if events == [] then 0 else events[|events| - 1].now
  }

  // ----------------------------------------------------------------------------------------- the machines

  class AdpDiscoveryStateMachine {
    var firstTick: bool
    var entitiesVec: seq<Entity>
    ghost var log: seq<Output>

    constructor ()
      ensures firstTick && entitiesVec == [] && log == []
    {
      firstTick, entitiesVec, log := true, [], [];
    }

    method HaveEntity(entityId: nat) returns (found: bool, entityIndex: nat)
      ensures entityIndex == FindEntity(entitiesVec, entityId) && found == (entityIndex < |entitiesVec|)
    {
      for i := 0 to |entitiesVec|
        invariant forall k :: 0 <= k < i ==> entitiesVec[k].entityId != entityId
      {
        if entitiesVec[i].entityId == entityId {
          return true, i;
        }
      }
      return false, |entitiesVec|;
    }

    method StateAvail(entityId: nat, validTime: uint8, now: nat)
      modifies this
      ensures firstTick == old(firstTick)
      ensures forall stations ::
        var was := Controller(old(firstTick), old(entitiesVec), stations, old(log));
        Controller(firstTick, entitiesVec, stations, log) == Avail(was, entityId, validTime * 2 * 1000, now)
    {
      var validMs: uint32 := validTime * 2 * 1000;
      var found, entityIndex := HaveEntity(entityId);
      if found {
        var entity := entitiesVec[entityIndex];
        entitiesVec := entitiesVec[entityIndex :=
          entity.(inflightTimer := entity.inflightTimer.Started(validMs, now), at := now)];
        log := log + [Renewed(entityId, now, validMs)];
      } else {
        entitiesVec := entitiesVec + [Entity(entityId, IDLE.Started(validMs, now), now)];
        log := log + [Arrived(entityId, now, validMs)];
      }
    }

    /** Removes at most one entity, the first whose timer reports its timeout, and says which. */
    method TimerTickAt(now: nat) returns (departed: Option<nat>)
      modifies this
      ensures !firstTick
      ensures var k := FirstExpired(old(entitiesVec), now);
              var before := old(log) + if old(firstTick) then [DiscoverSent] else [];
              if k < |old(entitiesVec)|
              then var id := old(entitiesVec)[k].entityId;
                   departed == Some(id) && entitiesVec == RemoveAt(old(entitiesVec), k) &&
                   log == before + [Departed(id, now)]
              else departed == None && entitiesVec == old(entitiesVec) && log == before
    {
      if firstTick {
        log := log + [DiscoverSent];
        firstTick := false;
      }
      var i := 0;
      while i < |entitiesVec|
        invariant 0 <= i <= |entitiesVec|
        invariant entitiesVec == old(entitiesVec) && !firstTick
        invariant log == old(log) + if old(firstTick) then [DiscoverSent] else []
        invariant forall k :: 0 <= k < i ==> !entitiesVec[k].IsExpired(now)
      {
        var polled := entitiesVec[i].(inflightTimer := entitiesVec[i].inflightTimer.Polled(now));
        entitiesVec := entitiesVec[i := polled];
        if polled.inflightTimer.elapsed {
          assert i == FirstExpired(old(entitiesVec), now);
          entitiesVec := RemoveAt(entitiesVec, i);
          log := log + [Departed(polled.entityId, now)];
          return Some(polled.entityId);
        }
        i := i + 1;
      }
      departed := None;
    }
  }

  class ControllerImp {
    const adp: AdpDiscoveryStateMachine
    var endStationVec: seq<Station>

    ghost function State(): Controller
      reads this, adp
    {
      Controller(adp.firstTick, adp.entitiesVec, endStationVec, adp.log)
    }

    constructor ()
      ensures State() == INITIAL && fresh(adp)
    {
      adp := new AdpDiscoveryStateMachine();
      endStationVec := [];
    }

    method IsEndStationFoundByEntityId(entityId: nat) returns (found: bool, endStationIndex: nat)
      ensures endStationIndex == FirstStation(endStationVec, entityId) && found == (endStationIndex < |endStationVec|)
    {
      for i := 0 to |endStationVec|
        invariant forall k :: 0 <= k < i ==> endStationVec[k].entityId != entityId
      {
        if endStationVec[i].entityId == entityId {
          return true, i;
        }
      }
      return false, |endStationVec|;
    }

    method RxAdvertisement(ad: Advert, now: nat)
      modifies this, adp
      ensures State() == Receive(old(State()), ad, now)
    {
      hide Avail, LastAdvertised, FindEntity, Station.MustReenumerate;
      if ad.controllerIgnore || ad.notReady {
        return;
      }
      // The loop does not stop at the first match.
      var k: nat := |endStationVec|;
      for i := 0 to |endStationVec|
        invariant k < i || k == |endStationVec|
        invariant k < i ==> endStationVec[k].advertisedId == ad.entityId
        invariant forall j :: (if k < i then k else -1) < j < i ==> endStationVec[j].advertisedId != ad.entityId
      {
        if endStationVec[i].advertisedId == ad.entityId {
          k := i;
        }
      }
      assert k == LastAdvertised(endStationVec, ad.entityId);
      if ad.entityId != 0 {
        if k == |endStationVec| {
          adp.StateAvail(ad.entityId, ad.validTime, now);
          endStationVec := endStationVec +
            [Station(ad.entityId, Unknown, ad.entityId, ad.availableIndex, ad.entityModelId)];
          var last := |endStationVec| - 1;
          endStationVec := endStationVec[last := endStationVec[last].(status := Connected)];
        } else {
          var station := endStationVec[k];
          if station.MustReenumerate(ad) {
            adp.log := adp.log + [Reenumerated(station.entityId)];
          }
          endStationVec := endStationVec[k := station.Refreshed(ad)];
          if endStationVec[k].status == Disconnected {
            endStationVec := endStationVec[k := endStationVec[k].(status := Connected)];
          }
          ghost var was := State();
          assert old(adp.log) + [] == old(adp.log);
          assert was.stations == old(endStationVec)[k := station.Refreshed(ad).(status := was.stations[k].status)];
          adp.StateAvail(ad.entityId, ad.validTime, now);
          assert State() == Avail(was, ad.entityId, ad.ValidMs(), now);
        }
      }
    }

    /** The discovery part of `time_tick_event`. */
    method TimeTickEvent(now: nat)
      modifies this, adp
      ensures State() == Tick(old(State()), now)
    {
      var departed := adp.TimerTickAt(now);
      if departed.Some? {
        var found, i := IsEndStationFoundByEntityId(departed.value);
        if found {
          endStationVec := endStationVec[i := endStationVec[i].(status := Disconnected)];
        }
      }
    }
  }
}
