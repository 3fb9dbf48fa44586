/**
 * Background enumeration of an end station (controller/lib/src/end_station_imp.cpp): two lists of read requests,
 * one waiting and one on the wire, and the descriptors stored so far.
 */
module Enumeration {
  import opened Basics
  import opened Timers
  import opened DescriptorStore
  import opened EntityModel

  const READ_TIMEOUT_MS: uint32 := 750

  datatype Request = Request(key: Key, timer: TimerValue)

  /** A READ_DESCRIPTOR response.  `wellFormed` is false when the descriptor's constructor would throw. */
  datatype Response = Response(parsed: bool, success: bool, key: Key, contents: Contents, wellFormed: bool)

  type Store = map<DescType, seq<Stored<Contents>>>

  /**
   * `entities` holds at most one descriptor, and `configs` are its configurations; `store` holds the vectors of
   * the configuration, by type.  The fields after `inflight` are history: what was queued, sent, answered
   * successfully, answered otherwise and given up, and how often READ_COMPLETED was posted.
   */
  datatype Station = Station(
    entities: seq<Contents>,
    configs: seq<Stored<Contents>>,
    currentConfig: uint16,
    store: Store,
    pending: seq<Request>,
    inflight: seq<Request>,
    queued: seq<Key>,
    sent: seq<Key>,
    answered: seq<Key>,
    refused: seq<Key>,
    timedOut: seq<Key>,
    completed: nat)
  {
    predicate HasConfig() {
      |entities| >= 1 && |configs| >= 1
    }

    predicate HasCurrentConfig() {
      HasConfig() && currentConfig < |configs|
    }

    predicate Quiet() {
      inflight == [] && pending == []
    }
  }

  const FRESH: Station := Station([], [], 0, map[], [], [], [], [], [], [], [], 0)

  function Vec(store: Store, t: DescType): seq<Stored<Contents>> {
    if t in store then store[t] else []
  }

  function Keys(reqs: seq<Request>): (keys: seq<Key>)
    ensures |keys| == |reqs|
    ensures forall i :: 0 <= i < |keys| ==> keys[i] == reqs[i].key
  {
    seq(|reqs|, i requires 0 <= i < |reqs| => reqs[i].key)
  }

  function FreshRequests(keys: seq<Key>): (reqs: seq<Request>)
    ensures |reqs| == |keys|
    ensures forall i :: 0 <= i < |reqs| ==> reqs[i] == Request(keys[i], IDLE)
  {
    seq(|keys|, i requires 0 <= i < |keys| => Request(keys[i], IDLE))
  }

  /** `desc_index_from_frame`: the descriptor index in a frame, for the types that it knows. */
  function DescIndexFromFrame(key: Key): Option<uint16> {
    if key.descType.Unsupported? then None
    else if key.descType == Entity then Some(0)
    else Some(key.index)
  }

  // -------------------------------------------------------------------------------------- storing a descriptor

  predicate StoresDescriptor(s: Station, r: Response) {
    r.success &&
    match r.key.descType
    case Entity => true
    case Configuration => |s.entities| == 1 && |s.configs| == 0
    case _ => |s.entities| == 1 && |s.configs| >= 1
  }

  /** Stream ports are pushed at the end of their vector; descriptors of every other type replace or are sorted in. */
  function StoreIn(store: Store, t: DescType, d: Stored<Contents>): Store {
    store[t := if t == StreamPortInput || t == StreamPortOutput then Vec(store, t) + [d] else Put(Vec(store, t), d)]
  }

  function Keep(s: Station, r: Response): Station {
    match r.key.descType
    case Entity =>
      if |s.entities| == 0 then s.(entities := [r.contents], currentConfig := r.contents.currentConfiguration) else s
    case Configuration => s.(configs := s.configs + [Stored(r.key.index, r.contents)])
    case Unsupported(_) => s
    case t => if r.wellFormed then s.(store := StoreIn(s.store, t, Stored(r.key.index, r.contents))) else s
  }

  // -------------------------------------------------------------------------------------- deducing the next reads

  /** The position in its vector at which `background_read_deduce_next` looks a descriptor up. */
  function LookupPosition(key: Key): nat {
    if key.descType == Locale then 0 else key.index
  }

  predicate IsLookedUp(t: DescType) {
    t in {Locale, AudioUnit, StreamPortInput, StreamPortOutput}
  }

  /**
   * The source dereferences what it looks up, so its behaviour is defined only if the current configuration is the
   * one that is stored, and the position looked up is within the vector.
   */
  predicate LookupsDefined(s: Station, r: Response) {
    var t := r.key.descType;
    r.parsed && StoresDescriptor(s, r) && t != Entity && t != Configuration && !t.Unsupported? ==>
      s.currentConfig < |s.configs| &&
      (IsLookedUp(t) ==> LookupPosition(r.key) < |Vec(Keep(s, r).store, t)|)
  }

  /** The reads that follow from a descriptor that was just stored in `s`. */
  function NextReads(s: Station, key: Key): seq<Key>
    requires s.HasCurrentConfig() && IsLookedUp(key.descType) ==> LookupPosition(key) < |Vec(s.store, key.descType)|
  {
    if key.descType == Entity then Reads(Entity, NOTHING, 0)
    else if !s.HasCurrentConfig() then []
    else if key.descType == Configuration then Reads(Configuration, s.configs[s.currentConfig].contents, 0)
    else if IsLookedUp(key.descType) then
      var found := Vec(s.store, key.descType)[LookupPosition(key)].contents;
      Reads(key.descType, found, found.strings.count)
    else []
  }

  function Queue(s: Station, keys: seq<Key>): Station {
    s.(pending := s.pending + FreshRequests(keys), queued := s.queued + keys)
  }

  // ---------------------------------------------------------------------------------------- the inflight list

  function Without(reqs: seq<Request>, key: Key): seq<Request> {
    if reqs == [] then []
    else
      var last := reqs[|reqs| - 1];
      Without(reqs[..|reqs| - 1], key) + if last.key == key then [] else [last]
  }

  function Matching(reqs: seq<Request>, key: Key): seq<Key> {
    if reqs == [] then []
    else
      var last := reqs[|reqs| - 1];
      Matching(reqs[..|reqs| - 1], key) + if last.key == key then [last.key] else []
  }

  /** `background_read_update_inflight`: every request for the descriptor in the frame is done. */
  function UpdateInflight(s: Station, r: Response): Station {
    match DescIndexFromFrame(r.key)
    case None => s
    case Some(index) =>
      var key := Key(r.key.descType, index);
      var done := Matching(s.inflight, key);
      s.(inflight := Without(s.inflight, key),
         answered := s.answered + if r.success then done else [],
         refused := s.refused + if r.success then [] else done)
  }

  function Unexpired(reqs: seq<Request>, now: nat): seq<Request> {
    if reqs == [] then []
    else
      var last := reqs[|reqs| - 1];
      Unexpired(reqs[..|reqs| - 1], now) + if last.timer.Polled(now).elapsed then [] else [last]
  }

  function ExpiredKeys(reqs: seq<Request>, now: nat): seq<Key> {
    if reqs == [] then []
    else
      var last := reqs[|reqs| - 1];
      ExpiredKeys(reqs[..|reqs| - 1], now) + if last.timer.Polled(now).elapsed then [last.key] else []
  }

  /** `background_read_update_timeouts`. */
  function UpdateTimeouts(s: Station, now: nat): Station {
    s.(inflight := Unexpired(s.inflight, now), timedOut := s.timedOut + ExpiredKeys(s.inflight, now))
  }

  // ---------------------------------------------------------------------------------------- submitting a batch

  /** How many requests at the front of the list are of type `t`. */
  function TypeRun(reqs: seq<Request>, t: DescType): (n: nat)
    ensures n <= |reqs|
    ensures forall i :: 0 <= i < n ==> reqs[i].key.descType == t
    ensures n < |reqs| ==> reqs[n].key.descType != t
  {
    if reqs == [] || reqs[0].key.descType != t then 0 else 1 + TypeRun(reqs[1..], t)
  }

  function StartAll(reqs: seq<Request>, now: nat): (started: seq<Request>)
    ensures |started| == |reqs|
    ensures forall i :: 0 <= i < |reqs| ==> started[i] == reqs[i].(timer := reqs[i].timer.Started(READ_TIMEOUT_MS, now))
  {
    seq(|reqs|, i requires 0 <= i < |reqs| => reqs[i].(timer := reqs[i].timer.Started(READ_TIMEOUT_MS, now)))
  }

  /** `background_read_submit_pending`: with nothing on the wire, send the requests of one type at the front. */
  function SubmitPending(s: Station, now: nat): Station {
    if s.inflight != [] || s.pending == [] then s
    else
      var n := TypeRun(s.pending, s.pending[0].key.descType);
      s.(inflight := StartAll(s.pending[..n], now),
         pending := s.pending[n..],
         sent := s.sent + Keys(s.pending[..n]))
  }

  // --------------------------------------------------------------------------------------------------- events

  /** `proc_read_desc_resp`. */
  function Process(s: Station, r: Response, now: nat): Station
    requires LookupsDefined(s, r)
  {
    if !r.parsed then s
    else
      var kept := if StoresDescriptor(s, r) then Keep(s, r) else s;
      var queued := if StoresDescriptor(s, r) then Queue(kept, NextReads(kept, r.key)) else kept;
      var done := SubmitPending(UpdateInflight(queued, r), now);
      if done.HasConfig() && done.Quiet() then done.(completed := done.completed + 1) else done
  }

  /** The background reads in `time_tick_event`. */
  function Tick(s: Station, now: nat): Station {
    SubmitPending(UpdateTimeouts(s, now), now)
  }
}
