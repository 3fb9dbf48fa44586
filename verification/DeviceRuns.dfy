/**
 * Enumeration against a device: the first response is the ENTITY descriptor, and from then on the device replies to
 * reads that were sent to it: in any order, before or after they timed out, once, more than once, or not at all.
 */
module DeviceRuns {
  import opened Basics
  import opened DescriptorStore
  import opened EntityModel
  import opened Enumeration
  import opened EnumerationRuns

  datatype DeviceEvent = Reply(key: Key, ok: bool, now: nat) | TickAt(now: nat)

  function ReplyFor(dev: Device, key: Key, ok: bool): Response {
    Response(true, ok, key, At(dev, key), true)
  }

  /** The station once the read that its constructor sends has been answered. */
  function Begin(dev: Device, now: nat): Station {
    Process(FRESH, ReplyFor(dev, ENTITY, true), now)
  }

  /** What is looked up by position after storing the descriptor is the one that was meant. */
  ghost predicate Aligned(s: Station, key: Key, contents: Contents) {
    IsLookedUp(key.descType) && StoresDescriptor(s, Response(true, true, key, contents, true)) ==>
      var vec := Vec(Keep(s, Response(true, true, key, contents, true)).store, key.descType);
      LookupPosition(key) < |vec| && vec[LookupPosition(key)].index == LookupPosition(key)
  }

  /** Every read that was ever sent: the one of ENTITY by the constructor, and those from the pending list. */
  function Asked(s: Station): seq<Key> {
    [ENTITY] + s.sent
  }

  /** A reply is to a read that was sent at some time, and what the source does with it is defined. */
  ghost predicate Possible(dev: Device, s: Station, event: DeviceEvent) {
    event.Reply? ==> event.key in Asked(s) && LookupsDefined(s, ReplyFor(dev, event.key, event.ok))
  }

  ghost function After(dev: Device, s: Station, event: DeviceEvent): Station
    requires Possible(dev, s, event)
  {
    match event
    case Reply(key, ok, now) => Process(s, ReplyFor(dev, key, ok), now)
    case TickAt(now) => Tick(s, now)
  }

  /** A run of possible events. */
  ghost predicate IsDeviceRun(dev: Device, states: seq<Station>, events: seq<DeviceEvent>) {
    && |states| == |events| + 1
    && (exists now :: states[0] == Begin(dev, now))
    && forall i :: 0 <= i < |events| ==> Happens(dev, states, events, i)
  }

  /** Event `i` of a run. */
  ghost predicate Happens(dev: Device, states: seq<Station>, events: seq<DeviceEvent>, i: nat) {
    && i < |events| == |states| - 1
    && Possible(dev, states[i], events[i])
    && states[i + 1] == After(dev, states[i], events[i])
  }

  /** The same events without the device. */
  ghost function AsEvents(dev: Device, events: seq<DeviceEvent>): (all: seq<Event>)
    ensures |all| == |events|
    ensures forall i :: 0 <= i < |events| ==>
              all[i] == match events[i]
                        case Reply(key, ok, now) => Arrival(ReplyFor(dev, key, ok), now)
                        case TickAt(now) => TimerTick(now)
  {
    if events == [] then []
    else
      AsEvents(dev, events[..|events| - 1]) +
      match events[|events| - 1]
      case Reply(key, ok, now) => [Arrival(ReplyFor(dev, key, ok), now)]
      case TickAt(now) => [TimerTick(now)]
  }

  /** Whatever holds of every run of responses and ticks holds of the runs against a device. */
  lemma DeviceRunsAreRuns(dev: Device, states: seq<Station>, events: seq<DeviceEvent>, now: nat)
    requires IsDeviceRun(dev, states, events) && states[0] == Begin(dev, now)
    ensures IsRun([FRESH] + states, [Arrival(ReplyFor(dev, ENTITY, true), now)] + AsEvents(dev, events))
  {
    hide Process, Tick;
    var all, more := [FRESH] + states, [Arrival(ReplyFor(dev, ENTITY, true), now)] + AsEvents(dev, events);
    forall i | 0 <= i < |more| ensures Enabled(all[i], more[i]) && all[i + 1] == Next(all[i], more[i]) {
      if i > 0 {
        assert Happens(dev, states, events, i - 1) && all[i] == states[i - 1] && all[i + 1] == states[i];
      }
    }
  }

  // ---------------------------------------------------------------------------------- what is stored is right

  /** What is stored are descriptors of the device, and nothing but CONFIGURATION 0 is read before that is stored. */
  ghost predicate Faithful(dev: Device, s: Station) {
    && s.entities == [At(dev, ENTITY)]
    && s.currentConfig == At(dev, ENTITY).currentConfiguration == 0
    && (s.configs == [] || s.configs == [Stored(0, At(dev, CONFIGURATION))])
    && RightContents(dev, s.store)
    && s.queued == s.sent + Keys(s.pending)
    && (s.configs == [] ==> s.store == map[] && forall k :: k in s.queued ==> k == CONFIGURATION)
  }

  /** A lookup that finds what it means is defined. */
  lemma AlignedIsPossible(dev: Device, s: Station, key: Key, ok: bool, now: nat)
    requires Faithful(dev, s) && key in Asked(s) && (ok ==> Aligned(s, key, At(dev, key)))
    ensures Possible(dev, s, Reply(key, ok, now))
  {
  }

  /** The reads that a reply leads to. */
  function NewReads(dev: Device, s: Station, key: Key, ok: bool): seq<Key>
    requires LookupsDefined(s, ReplyFor(dev, key, ok))
  {
    var r := ReplyFor(dev, key, ok);
    if StoresDescriptor(s, r) then NextReads(Keep(s, r), key) else []
  }

  /** Whether a descriptor of the device has been stored. */
  ghost predicate IsStored(s: Station, key: Key) {
    match key.descType
    case Entity => key.index == 0 && |s.entities| > 0
    case Configuration => HasIndex(s.configs, key.index)
    case t => HasIndex(Vec(s.store, t), key.index)
  }

  /** Types that are stored in the vectors of the configuration. */
  predicate IsOrdinary(t: DescType) {
    t != Entity && t != Configuration && !t.Unsupported?
  }

  ghost predicate RightContents(dev: Device, store: Store) {
    forall t, i :: 0 <= i < |Vec(store, t)| ==> Vec(store, t)[i].contents == At(dev, Key(t, Vec(store, t)[i].index))
  }

  lemma PutMembers(v: seq<Stored<Contents>>, d: Stored<Contents>)
    ensures forall x :: x in Put(v, d) ==> x == d || x in v
    ensures d in Put(v, d)
    ensures forall x :: x in v && x.index != d.index ==> x in Put(v, d)
  {
    var p := Position(v, d.index);
    if p < |v| {
      assert v[p := d][p] == d;
      assert forall i :: 0 <= i < |v| && i != p ==> v[p := d][i] == v[i];
    } else {
      var k := Rank(v, d.index);
      assert v == v[..k] + v[k..];
    }
  }

  ghost predicate HasIndex(v: seq<Stored<Contents>>, index: uint16) {
    exists i :: 0 <= i < |v| && v[i].index == index
  }

  /** Storing a descriptor adds its index to its vector and changes no other vector. */
  lemma StoreInAdds(dev: Device, store: Store, key: Key)
    requires RightContents(dev, store) && IsOrdinary(key.descType)
    ensures var store' := StoreIn(store, key.descType, Stored(key.index, At(dev, key)));
            && RightContents(dev, store')
            && (forall t :: t != key.descType ==> Vec(store', t) == Vec(store, t))
            && (forall x: uint16 ::
                  HasIndex(Vec(store', key.descType), x) <==> x == key.index || HasIndex(Vec(store, key.descType), x))
  {
    var t, d := key.descType, Stored(key.index, At(dev, key));
    var v, v' := Vec(store, t), Vec(StoreIn(store, t, d), t);
    PutMembers(v, d);
    hide Put;
    assert forall x :: x in v' ==> x == d || x in v;
    assert d in v' && forall x :: x in v && x.index != d.index ==> x in v';
    var store' := StoreIn(store, t, d);
    forall u, i | 0 <= i < |Vec(store', u)|
      ensures Vec(store', u)[i].contents == At(dev, Key(u, Vec(store', u)[i].index))
    {
      if u == t {
        assert v'[i] in v';
        if v'[i] in v {
          var j :| 0 <= j < |v| && v[j] == v'[i];
          assert Vec(store, t)[j].contents == At(dev, Key(t, Vec(store, t)[j].index));
        }
      } else {
        assert Vec(store', u) == Vec(store, u);
      }
    }
    forall x: uint16 ensures HasIndex(v', x) <==> x == key.index || HasIndex(v, x) {
      if HasIndex(v', x) {
        var i :| 0 <= i < |v'| && v'[i].index == x;
        assert v'[i] in v';
      }
      if HasIndex(v, x) && x != key.index {
        var i :| 0 <= i < |v| && v[i].index == x;
        assert v[i] in v';
      }
    }
  }

  // ------------------------------------------------------------------------------------------- one event

  /** What is left on the wire after a reply, and what the reply takes off it. */
  function Rest(reqs: seq<Request>, key: Key): seq<Request> {
    match DescIndexFromFrame(key)
    case None => reqs
    case Some(index) => Without(reqs, Key(key.descType, index))
  }

  function Done(reqs: seq<Request>, key: Key): seq<Key> {
    match DescIndexFromFrame(key)
    case None => []
    case Some(index) => Matching(reqs, Key(key.descType, index))
  }

  lemma AskedAtFirst(dev: Device, s: Station, key: Key)
    requires Faithful(dev, s) && key in Asked(s) && s.configs == []
    ensures key == ENTITY || key == CONFIGURATION
  {
    assert key in s.sent ==> key in s.queued;
  }

  /** Storing changes nothing but what is stored, and what is stored is right. */
  lemma KeepEffect(dev: Device, s: Station, key: Key)
    requires Faithful(dev, s) && StoresDescriptor(s, ReplyFor(dev, key, true))
    requires s.configs == [] ==> key == ENTITY || key == CONFIGURATION
    ensures var s' := Keep(s, ReplyFor(dev, key, true));
            && s' == s.(configs := s'.configs, store := s'.store)
            && RightContents(dev, s'.store)
            && s'.configs == (if key == CONFIGURATION then [Stored(0, At(dev, CONFIGURATION))] else s.configs)
            && (s'.store == if IsOrdinary(key.descType)
                            then StoreIn(s.store, key.descType, Stored(key.index, At(dev, key))) else s.store)
  {
    hide StoreIn, RightContents;
    if IsOrdinary(key.descType) {
      StoreInAdds(dev, s.store, key);
    } else if key.descType == Configuration {
      assert s.configs + [Stored(0, At(dev, CONFIGURATION))] == [Stored(0, At(dev, CONFIGURATION))];
    }
  }

  /** The reads deduced from what was stored are the children of the descriptor, if the lookup finds it. */
  lemma DeducesChildren(dev: Device, s: Station, key: Key, ok: bool)
    requires Faithful(dev, s) && key in Asked(s) && LookupsDefined(s, ReplyFor(dev, key, ok))
    requires ok ==> Aligned(s, key, At(dev, key))
    ensures NewReads(dev, s, key, ok) == if StoresDescriptor(s, ReplyFor(dev, key, ok)) then Children(dev, key) else []
  {
    if StoresDescriptor(s, ReplyFor(dev, key, ok)) {
      if s.configs == [] {
        AskedAtFirst(dev, s, key);
      }
      KeepEffect(dev, s, key);
      hide StoreIn, BlockKeys, CountKeys;
      var kept := Keep(s, ReplyFor(dev, key, true));
      if IsLookedUp(key.descType) {
        var vec := Vec(kept.store, key.descType);
        assert vec[LookupPosition(key)].contents == At(dev, Key(key.descType, vec[LookupPosition(key)].index));
      }
    }
  }

  /** The reads that descriptor `x` of a type leads to, once it is found. */
  function FoundReads(dev: Device, t: DescType, x: uint16): seq<Key> {
    Reads(t, At(dev, Key(t, x)), At(dev, Key(t, x)).strings.count)
  }

  /** Whatever a lookup finds, the reads deduced are those of some descriptor of that type. */
  lemma DeducesSomeReads(dev: Device, s: Station, key: Key, ok: bool)
    requires Faithful(dev, s) && key in Asked(s) && LookupsDefined(s, ReplyFor(dev, key, ok))
    ensures NewReads(dev, s, key, ok) == [] ||
            exists x: uint16 :: NewReads(dev, s, key, ok) == FoundReads(dev, key.descType, x)
  {
    if StoresDescriptor(s, ReplyFor(dev, key, ok)) {
      if s.configs == [] {
        AskedAtFirst(dev, s, key);
      }
      KeepEffect(dev, s, key);
      hide StoreIn, BlockKeys, CountKeys;
      var kept := Keep(s, ReplyFor(dev, key, true));
      if IsLookedUp(key.descType) {
        var found := Vec(kept.store, key.descType)[LookupPosition(key)];
        assert found.contents == At(dev, Key(key.descType, found.index));
        assert NewReads(dev, s, key, ok) == FoundReads(dev, key.descType, found.index);
      } else {
        assert NewReads(dev, s, key, ok) == FoundReads(dev, key.descType, 0) || NewReads(dev, s, key, ok) == [];
      }
    }
  }

  lemma SubmitTouchesOnlyLists(s: Station, now: nat)
    ensures var s' := SubmitPending(s, now);
            s' == s.(inflight := s'.inflight, pending := s'.pending, sent := s'.sent)
  {
  }

  lemma SubmitKeepsQueue(s: Station, now: nat)
    requires s.queued == s.sent + Keys(s.pending)
    ensures var s' := SubmitPending(s, now);
            s.sent <= s'.sent && s'.queued == s'.sent + Keys(s'.pending)
  {
    SubmitMovesTheMaximalPrefix(s, now);
    SubmitTouchesOnlyLists(s, now);
    hide SubmitPending, OneType, Keys;
    var s' := SubmitPending(s, now);
    if s.inflight == [] {
      KeysSplit(s.pending, |s'.inflight|);
      AppendInSteps(s.sent, Keys(s'.inflight), Keys(s'.pending));
    }
  }

  /** The part of `proc_read_desc_resp` that works on the lists. */
  lemma ListEffect(s: Station, more: seq<Key>, r: Response, now: nat)
    requires s.queued == s.sent + Keys(s.pending)
    ensures var s', done := SubmitPending(UpdateInflight(Queue(s, more), r), now), Done(s.inflight, r.key);
            && Outstanding(s') == Keys(Rest(s.inflight, r.key)) + Keys(s.pending) + more
            && s' == s.(inflight := s'.inflight, pending := s'.pending, sent := s'.sent, queued := s.queued + more,
                        answered := s.answered + (if r.success then done else []),
                        refused := s.refused + (if r.success then [] else done))
            && s.sent <= s'.sent && s'.queued == s'.sent + Keys(s'.pending)
            && QuietWhenIdle(s')
  {
    var queued := Queue(s, more);
    assert Keys(queued.pending) == Keys(s.pending) + more by {
      KeysAppend(s.pending, FreshRequests(more));
      assert Keys(FreshRequests(more)) == more;
    }
    assert s.answered + [] == s.answered && s.refused + [] == s.refused;
    var updated := UpdateInflight(queued, r);
    assert updated.inflight == Rest(s.inflight, r.key);
    hide Queue, Keys, Without, Matching;
    AppendInSteps(s.sent, Keys(s.pending), more);
    SubmitKeepsOutstanding(updated, now);
    SubmitTouchesOnlyLists(updated, now);
    SubmitKeepsQueue(updated, now);
    hide SubmitPending;
    AppendInSteps(Keys(Rest(s.inflight, r.key)), Keys(s.pending), more);
  }

  /** The station with what a reply brings stored in it. */
  function Kept(dev: Device, s: Station, key: Key, ok: bool): Station {
    var r := ReplyFor(dev, key, ok);
    if StoresDescriptor(s, r) then Keep(s, r) else s
  }

  lemma ProcessInTwoSteps(dev: Device, s: Station, key: Key, ok: bool, now: nat)
    requires LookupsDefined(s, ReplyFor(dev, key, ok))
    ensures var r := ReplyFor(dev, key, ok);
            var done := SubmitPending(UpdateInflight(Queue(Kept(dev, s, key, ok), NewReads(dev, s, key, ok)), r), now);
            var s' := Process(s, r, now);
            s' == done.(completed := s'.completed)
  {
    hide Keep, SubmitPending, UpdateInflight, NextReads;
    if !StoresDescriptor(s, ReplyFor(dev, key, ok)) {
      assert s.pending + FreshRequests([]) == s.pending && s.queued + [] == s.queued;
    }
  }

  lemma StaysConfigured(dev: Device, s: Station, key: Key, ok: bool)
    requires s.configs != [] && LookupsDefined(s, ReplyFor(dev, key, ok))
    ensures Kept(dev, s, key, ok).configs != []
    ensures key.descType == Configuration ==> NewReads(dev, s, key, ok) == []
  {
  }

  /**
   * What a reply does: the reads it answers leave the wire if they are still there, those it leads to go to the
   * end, and its descriptor is stored.
   */
  lemma ReplyEffect(dev: Device, s: Station, key: Key, ok: bool, now: nat)
    requires Faithful(dev, s) && Possible(dev, s, Reply(key, ok, now))
    ensures var s', done := Process(s, ReplyFor(dev, key, ok), now), Done(s.inflight, key);
            var kept, more := Kept(dev, s, key, ok), NewReads(dev, s, key, ok);
            && Outstanding(s') == Keys(Rest(s.inflight, key)) + Keys(s.pending) + more
            && s'.queued == s.queued + more && s.sent <= s'.sent && s'.queued == s'.sent + Keys(s'.pending)
            && s'.answered == s.answered + (if ok then done else [])
            && s'.refused == s.refused + (if ok then [] else done)
            && s'.timedOut == s.timedOut
            && QuietWhenIdle(s')
            && s'.entities == s.entities && s'.currentConfig == s.currentConfig
            && s'.configs == kept.configs && s'.store == kept.store
  {
    if s.configs == [] {
      AskedAtFirst(dev, s, key);
    }
    if StoresDescriptor(s, ReplyFor(dev, key, ok)) {
      KeepEffect(dev, s, key);
    }
    ProcessInTwoSteps(dev, s, key, ok, now);
    ListEffect(Kept(dev, s, key, ok), NewReads(dev, s, key, ok), ReplyFor(dev, key, ok), now);
    hide Keep, SubmitPending, UpdateInflight, NextReads, Children, LookupsDefined, Faithful, Aligned, Process, Queue,
      Rest, Done, NewReads, Asked;
  }

  lemma TickEffect(s: Station, now: nat)
    requires s.queued == s.sent + Keys(s.pending)
    ensures var s' := Tick(s, now);
            && Outstanding(s') == Keys(Unexpired(s.inflight, now)) + Keys(s.pending)
            && s' == s.(inflight := s'.inflight, pending := s'.pending, sent := s'.sent,
                        timedOut := s.timedOut + ExpiredKeys(s.inflight, now))
            && s.sent <= s'.sent && s'.queued == s'.sent + Keys(s'.pending)
            && QuietWhenIdle(s')
  {
    SubmitKeepsOutstanding(UpdateTimeouts(s, now), now);
    SubmitTouchesOnlyLists(UpdateTimeouts(s, now), now);
    SubmitKeepsQueue(UpdateTimeouts(s, now), now);
  }

  // ------------------------------------------------------------------------------- every run stays faithful

  lemma BeginProcesses(dev: Device, now: nat)
    ensures var s, r := Begin(dev, now), ReplyFor(dev, ENTITY, true);
            s == SubmitPending(UpdateInflight(Queue(Keep(FRESH, r), [CONFIGURATION]), r), now) && s.completed == 0
  {
    var r := ReplyFor(dev, ENTITY, true);
    CompletedUntouched(FRESH, Arrival(r, now));
    EntityIsKept(dev);
    hide Process, SubmitPending, UpdateInflight, Queue, NextReads, Children, Keep, StoresDescriptor, Kept, NewReads;
    ProcessInTwoSteps(dev, FRESH, ENTITY, true, now);
    CompletedStays(Queue(Keep(FRESH, r), [CONFIGURATION]), r, now);
  }

  /** The first response: ENTITY is stored, and CONFIGURATION 0 is on the wire. */
  lemma BeginLists(dev: Device, now: nat)
    ensures var s := Begin(dev, now);
            && s.entities == [At(dev, ENTITY)] && s.configs == [] && s.store == map[]
            && s.currentConfig == At(dev, ENTITY).currentConfiguration
            && Outstanding(s) == [CONFIGURATION] && QuietWhenIdle(s)
            && s.queued == s.sent == [CONFIGURATION] && Keys(s.pending) == []
            && s.answered == s.refused == s.timedOut == [] && s.completed == 0
  {
    var r := ReplyFor(dev, ENTITY, true);
    BeginProcesses(dev, now);
    EntityIsKept(dev);
    hide Begin, SubmitPending, UpdateInflight, Queue, Rest, Done, NextReads, Children, Keep, Kept, NewReads;
    ListEffect(Keep(FRESH, r), [CONFIGURATION], r, now);
    OnlyReadIsOnTheWire(Begin(dev, now), CONFIGURATION);
  }

  lemma EntityIsKept(dev: Device)
    ensures var r := ReplyFor(dev, ENTITY, true);
            var kept := Keep(FRESH, r);
            && kept == FRESH.(entities := [At(dev, ENTITY)], currentConfig := At(dev, ENTITY).currentConfiguration)
            && Kept(dev, FRESH, ENTITY, true) == kept && Rest([], ENTITY) == [] && Done([], ENTITY) == []
            && NextReads(kept, ENTITY) == NewReads(dev, FRESH, ENTITY, true) == Children(dev, ENTITY) == [CONFIGURATION]
  {
    assert BlockKeys(Configuration, Block(0, 1)) == [CONFIGURATION];
  }

  lemma OnlyReadIsOnTheWire(s: Station, key: Key)
    requires Outstanding(s) == [key] && QuietWhenIdle(s)
    ensures s.pending == [] && Keys(s.pending) == [] && Without(s.inflight, key) == []
  {
    assert |s.inflight| + |s.pending| == |Outstanding(s)| == 1;
    assert s.inflight[0].key == Outstanding(s)[0];
    assert s.inflight[..0] == [];
  }

  lemma BeginEffect(dev: Device, now: nat)
    requires At(dev, ENTITY).currentConfiguration == 0
    ensures var s := Begin(dev, now);
            && Faithful(dev, s) && QuietWhenIdle(s) && Conserved(s)
            && Outstanding(s) == s.queued == s.sent == [CONFIGURATION] && s.configs == []
            && s.answered == s.refused == s.timedOut == []
  {
    BeginLists(dev, now);
    BeginIsConserved(dev, now);
    hide Begin, Outstanding, Conserved;
  }

  lemma BeginIsConserved(dev: Device, now: nat)
    ensures Conserved(Begin(dev, now))
  {
    hide Process;
    NextKeeps(FRESH, Arrival(ReplyFor(dev, ENTITY, true), now));
  }

  lemma ReplyKeepsFaithful(dev: Device, s: Station, key: Key, ok: bool, now: nat)
    requires Faithful(dev, s) && Possible(dev, s, Reply(key, ok, now))
    ensures Faithful(dev, Process(s, ReplyFor(dev, key, ok), now))
  {
    var s', more := Process(s, ReplyFor(dev, key, ok), now), NewReads(dev, s, key, ok);
    ReplyEffect(dev, s, key, ok, now);
    if s.configs == [] {
      AskedAtFirst(dev, s, key);
      assert BlockKeys(Configuration, Block(0, 1)) == [CONFIGURATION];
      assert s'.configs == [] ==> more == [] || more == [CONFIGURATION];
    }
    if StoresDescriptor(s, ReplyFor(dev, key, ok)) {
      KeepEffect(dev, s, key);
    }
    hide Process, Keep, LookupsDefined, Possible, RightContents, NewReads;
  }

  lemma AfterKeepsFaithful(dev: Device, s: Station, event: DeviceEvent)
    requires Faithful(dev, s) && Possible(dev, s, event) && Conserved(s) && QuietWhenIdle(s)
    ensures var s' := After(dev, s, event);
            Faithful(dev, s') && Conserved(s') && QuietWhenIdle(s')
  {
    hide Process, Conserved, LookupsDefined, Tick, QuietWhenIdle;
    match event
    case Reply(key, ok, now) =>
      ReplyKeepsFaithful(dev, s, key, ok, now);
      NextKeeps(s, Arrival(ReplyFor(dev, key, ok), now));
    case TickAt(now) =>
      TickEffect(s, now);
      NextKeeps(s, TimerTick(now));
  }

  /**
   * In every run what is stored is what the device holds, requests are conserved, and an idle wire means that
   * nothing waits.
   */
  lemma {:induction false} EveryRunIsFaithful(dev: Device, states: seq<Station>, events: seq<DeviceEvent>, n: nat)
    requires At(dev, ENTITY).currentConfiguration == 0
    requires IsDeviceRun(dev, states, events) && n < |states|
    ensures Faithful(dev, states[n]) && Conserved(states[n]) && QuietWhenIdle(states[n])
  {
    hide Begin, After, LookupsDefined, Conserved, QuietWhenIdle;
    if n == 0 {
      var now :| states[0] == Begin(dev, now);
      BeginEffect(dev, now);
    } else {
      EveryRunIsFaithful(dev, states, events, n - 1);
      assert Happens(dev, states, events, n - 1);
      AfterKeepsFaithful(dev, states[n - 1], events[n - 1]);
    }
  }

  /** What happens at each event of a run. */
  lemma RunStep(dev: Device, states: seq<Station>, events: seq<DeviceEvent>, n: nat)
    requires At(dev, ENTITY).currentConfiguration == 0
    requires IsDeviceRun(dev, states, events) && n < |events|
    ensures Faithful(dev, states[n]) && Possible(dev, states[n], events[n])
    ensures states[n + 1] == After(dev, states[n], events[n])
  {
    EveryRunIsFaithful(dev, states, events, n);
    assert Happens(dev, states, events, n);
  }
}
