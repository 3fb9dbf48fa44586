/**
 * What enumeration finds: when the lists are empty, exactly the descriptors that can be reached from ENTITY 0 have
 * been stored, except for what lies behind a read that was refused or timed out and was not answered otherwise.
 */
module EnumerationClosure {
  import opened DescriptorStore
  import opened EntityModel
  import opened Enumeration
  import opened EnumerationRuns
  import opened DeviceRuns

  /**
   * The source stores one configuration, the first, and knows no index for an unsupported type; so the current
   * configuration has to be 0 and may list only types that are stored in it.
   */
  ghost predicate Supported(dev: Device) {
    && At(dev, ENTITY).currentConfiguration == 0
    && forall i :: 0 <= i < |At(dev, CONFIGURATION).counts| ==> IsOrdinary(At(dev, CONFIGURATION).counts[i].descType)
  }

  ghost predicate IsLost(s: Station, key: Key) {
    key in s.refused || key in s.timedOut
  }

  ghost predicate IsAccountedFor(s: Station, key: Key) {
    IsStored(s, key) || key in Outstanding(s) || IsLost(s, key)
  }

  ghost predicate IsRead(key: Key) {
    key == CONFIGURATION || IsOrdinary(key.descType)
  }

  /** Only reachable descriptors are ever queued or stored, and every child of a stored one is accounted for. */
  ghost predicate Closed(dev: Device, s: Station) {
    && (forall k :: k in s.queued ==> Reachable(dev, k) && IsRead(k))
    && (forall k :: IsStored(s, k) ==> Reachable(dev, k))
    && (forall k, c :: IsStored(s, k) && IsChild(dev, k, c) ==> IsAccountedFor(s, c))
  }

  // -------------------------------------------------------------------------------------- types of children

  lemma ChildrenAreRead(dev: Device, key: Key, child: Key)
    requires Supported(dev) && IsChild(dev, key, child) && (key == ENTITY || IsRead(key))
    ensures IsRead(child)
  {
  }

  // ------------------------------------------------------------------------------------------- one event

  /** An event whose lookup, if it has one, finds the descriptor that it means. */
  ghost predicate Straight(dev: Device, s: Station, event: DeviceEvent) {
    Possible(dev, s, event) && (event.Reply? && event.ok ==> Aligned(s, event.key, At(dev, event.key)))
  }

  lemma StraightReads(dev: Device, s: Station, key: Key, ok: bool, now: nat)
    requires Faithful(dev, s) && Straight(dev, s, Reply(key, ok, now))
    ensures NewReads(dev, s, key, ok) == if StoresDescriptor(s, ReplyFor(dev, key, ok)) then Children(dev, key) else []
  {
    DeducesChildren(dev, s, key, ok);
  }

  /** The keys that replies can have: ENTITY, and what was read. */
  ghost predicate IsAnswer(s: Station, key: Key) {
    (key == ENTITY || IsRead(key)) && (s.configs == [] ==> key == ENTITY || key == CONFIGURATION)
  }

  lemma AnswersAreRead(dev: Device, s: Station, key: Key)
    requires Faithful(dev, s) && Closed(dev, s) && key in Asked(s)
    ensures IsAnswer(s, key) && Reachable(dev, key)
  {
    EntityIsReachable(dev);
    hide Reachable;
    assert key in s.sent ==> key in s.queued;
  }

  /** A successful reply stores its descriptor and nothing else. */
  lemma StoredAfterReply(dev: Device, s: Station, s': Station, key: Key, ok: bool, k: Key)
    requires Faithful(dev, s) && IsAnswer(s, key)
    requires s'.entities == s.entities && s'.configs == Kept(dev, s, key, ok).configs &&
             s'.store == Kept(dev, s, key, ok).store
    ensures IsStored(s', k) <==> IsStored(s, k) || (ok && k == key)
  {
    if ok && IsOrdinary(key.descType) {
      StoreInAdds(dev, s.store, key);
      hide StoreIn;
    } else if ok && s.configs == [] && key == CONFIGURATION {
      assert s'.configs == [Stored(0, At(dev, CONFIGURATION))];
      assert s'.configs[0].index == 0;
    } else if ok && key == CONFIGURATION {
      assert s.configs[0].index == 0;
    }
  }

  lemma MatchingIsDone(s: Station, key: Key)
    requires key in Keys(s.inflight)
    ensures key in Matching(s.inflight, key)
  {
    WithoutMembers(s.inflight, key);
    WithoutSplits(s.inflight, key);
    assert Matching(s.inflight, key)[0] in Matching(s.inflight, key);
  }

  /** A read on the list stays on it, or is done by the reply. */
  lemma RemainsOrIsDone(s: Station, key: Key, k: Key)
    requires k in Outstanding(s) && IsAnswer(s, key)
    ensures k in Keys(Rest(s.inflight, key)) + Keys(s.pending) || (k == key && k in Done(s.inflight, key))
  {
    assert Rest(s.inflight, key) == Without(s.inflight, key);
    WithoutMembers(s.inflight, key);
    if k in Keys(s.inflight) {
      if k == key {
        MatchingIsDone(s, key);
      } else {
        var i :| 0 <= i < |s.inflight| && s.inflight[i].key == k;
        assert s.inflight[i] in Without(s.inflight, key);
        var j :| 0 <= j < |Without(s.inflight, key)| && Without(s.inflight, key)[j] == s.inflight[i];
        assert Keys(Without(s.inflight, key))[j] == k;
      }
    }
  }

  /** What was accounted for before a reply is accounted for after it. */
  lemma StaysAccountedFor(dev: Device, s: Station, key: Key, ok: bool, now: nat, c: Key)
    requires Faithful(dev, s) && Possible(dev, s, Reply(key, ok, now))
    requires IsAnswer(s, key)
    requires IsAccountedFor(s, c) || c in NewReads(dev, s, key, ok)
    ensures IsAccountedFor(Process(s, ReplyFor(dev, key, ok), now), c)
  {
    var s' := Process(s, ReplyFor(dev, key, ok), now);
    ReplyEffect(dev, s, key, ok, now);
    StoredAfterReply(dev, s, s', key, ok, c);
    hide Process, NewReads, Kept, IsStored, Faithful, LookupsDefined, Outstanding, Possible, Rest, Done;
    if c in Outstanding(s) {
      RemainsOrIsDone(s, key, c);
    }
  }

  /** A child of a descriptor that is stored after a reply. */
  lemma ChildStaysAccountedFor(dev: Device, s: Station, key: Key, ok: bool, now: nat, k: Key, c: Key)
    requires Faithful(dev, s) && Closed(dev, s) && IsAnswer(s, key)
    requires Straight(dev, s, Reply(key, ok, now))
    requires (IsStored(s, k) || (ok && k == key)) && IsChild(dev, k, c)
    ensures IsAccountedFor(Process(s, ReplyFor(dev, key, ok), now), c)
  {
    hide Process, LookupsDefined, IsStored, NewReads, Possible, Faithful, Children, IsChild, IsAccountedFor, IsAnswer;
    if !IsStored(s, k) {
      StoresWhatItKeeps(dev, s, key, now);
      ChildrenAreReads(dev, k, c);
    }
    StaysAccountedFor(dev, s, key, ok, now, c);
  }

  lemma StoredAfter(dev: Device, s: Station, key: Key, ok: bool, now: nat)
    requires Faithful(dev, s) && IsAnswer(s, key)
    requires Possible(dev, s, Reply(key, ok, now))
    ensures var s' := Process(s, ReplyFor(dev, key, ok), now);
            forall k :: IsStored(s', k) <==> IsStored(s, k) || (ok && k == key)
  {
    var s' := Process(s, ReplyFor(dev, key, ok), now);
    hide Process, Kept, LookupsDefined, IsStored, NewReads, Possible, Faithful, IsAnswer, Outstanding, Rest, Done;
    ReplyEffect(dev, s, key, ok, now);
    forall k ensures IsStored(s', k) <==> IsStored(s, k) || (ok && k == key) {
      StoredAfterReply(dev, s, s', key, ok, k);
    }
  }

  lemma ReplyKeepsReads(dev: Device, s: Station, key: Key, ok: bool, now: nat)
    requires Supported(dev) && Faithful(dev, s) && Closed(dev, s) && IsAnswer(s, key) && Reachable(dev, key)
    requires Straight(dev, s, Reply(key, ok, now))
    ensures var s' := Process(s, ReplyFor(dev, key, ok), now);
            forall k :: k in s'.queued ==> Reachable(dev, k) && IsRead(k)
  {
    var more := NewReads(dev, s, key, ok);
    StraightReads(dev, s, key, ok, now);
    hide Process, Kept, LookupsDefined, IsStored, NewReads, Possible, Faithful, IsAnswer, Outstanding, Rest, Done,
      Children, Reachable, IsRead, IsAccountedFor, Supported;
    ReplyEffect(dev, s, key, ok, now);
    ChildrenAreReachable(dev, s, key, more);
  }

  lemma ReplyKeepsClosed(dev: Device, s: Station, key: Key, ok: bool, now: nat)
    requires Supported(dev) && Faithful(dev, s) && Closed(dev, s)
    requires Straight(dev, s, Reply(key, ok, now))
    ensures Closed(dev, Process(s, ReplyFor(dev, key, ok), now))
  {
    hide Process, LookupsDefined, Reachable, IsStored, Asked, Supported, IsRead, Faithful, Children, IsAccountedFor,
      IsAnswer, Aligned;
    AnswersAreRead(dev, s, key);
    ReplyKeepsReads(dev, s, key, ok, now);
    StoredAfter(dev, s, key, ok, now);
    ReplyKeepsChildren(dev, s, key, ok, now);
  }

  lemma ReplyKeepsChildren(dev: Device, s: Station, key: Key, ok: bool, now: nat)
    requires Faithful(dev, s) && Closed(dev, s) && IsAnswer(s, key)
    requires Straight(dev, s, Reply(key, ok, now))
    ensures var s' := Process(s, ReplyFor(dev, key, ok), now);
            forall k, c :: IsStored(s', k) && IsChild(dev, k, c) ==> IsAccountedFor(s', c)
  {
    var s' := Process(s, ReplyFor(dev, key, ok), now);
    hide Process, LookupsDefined, IsStored, Possible, Faithful, Children, IsAccountedFor, IsAnswer, Closed;
    StoredAfter(dev, s, key, ok, now);
    forall k, c | IsStored(s', k) && IsChild(dev, k, c) ensures IsAccountedFor(s', c) {
      ChildStaysAccountedFor(dev, s, key, ok, now, k, c);
    }
  }

  lemma ChildrenAreReachable(dev: Device, s: Station, key: Key, more: seq<Key>)
    requires Supported(dev) && IsAnswer(s, key) && Reachable(dev, key) && (more == [] || more == Children(dev, key))
    ensures forall k :: k in more ==> Reachable(dev, k) && IsRead(k)
  {
    hide Children, IsChild, Reachable;
    forall k | k in more ensures Reachable(dev, k) && IsRead(k) {
      ChildrenAreReads(dev, key, k);
      ChildIsReachable(dev, key, k);
      ChildrenAreRead(dev, key, k);
    }
  }

  /** A descriptor that was not stored before a successful reply leads to its children. */
  lemma StoresWhatItKeeps(dev: Device, s: Station, key: Key, now: nat)
    requires Faithful(dev, s) && IsAnswer(s, key) && !IsStored(s, key) && Straight(dev, s, Reply(key, true, now))
    ensures NewReads(dev, s, key, true) == Children(dev, key)
  {
    StraightReads(dev, s, key, true, now);
    assert s.configs != [] ==> s.configs[0].index == 0;
  }

  lemma StaysAccountedForOnTick(s: Station, now: nat, c: Key)
    requires s.queued == s.sent + Keys(s.pending) && IsAccountedFor(s, c)
    ensures IsAccountedFor(Tick(s, now), c)
  {
    TickEffect(s, now);
    if c in Keys(s.inflight) {
      ExpiredOrStays(s.inflight, now, c);
    }
    hide Tick, Unexpired, ExpiredKeys, Keys;
    assert c in Outstanding(s) ==> c in Keys(s.inflight) || c in Keys(s.pending);
  }

  lemma TickKeepsClosed(dev: Device, s: Station, now: nat)
    requires s.queued == s.sent + Keys(s.pending) && Closed(dev, s)
    ensures Closed(dev, Tick(s, now))
  {
    var s' := Tick(s, now);
    TickEffect(s, now);
    hide Tick, IsAccountedFor;
    forall k, c | IsStored(s', k) && IsChild(dev, k, c) ensures IsAccountedFor(s', c) {
      assert IsStored(s, k);
      StaysAccountedForOnTick(s, now, c);
    }
  }

  lemma ExpiredOrStays(reqs: seq<Request>, now: nat, k: Key)
    requires k in Keys(reqs)
    ensures k in Keys(Unexpired(reqs, now)) || k in ExpiredKeys(reqs, now)
  {
    UnexpiredSplits(reqs, now);
    assert k in multiset(Keys(reqs));
  }

  // ------------------------------------------------------------------------------------------------ all runs

  /** Up to event `n` every lookup found what it meant. */
  ghost predicate StraightUpTo(dev: Device, states: seq<Station>, events: seq<DeviceEvent>, n: nat) {
    n <= |events| < |states| && forall i :: 0 <= i < n ==> WasStraight(dev, states, events, i)
  }

  ghost predicate WasStraight(dev: Device, states: seq<Station>, events: seq<DeviceEvent>, i: nat) {
    i < |events| < |states| && Straight(dev, states[i], events[i])
  }

  lemma {:induction false} EveryRunIsClosed(dev: Device, states: seq<Station>, events: seq<DeviceEvent>, n: nat)
    requires Supported(dev) && IsDeviceRun(dev, states, events) && StraightUpTo(dev, states, events, n)
    ensures Closed(dev, states[n])
  {
    hide Possible, Faithful, After, Closed, Begin, Straight;
    if n == 0 {
      var now :| states[0] == Begin(dev, now);
      BeginIsClosed(dev, now);
    } else {
      EveryRunIsClosed(dev, states, events, n - 1);
      RunStep(dev, states, events, n - 1);
      assert WasStraight(dev, states, events, n - 1);
      hide IsDeviceRun;
      AfterKeepsClosed(dev, states[n - 1], events[n - 1]);
    }
  }

  lemma AfterKeepsClosed(dev: Device, s: Station, event: DeviceEvent)
    requires Supported(dev) && Faithful(dev, s) && Closed(dev, s) && Straight(dev, s, event)
    ensures Closed(dev, After(dev, s, event))
  {
    hide LookupsDefined, Process, Tick, Closed, Aligned;
    match event
    case Reply(key, ok, now) => ReplyKeepsClosed(dev, s, key, ok, now);
    case TickAt(now) => TickKeepsClosed(dev, s, now);
  }

  lemma BeginIsClosed(dev: Device, now: nat)
    requires Supported(dev)
    ensures Closed(dev, Begin(dev, now))
  {
    BeginEffect(dev, now);
    hide Begin;
    OnlyEntityIsClosed(dev, Begin(dev, now));
  }

  lemma OnlyEntityIsClosed(dev: Device, s: Station)
    requires |s.entities| > 0 && s.configs == [] && s.store == map[]
    requires Outstanding(s) == s.queued == [CONFIGURATION]
    ensures Closed(dev, s)
  {
    EntityIsReachable(dev);
    ConfigurationIsReachable(dev);
    forall c | IsChild(dev, ENTITY, c) ensures c == CONFIGURATION {
    }
    hide IsChild, Reachable, Outstanding;
    assert forall k :: IsStored(s, k) <==> k == ENTITY;
  }

  lemma ConfigurationIsReachable(dev: Device)
    ensures Reachable(dev, CONFIGURATION)
  {
    EntityIsReachable(dev);
    assert IsNumber(0, Block(0, 1), 0);
    ChildIsReachable(dev, ENTITY, CONFIGURATION);
  }

  /** On the way to a reachable descriptor that was not stored, some read was lost for good. */
  lemma {:induction false} MissingMeansLost(dev: Device, s: Station, path: seq<Key>)
    requires Faithful(dev, s) && Closed(dev, s) && s.Quiet() && IsPath(dev, path) && !IsStored(s, path[|path| - 1])
    ensures exists i :: 0 < i < |path| && IsLost(s, path[i]) && !IsStored(s, path[i])
  {
    var n := |path| - 1;
    assert IsStored(s, ENTITY) && Outstanding(s) == [];
    hide Faithful, Outstanding, IsStored, IsChild, Reachable, IsLost, RightContents;
    if n > 0 {
      if IsStored(s, path[n - 1]) {
        assert IsAccountedFor(s, path[n]);
      } else {
        MissingMeansLost(dev, s, path[..n]);
        var i :| 0 < i < n && IsLost(s, path[..n][i]) && !IsStored(s, path[..n][i]);
        assert IsLost(s, path[i]) && !IsStored(s, path[i]);
      }
    }
  }

  lemma LostWasQueued(s: Station, k: Key)
    requires Conserved(s) && IsLost(s, k)
    ensures k in s.queued
  {
    assert multiset(s.sent)[k] >= multiset(s.refused)[k] + multiset(s.timedOut)[k] > 0;
    assert k in s.sent;
  }

  /**
   * If every lookup so far found what it meant: whenever the lists are empty, what is stored are descriptors reachable
   * from ENTITY 0 with the contents the device gave them, and any other reachable descriptor lies behind a read that
   * was lost for good.  So the stored descriptors are exactly the reachable ones if and only if every read that was
   * refused or timed out has been answered by some other reply; in particular when no read was lost.
   */
  lemma EnumerationIsReachability(dev: Device, states: seq<Station>, events: seq<DeviceEvent>, n: nat)
    requires Supported(dev) && IsDeviceRun(dev, states, events) && StraightUpTo(dev, states, events, n)
    requires states[n].Quiet()
    ensures var s := states[n];
            && RightContents(dev, s.store)
            && (forall k :: IsStored(s, k) ==> Reachable(dev, k))
            && (forall path :: IsPath(dev, path) && !IsStored(s, path[|path| - 1]) ==>
                  exists i :: 0 < i < |path| && IsLost(s, path[i]) && !IsStored(s, path[i]))
            && ((forall k :: IsStored(s, k) <==> Reachable(dev, k)) <==> (forall k :: IsLost(s, k) ==> IsStored(s, k)))
            && (s.refused == s.timedOut == [] ==> s.HasConfig() && forall k :: IsStored(s, k) <==> Reachable(dev, k))
  {
    var s := states[n];
    EveryRunIsFaithful(dev, states, events, n);
    EveryRunIsClosed(dev, states, events, n);
    forall path | IsPath(dev, path) && !IsStored(s, path[|path| - 1])
      ensures exists i :: 0 < i < |path| && IsLost(s, path[i]) && !IsStored(s, path[i])
    {
      MissingMeansLost(dev, s, path);
    }
    assert RightContents(dev, s.store) && forall k :: IsStored(s, k) ==> Reachable(dev, k);
    NothingLostMeansAllStored(dev, s);
    if s.refused == s.timedOut == [] {
      ConfigurationIsStored(dev, s);
    }
  }

  lemma NothingLostMeansAllStored(dev: Device, s: Station)
    requires Faithful(dev, s) && Closed(dev, s) && Conserved(s) && s.Quiet()
    ensures (forall k :: IsStored(s, k) <==> Reachable(dev, k)) <==> (forall k :: IsLost(s, k) ==> IsStored(s, k))
  {
    if forall k :: IsLost(s, k) ==> IsStored(s, k) {
      forall k | Reachable(dev, k) ensures IsStored(s, k) {
        var path :| IsPath(dev, path) && path[|path| - 1] == k;
        if !IsStored(s, k) {
          MissingMeansLost(dev, s, path);
          assert false;
        }
      }
    }
    forall k | IsLost(s, k) ensures Reachable(dev, k) {
      LostWasQueued(s, k);
    }
  }

  lemma ConfigurationIsStored(dev: Device, s: Station)
    requires Faithful(dev, s) && forall k :: Reachable(dev, k) ==> IsStored(s, k)
    ensures s.HasConfig()
  {
    ConfigurationIsReachable(dev);
    hide Reachable;
    assert IsStored(s, CONFIGURATION);
  }

  /** READ_COMPLETED is posted by exactly the replies that leave nothing to read. */
  lemma CompletionIsPosted(dev: Device, states: seq<Station>, events: seq<DeviceEvent>, n: nat)
    requires At(dev, ENTITY).currentConfiguration == 0
    requires IsDeviceRun(dev, states, events) && n < |events|
    ensures states[n + 1].completed == states[n].completed +
              if events[n].Reply? && states[n + 1].HasConfig() && states[n + 1].Quiet() then 1 else 0
  {
    RunStep(dev, states, events, n);
    hide IsDeviceRun, Possible, Faithful, LookupsDefined, Process, Tick;
    match events[n]
    case Reply(key, ok, now) => CompletedUntouched(states[n], Arrival(ReplyFor(dev, key, ok), now));
    case TickAt(now) => CompletedUntouched(states[n], TimerTick(now));
  }

  /** So READ_COMPLETED can be posted again: by each further answer that comes when nothing is left to read. */
  lemma LaterAnswerCompletesAgain(dev: Device, states: seq<Station>, events: seq<DeviceEvent>, n: nat)
    requires At(dev, ENTITY).currentConfiguration == 0
    requires IsDeviceRun(dev, states, events) && n < |events| && states[n].Quiet() && states[n].HasConfig()
    requires events[n].Reply? && Possible(dev, states[n], events[n])
    requires NewReads(dev, states[n], events[n].key, events[n].ok) == []
    ensures states[n + 1].Quiet() && states[n + 1].completed == states[n].completed + 1
  {
    hide Process, Happens, Kept, LookupsDefined, NewReads, Faithful, Possible, Asked;
    RunStep(dev, states, events, n);
    CompletionIsPosted(dev, states, events, n);
    AnswerWithoutReadsStaysQuiet(dev, states[n], events[n].key, events[n].ok, events[n].now);
  }

  lemma AnswerWithoutReadsStaysQuiet(dev: Device, s: Station, key: Key, ok: bool, now: nat)
    requires Faithful(dev, s) && Possible(dev, s, Reply(key, ok, now)) && s.Quiet() && s.HasConfig()
    requires NewReads(dev, s, key, ok) == []
    ensures var s' := Process(s, ReplyFor(dev, key, ok), now);
            s'.Quiet() && s'.HasConfig()
  {
    var s' := Process(s, ReplyFor(dev, key, ok), now);
    assert Rest([], key) == [];
    assert Outstanding(s') == [] by {
      ReplyEffect(dev, s, key, ok, now);
    }
    assert |s'.inflight| + |s'.pending| == |Outstanding(s')|;
    assert s'.configs != [] && s'.entities == s.entities by {
      hide Process, LookupsDefined, NewReads, Kept, Asked;
      ReplyEffect(dev, s, key, ok, now);
      StaysConfigured(dev, s, key, ok);
    }
  }

  /**
   * The condition on the current configuration is needed: whenever it is not 0, the reply to CONFIGURATION 0 leads
   * to nothing, and READ_COMPLETED is posted with no further descriptor read, whatever the device contains.
   */
  lemma OtherConfigurationEndsAtOnce(dev: Device, now: nat, later: nat)
    requires At(dev, ENTITY).currentConfiguration != 0
    ensures var s, r := Begin(dev, now), ReplyFor(dev, CONFIGURATION, true);
            && Outstanding(s) == [CONFIGURATION] && LookupsDefined(s, r)
            && var s' := Process(s, r, later);
               s'.Quiet() && s'.store == map[] && s'.refused == s'.timedOut == [] && s'.completed == s.completed + 1
  {
    var s, r := Begin(dev, now), ReplyFor(dev, CONFIGURATION, true);
    BeginLists(dev, now);
    hide Begin;
    OnlyReadIsOnTheWire(s, CONFIGURATION);
    var kept := Keep(s, r);
    assert Queue(kept, []) == kept by {
      assert FreshRequests([]) == [] && kept.pending + [] == kept.pending && kept.queued + [] == kept.queued;
    }
  }
}
