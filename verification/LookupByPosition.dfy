/**
 * `background_read_deduce_next` uses the index in a frame as a position in the vector it was stored in.  Here is
 * exactly when that finds the descriptor that was meant, and what goes wrong otherwise.
 */
module LookupByPosition {
  import opened Basics
  import opened DescriptorStore
  import opened EntityModel
  import opened Enumeration
  import opened EnumerationRuns
  import opened DeviceRuns

  ghost predicate IsAt<C>(v: seq<Stored<C>>, index: uint16) {
    index < |v| && v[index].index == index
  }

  /** In an increasing vector an index stands at its own position exactly when none below it is missing. */
  lemma AtItsPosition(v: seq<Stored<Contents>>, index: uint16)
    requires Increasing(v)
    ensures IsAt(v, index) <==> forall x: uint16 :: x <= index ==> HasIndex(v, x)
  {
    if IsAt(v, index) {
      forall x: uint16 | x <= index ensures HasIndex(v, x) {
        RoomBelow(v, x);
        GapsOnlyGrow(v, x, index);
        assert v[x].index == x;
      }
    }
    if forall x: uint16 :: x <= index ==> HasIndex(v, x) {
      NoneMissing(v, index);
    }
  }

  lemma {:induction false} GapsOnlyGrow<C>(v: seq<Stored<C>>, i: nat, j: nat)
    requires Increasing(v) && i <= j < |v|
    ensures v[i].index - i <= v[j].index - j
    decreases j
  {
    if i < j {
      GapsOnlyGrow(v, i, j - 1);
    }
  }

  lemma {:induction false} NoneMissing(v: seq<Stored<Contents>>, index: uint16)
    requires Increasing(v) && forall x: uint16 :: x <= index ==> HasIndex(v, x)
    ensures IsAt(v, index)
  {
    if index > 0 {
      NoneMissing(v, index - 1);
    }
    assert HasIndex(v, index);
    var p :| 0 <= p < |v| && v[p].index == index;
    RoomBelow(v, p);
    RoomBelow(v, index);
  }

  /** What must have been stored already for the lookup of `key` to find it. */
  ghost predicate ArrivesInTurn(s: Station, key: Key) {
    var v := Vec(s.store, key.descType);
    match key.descType
    case AudioUnit => forall x: uint16 :: x < key.index ==> HasIndex(v, x)
    case Locale => key.index == 0 || HasIndex(v, 0)
    case _ => key.index == |v| || IsAt(v, key.index)
  }

  /**
   * A lookup after a successful reply finds the descriptor that was meant exactly when, for an audio unit, all
   * units below it were stored before; for a locale, locale 0 is stored; and for a stream port, it is the next one
   * to be pushed, or an earlier copy of it stands at its position.
   */
  lemma AlignedExactlyWhen(s: Station, key: Key, contents: Contents)
    requires IsLookedUp(key.descType) && StoresDescriptor(s, Response(true, true, key, contents, true))
    requires Increasing(Vec(s.store, AudioUnit)) && Increasing(Vec(s.store, Locale))
    ensures Aligned(s, key, contents) <==> ArrivesInTurn(s, key)
  {
    var t, d := key.descType, Stored(key.index, contents);
    var v, w := Vec(s.store, t), Vec(StoreIn(s.store, t, d), t);
    assert Aligned(s, key, contents) <==> IsAt(w, LookupPosition(key));
    hide Aligned, StoresDescriptor, HasIndex;
    if t == AudioUnit || t == Locale {
      assert w == Put(v, d);
      hide Put, Increasing, Vec, StoreIn;
      PutAddsItsIndex(v, d);
      AtItsPosition(w, LookupPosition(key));
    } else {
      assert w == v + [d];
    }
  }

  lemma PutAddsItsIndex(v: seq<Stored<Contents>>, d: Stored<Contents>)
    requires Increasing(v)
    ensures Increasing(Put(v, d))
    ensures forall x: uint16 :: HasIndex(Put(v, d), x) <==> x == d.index || HasIndex(v, x)
  {
    var w := Put(v, d);
    PutMembers(v, d);
    PutKeepsOrder(v, d);
    hide Put, Insert, Position, Increasing;
    forall x: uint16 ensures HasIndex(w, x) <==> x == d.index || HasIndex(v, x) {
      if HasIndex(w, x) {
        var i :| 0 <= i < |w| && w[i].index == x;
        assert w[i] in w;
      }
      if HasIndex(v, x) && x != d.index {
        var i :| 0 <= i < |v| && v[i].index == x;
        assert v[i] in w;
      }
    }
  }

  /** For a stream port the lookup is within the vector exactly when no index below it was skipped. */
  lemma PortLookupDefinedWhen(s: Station, key: Key, contents: Contents)
    requires key.descType == StreamPortInput || key.descType == StreamPortOutput
    requires StoresDescriptor(s, Response(true, true, key, contents, true)) && s.currentConfig < |s.configs|
    ensures LookupsDefined(s, Response(true, true, key, contents, true)) <==> key.index <= |Vec(s.store, key.descType)|
  {
    assert |Vec(StoreIn(s.store, key.descType, Stored(key.index, contents)), key.descType)| ==
           |Vec(s.store, key.descType)| + 1;
  }

  /**
   * In any run, a second answer to a stream port pushes a second copy of it.  The port whose index is the next
   * position is then taken for that copy: its own lookup finds the copy, and the copy's children are read again.
   */
  lemma RepeatedPortShiftsTheNext(dev: Device, states: seq<Station>, events: seq<DeviceEvent>, n: nat)
    requires At(dev, ENTITY).currentConfiguration == 0
    requires IsDeviceRun(dev, states, events) && n < |events| && events[n].Reply? && events[n].ok
    requires var key, v := events[n].key, Vec(states[n].store, events[n].key.descType);
             && (key.descType == StreamPortInput || key.descType == StreamPortOutput)
             && states[n].configs != [] && IsAt(v, key.index) && |v| < TWO_16
    ensures var key, v, s' := events[n].key, Vec(states[n].store, events[n].key.descType), states[n + 1];
            var next := Key(key.descType, |v|);
            && Vec(s'.store, key.descType) == v + [Stored(key.index, At(dev, key))]
            && LookupsDefined(s', ReplyFor(dev, next, true)) && !Aligned(s', next, At(dev, next))
            && NextReads(Keep(s', ReplyFor(dev, next, true)), next) == Children(dev, key)
  {
    hide Process, LookupsDefined, Vec, StoreIn, StoresDescriptor, RightContents, Kept, NewReads, Outstanding, Keys,
      Happens, QuietWhenIdle, Children, NextReads, Keep, Aligned;
    var key, s, s' := events[n].key, states[n], states[n + 1];
    RunStep(dev, states, events, n);
    ReplyEffect(dev, s, key, true, events[n].now);
    SecondCopyIsKept(dev, s, key);
    TakenForTheCopy(dev, s', key, Vec(s.store, key.descType));
  }

  lemma SecondCopyIsKept(dev: Device, s: Station, key: Key)
    requires Faithful(dev, s) && s.configs != []
    requires key.descType == StreamPortInput || key.descType == StreamPortOutput
    ensures var kept := Kept(dev, s, key, true);
            && kept.configs == s.configs
            && Vec(kept.store, key.descType) == Vec(s.store, key.descType) + [Stored(key.index, At(dev, key))]
  {
  }

  lemma TakenForTheCopy(dev: Device, s: Station, key: Key, v: seq<Stored<Contents>>)
    requires key.descType == StreamPortInput || key.descType == StreamPortOutput
    requires |s.entities| == 1 && s.currentConfig == 0 && |s.configs| >= 1 && key.index < |v| < TWO_16
    requires Vec(s.store, key.descType) == v + [Stored(key.index, At(dev, key))]
    ensures var next := Key(key.descType, |v|);
            && LookupsDefined(s, ReplyFor(dev, next, true)) && !Aligned(s, next, At(dev, next))
            && NextReads(Keep(s, ReplyFor(dev, next, true)), next) == Children(dev, key)
  {
    var next := Key(key.descType, |v|);
    var kept := Keep(s, ReplyFor(dev, next, true));
    assert Vec(kept.store, key.descType) == v + [Stored(key.index, At(dev, key))] + [Stored(next.index, At(dev, next))];
    assert Vec(kept.store, key.descType)[|v|] == Stored(key.index, At(dev, key));
    hide BlockKeys, Vec;
  }

  /** One audio unit with two stream ports. */
  const TWO_PORTS: Device := map[
    CONFIGURATION := NOTHING.(counts := [DescCount(AudioUnit, 1)]),
    Key(AudioUnit, 0) := NOTHING.(streamInputPorts := Block(0, 2))]

  lemma TwoPortsChildren()
    ensures Children(TWO_PORTS, CONFIGURATION) == [Key(AudioUnit, 0)]
    ensures Children(TWO_PORTS, Key(AudioUnit, 0)) == [Key(StreamPortInput, 0), Key(StreamPortInput, 1)]
    ensures Children(TWO_PORTS, Key(StreamPortInput, 0)) == []
  {
    var unit := DescCount(AudioUnit, 1);
    assert [unit][..0] == [];
    assert CountKeys([unit]) == CountKeys([]) + BlockKeys(AudioUnit, Block(0, 1));
    assert BlockKeys(AudioUnit, Block(0, 1)) == [Key(AudioUnit, 0)];
    assert BlockKeys(StreamPortInput, Block(0, 2)) == [Key(StreamPortInput, 0), Key(StreamPortInput, 1)];
  }

  /** A successful reply to the oldest read that is outstanding. */
  lemma AnswerOldest(dev: Device, s: Station, key: Key)
    requires Faithful(dev, s) && Conserved(s) && QuietWhenIdle(s)
    requires Outstanding(s) != [] && Outstanding(s)[0] == key && DescIndexFromFrame(key) == Some(key.index)
    requires Aligned(s, key, At(dev, key))
    ensures Possible(dev, s, Reply(key, true, 0)) && LookupsDefined(s, ReplyFor(dev, key, true))
    ensures NewReads(dev, s, key, true) ==
            if StoresDescriptor(s, ReplyFor(dev, key, true)) then Children(dev, key) else []
    ensures var s', more := Process(s, ReplyFor(dev, key, true), 0), NewReads(dev, s, key, true);
            && s' == After(dev, s, Reply(key, true, 0))
            && Faithful(dev, s') && Conserved(s') && QuietWhenIdle(s')
            && s'.queued == s.queued + more && key in s'.sent
            && s'.configs == Kept(dev, s, key, true).configs && s'.store == Kept(dev, s, key, true).store
            && (Outstanding(s) == [key] ==> Outstanding(s') == more)
            && (|Outstanding(s)| == 2 && Outstanding(s)[1] != key ==> Outstanding(s') == [Outstanding(s)[1]] + more)
  {
    hide Faithful, Conserved, Process, NewReads, Kept, LookupsDefined, Aligned, StoresDescriptor, Rest, Keys,
      QuietWhenIdle, Outstanding;
    var event := Reply(key, true, 0);
    OldestIsSent(s, key);
    AlignedIsPossible(dev, s, key, true, 0);
    DeducesChildren(dev, s, key, true);
    AfterKeepsFaithful(dev, s, event);
    ReplyEffect(dev, s, key, true, 0);
    if Outstanding(s) == [key] {
      OnlyReadIsDone(s, key);
      assert [] + [] + NewReads(dev, s, key, true) == NewReads(dev, s, key, true);
    } else if |Outstanding(s)| == 2 && Outstanding(s)[1] != key {
      OneOfTwoIsDone(s, key);
    }
  }

  lemma OneOfTwoIsDone(s: Station, key: Key)
    requires |Outstanding(s)| == 2 && Outstanding(s)[0] == key != Outstanding(s)[1] && QuietWhenIdle(s)
    requires DescIndexFromFrame(key) == Some(key.index)
    ensures Keys(Rest(s.inflight, key)) + Keys(s.pending) == [Outstanding(s)[1]]
  {
    var reqs := s.inflight;
    assert |Outstanding(s)| == |reqs| + |s.pending| && reqs[0].key == Outstanding(s)[0];
    assert reqs[..1][..0] == [];
    if |reqs| == 2 {
      assert reqs[1].key == Outstanding(s)[1];
      assert Without(reqs, key) == Without(reqs[..1], key) + [reqs[1]];
    } else {
      assert reqs[..0] == [] && Without(reqs, key) == [] && s.pending[0].key == Outstanding(s)[1];
    }
  }

  lemma OnlyReadIsDone(s: Station, key: Key)
    requires Outstanding(s) == [key] && QuietWhenIdle(s) && DescIndexFromFrame(key) == Some(key.index)
    ensures Keys(Rest(s.inflight, key)) == Keys(s.pending) == []
  {
    OnlyReadIsOnTheWire(s, key);
  }

  lemma OldestIsSent(s: Station, key: Key)
    requires Conserved(s) && QuietWhenIdle(s) && Outstanding(s) != [] && Outstanding(s)[0] == key
    ensures key in s.sent
  {
    assert |Outstanding(s)| == |s.inflight| + |s.pending|;
    assert Keys(s.inflight)[0] == key;
    assert key in multiset(Keys(s.inflight)) && key in multiset(s.sent);
  }

  const UNIT: Key := Key(AudioUnit, 0)
  const FIRST_PORT: Key := Key(StreamPortInput, 0)
  const SECOND_PORT: Key := Key(StreamPortInput, 1)

  ghost predicate IsTracked(dev: Device, s: Station) {
    Faithful(dev, s) && Conserved(s) && QuietWhenIdle(s)
  }

  /** `s'` follows `s` by a successful reply. */
  ghost predicate Replied(dev: Device, s: Station, key: Key, s': Station) {
    && Possible(dev, s, Reply(key, true, 0))
    && s' == After(dev, s, Reply(key, true, 0))
  }

  lemma FirstConfigurationIsKept(dev: Device, s: Station)
    requires Faithful(dev, s) && s.configs == []
    ensures StoresDescriptor(s, ReplyFor(dev, CONFIGURATION, true)) && Aligned(s, CONFIGURATION, At(dev, CONFIGURATION))
    ensures Kept(dev, s, CONFIGURATION, true).configs != [] && Kept(dev, s, CONFIGURATION, true).store == map[]
  {
  }

  lemma ConfigurationAnswers(s: Station) returns (s': Station)
    requires s == Begin(TWO_PORTS, 0)
    ensures Replied(TWO_PORTS, s, CONFIGURATION, s') && IsTracked(TWO_PORTS, s')
    ensures Outstanding(s') == [UNIT] && s'.configs != [] && s'.store == map[]
  {
    hide Begin, Children, Conserved, Process, Possible, LookupsDefined, Outstanding, Kept, StoresDescriptor, NewReads,
      RightContents, QuietWhenIdle, Faithful, Aligned;
    BeginEffect(TWO_PORTS, 0);
    TwoPortsChildren();
    FirstConfigurationIsKept(TWO_PORTS, s);
    AnswerOldest(TWO_PORTS, s, CONFIGURATION);
    s' := Process(s, ReplyFor(TWO_PORTS, CONFIGURATION, true), 0);
  }

  lemma UnitAnswers(s: Station) returns (s': Station)
    requires IsTracked(TWO_PORTS, s) && Outstanding(s) == [UNIT] && s.configs != [] && s.store == map[]
    ensures Replied(TWO_PORTS, s, UNIT, s') && IsTracked(TWO_PORTS, s')
    ensures Outstanding(s') == [FIRST_PORT, SECOND_PORT] && SECOND_PORT in s'.queued
    ensures s'.configs != [] && Vec(s'.store, StreamPortInput) == []
  {
    TwoPortsChildren();
    hide Children, Conserved, Process, Possible, LookupsDefined, Outstanding;
    AnswerOldest(TWO_PORTS, s, UNIT);
    s' := Process(s, ReplyFor(TWO_PORTS, UNIT, true), 0);
    assert s'.queued[|s'.queued| - 1] == SECOND_PORT;
  }

  lemma PortAnswers(s: Station) returns (s': Station)
    requires IsTracked(TWO_PORTS, s) && Outstanding(s) == [FIRST_PORT, SECOND_PORT]
    requires s.configs != [] && Vec(s.store, StreamPortInput) == []
    ensures Replied(TWO_PORTS, s, FIRST_PORT, s') && IsTracked(TWO_PORTS, s')
    ensures FIRST_PORT in s'.sent && SECOND_PORT in s'.sent
    ensures s'.configs != [] && Vec(s'.store, StreamPortInput) == [Stored(0, At(TWO_PORTS, FIRST_PORT))]
  {
    hide Children, Conserved, Process, Possible, LookupsDefined, Outstanding;
    TwoPortsChildren();
    AnswerOldest(TWO_PORTS, s, FIRST_PORT);
    s' := Process(s, ReplyFor(TWO_PORTS, FIRST_PORT, true), 0);
    assert Outstanding(s') == [SECOND_PORT];
    OldestIsSent(s', SECOND_PORT);
  }

  lemma PortAnswersAgain(s: Station) returns (s': Station)
    requires IsTracked(TWO_PORTS, s) && s.configs != [] && FIRST_PORT in s.sent && SECOND_PORT in s.sent
    requires Vec(s.store, StreamPortInput) == [Stored(0, At(TWO_PORTS, FIRST_PORT))]
    ensures Replied(TWO_PORTS, s, FIRST_PORT, s')
    ensures LookupsDefined(s', ReplyFor(TWO_PORTS, SECOND_PORT, true)) ==>
              Possible(TWO_PORTS, s', Reply(SECOND_PORT, true, 0))
  {
    assert Aligned(s, FIRST_PORT, At(TWO_PORTS, FIRST_PORT));
    AlignedIsPossible(TWO_PORTS, s, FIRST_PORT, true, 0);
    ReplyEffect(TWO_PORTS, s, FIRST_PORT, true, 0);
    hide Process;
    s' := After(TWO_PORTS, s, Reply(FIRST_PORT, true, 0));
    assert SECOND_PORT in Asked(s');
  }

  /**
   * Such a run exists: the first port of two answers twice before the second answers, and then the second is taken
   * for the copy of the first.
   */
  lemma PortsCanBeRepeated()
    ensures exists states: seq<Station>, events: seq<DeviceEvent> ::
              && IsDeviceRun(TWO_PORTS, states, events) && |events| == 5
              && events[3] == Reply(FIRST_PORT, true, 0) && states[3].configs != []
              && IsAt(Vec(states[3].store, StreamPortInput), 0) && |Vec(states[3].store, StreamPortInput)| == 1
              && events[4] == Reply(SECOND_PORT, true, 0)
              && !Aligned(states[4], SECOND_PORT, At(TWO_PORTS, SECOND_PORT))
  {
    hide Faithful, Conserved, Possible, LookupsDefined, After, Begin, Outstanding, QuietWhenIdle, Aligned, Children;
    var s0 := Begin(TWO_PORTS, 0);
    var s1 := ConfigurationAnswers(s0);
    var s2 := UnitAnswers(s1);
    var s3 := PortAnswers(s2);
    var s4 := PortAnswersAgain(s3);
    var states, events := RepliesMakeARun(s0, s1, s2, s3, s4);
    RepeatedPortShiftsTheNext(TWO_PORTS, states, events, 3);
    RunGoesOn(TWO_PORTS, states, events, Reply(SECOND_PORT, true, 0));
  }

  lemma RepliesMakeARun(s0: Station, s1: Station, s2: Station, s3: Station, s4: Station)
      returns (states: seq<Station>, events: seq<DeviceEvent>)
    requires s0 == Begin(TWO_PORTS, 0)
    requires Replied(TWO_PORTS, s0, CONFIGURATION, s1) && Replied(TWO_PORTS, s1, UNIT, s2)
    requires Replied(TWO_PORTS, s2, FIRST_PORT, s3) && Replied(TWO_PORTS, s3, FIRST_PORT, s4)
    ensures IsDeviceRun(TWO_PORTS, states, events) && states == [s0, s1, s2, s3, s4]
    ensures |events| == 4 && events[3] == Reply(FIRST_PORT, true, 0)
  {
    hide Possible, After, Begin;
    var port := Reply(FIRST_PORT, true, 0);
    states, events := [s0, s1, s2, s3, s4], [Reply(CONFIGURATION, true, 0), Reply(UNIT, true, 0), port, port];
    assert Happens(TWO_PORTS, states, events, 0) && Happens(TWO_PORTS, states, events, 1);
    assert Happens(TWO_PORTS, states, events, 2) && Happens(TWO_PORTS, states, events, 3);
  }

  lemma RunGoesOn(dev: Device, states: seq<Station>, events: seq<DeviceEvent>, event: DeviceEvent)
    requires IsDeviceRun(dev, states, events) && Possible(dev, states[|events|], event)
    ensures IsDeviceRun(dev, states + [After(dev, states[|events|], event)], events + [event])
  {
    hide Possible, After, Begin;
    var states', events' := states + [After(dev, states[|events|], event)], events + [event];
    forall i | 0 <= i < |events'| ensures Happens(dev, states', events', i) {
      assert i < |events| ==> Happens(dev, states, events, i);
    }
  }
}
