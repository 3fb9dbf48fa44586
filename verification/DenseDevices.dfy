/**
 * When lookup by position finds the right descriptor.  The source pushes stream ports at the end of their vector in
 * the order of arrival, and then uses a descriptor index as a position.  On a device that numbers its stream ports
 * consecutively from audio unit to audio unit, replies in the order of the reads make every such lookup right.
 */
module DenseDevices {
  import opened Basics
  import opened DescriptorStore
  import opened EntityModel
  import opened Enumeration
  import opened EnumerationRuns
  import opened DeviceRuns
  import opened EnumerationClosure

  /** How many descriptors of a type the configuration lists. */
  function CountOf(counts: seq<DescCount>, t: DescType): uint16 {
    if counts == [] then 0
    else
      var last := counts[|counts| - 1];
      if last.descType == t then last.count else CountOf(counts[..|counts| - 1], t)
  }

  function PortsOf(dev: Device, port: DescType, unit: uint16): Block {
    var c := At(dev, Key(AudioUnit, unit));
    if port == StreamPortInput then c.streamInputPorts else c.streamOutputPorts
  }

  /** How many stream ports the first `k` audio units have. */
  function PortsBefore(dev: Device, port: DescType, k: nat): nat
    requires k <= TWO_16
  {
    if k == 0 then 0 else PortsBefore(dev, port, k - 1) + PortsOf(dev, port, k - 1).count
  }

  predicate IsStreamPort(t: DescType) {
    t == StreamPortInput || t == StreamPortOutput
  }

  /** Each type is listed once, stream ports belong to audio units, and are numbered in the order of the units. */
  ghost predicate Dense(dev: Device) {
    var counts := At(dev, CONFIGURATION).counts;
    && Supported(dev)
    && (forall i, j :: 0 <= i < j < |counts| ==> counts[i].descType != counts[j].descType)
    && (forall i :: 0 <= i < |counts| ==> !IsStreamPort(counts[i].descType))
    && (forall port, k: uint16 :: IsStreamPort(port) && k < CountOf(counts, AudioUnit) ==> FollowsOn(dev, port, k))
  }

  /** The stream ports of a unit are numbered from where those of the units before it end. */
  ghost predicate FollowsOn(dev: Device, port: DescType, unit: uint16) {
    var block := PortsOf(dev, port, unit);
    block.base == PortsBefore(dev, port, unit) && block.base + block.count <= TWO_16
  }

  /** How many reads were answered before event `n`. */
  function Answered(events: seq<DeviceEvent>, n: nat): nat
    requires n <= |events|
  {
    if n == 0 then 0 else Answered(events, n - 1) + if events[n - 1].Reply? then 1 else 0
  }

  /** Reply `r` is to read `r`, whether or not that read has timed out by then, and succeeds. */
  ghost predicate InOrder(s: Station, event: DeviceEvent, r: nat) {
    event.Reply? ==> event.ok && r < |s.sent| && event.key == s.sent[r]
  }

  ghost predicate IsOrderlyRun(dev: Device, states: seq<Station>, events: seq<DeviceEvent>) {
    && |states| == |events| + 1
    && (exists now :: states[0] == Begin(dev, now))
    && forall i :: 0 <= i < |events| ==> HappensInOrder(dev, states, events, i)
  }

  /** Here no lookup is assumed to succeed; that every one does is what is proved. */
  ghost predicate HappensInOrder(dev: Device, states: seq<Station>, events: seq<DeviceEvent>, i: nat) {
    && i < |events| == |states| - 1
    && InOrder(states[i], events[i], Answered(events, i))
    && (Possible(dev, states[i], events[i]) ==> states[i + 1] == After(dev, states[i], events[i]))
  }

  // -------------------------------------------------------------------------------------------- index ranges

  function Range(lo: nat, hi: nat): (r: seq<nat>)
    requires lo <= hi
    ensures |r| == hi - lo && forall i :: 0 <= i < |r| ==> r[i] == lo + i
  {
    seq(hi - lo, (i: nat) => lo + i)
  }

  lemma NumbersFromZero(count: uint16)
    ensures NumbersOf(Block(0, count)) == Range(0, count)
  {
  }

  lemma OneMoreCount(front: seq<DescCount>, last: DescCount, t: DescType)
    ensures IndicesOf(CountKeys(front + [last]), t) ==
            IndicesOf(CountKeys(front), t) + if last.descType == t then Range(0, last.count) else []
  {
    hide IndicesOf, BlockKeys, NumbersOf, Range;
    assert (front + [last])[..|front|] == front;
    NumbersFromZero(last.count);
    IndicesAppend(CountKeys(front), BlockKeys(last.descType, Block(0, last.count)), t);
    IndicesOfBlock(last.descType, Block(0, last.count), t);
  }

  lemma {:induction false} CountIndices(counts: seq<DescCount>, t: DescType)
    requires forall i, j :: 0 <= i < j < |counts| ==> counts[i].descType != counts[j].descType
    ensures IndicesOf(CountKeys(counts), t) == Range(0, CountOf(counts, t))
    ensures (forall i :: 0 <= i < |counts| ==> counts[i].descType != t) ==> CountOf(counts, t) == 0
  {
    if counts != [] {
      hide IndicesOf, CountKeys, Range;
      var front, last := counts[..|counts| - 1], counts[|counts| - 1];
      assert counts == front + [last];
      CountIndices(front, t);
      OneMoreCount(front, last, t);
      assert Range(0, 0) == [];
    }
  }

  // --------------------------------------------------------------------------------------- the invariant

  /** The reads from read `r` on, sent or waiting: those that are not answered yet. */
  function Unanswered(s: Station, r: nat): seq<Key> {
    if r <= |s.queued| then s.queued[r..] else []
  }

  predicate NumberedInTurn(v: seq<Stored<Contents>>) {
    forall i :: 0 <= i < |v| ==> v[i].index == i
  }

  /**
   * The vector of a type holds the indices below its length, and the rest up to `n` are still to be answered, in
   * order.
   */
  ghost predicate Lined(s: Station, r: nat, t: DescType, n: nat) {
    var v := Vec(s.store, t);
    && |v| <= n
    && NumberedInTurn(v)
    && IndicesOf(Unanswered(s, r), t) == Range(|v|, n)
  }

  function UnitCount(dev: Device): uint16 {
    CountOf(At(dev, CONFIGURATION).counts, AudioUnit)
  }

  /** The number of descriptors of a looked-up type that the reads so far have led to. */
  function Due(dev: Device, s: Station, t: DescType): nat
    requires |Vec(s.store, AudioUnit)| <= TWO_16
  {
    match t
    case AudioUnit => UnitCount(dev)
    case Locale => CountOf(At(dev, CONFIGURATION).counts, Locale)
    case t => PortsBefore(dev, t, |Vec(s.store, AudioUnit)|)
  }

  /** Every type that is looked up is lined up to what the descriptors stored so far make due. */
  ghost predicate Orderly(dev: Device, s: Station, r: nat) {
    && (s.configs == [] ==> s.queued == [CONFIGURATION] && r == 0)
    && (s.configs != [] ==>
          && |Vec(s.store, AudioUnit)| <= UnitCount(dev)
          && forall t :: IsLookedUp(t) ==> Lined(s, r, t, Due(dev, s, t)))
  }

  /** The oldest unanswered read of a looked-up type is of the next index that its vector lacks. */
  lemma HeadIsNext(s: Station, r: nat, t: DescType, n: nat)
    requires Lined(s, r, t, n) && r < |s.queued| && s.queued[r].descType == t
    ensures s.queued[r].index == |Vec(s.store, t)| < n
    ensures IndicesOf(s.queued[r + 1..], t) == Range(|Vec(s.store, t)| + 1, n)
  {
    IndicesFromHead(s.queued, r, t);
    var a := |Vec(s.store, t)|;
    hide IndicesOf, Vec;
    RangeTail(a, n, s.queued[r].index, IndicesOf(s.queued[r + 1..], t));
  }

  lemma IndicesFromHead(keys: seq<Key>, r: nat, t: DescType)
    requires r < |keys|
    ensures IndicesOf(keys[r..], t) ==
            (if keys[r].descType == t then [keys[r].index as nat] else []) + IndicesOf(keys[r + 1..], t)
  {
    assert keys[r..] == [keys[r]] + keys[r + 1..];
    IndicesAppend([keys[r]], keys[r + 1..], t);
    assert [keys[r]][..0] == [];
  }

  lemma RangeTail(a: nat, n: nat, head: nat, rest: seq<nat>)
    requires a <= n && [head] + rest == Range(a, n)
    ensures head == a < n && rest == Range(a + 1, n)
  {
    var all := [head] + rest;
    assert all[0] == head == a && |all| == n - a;
    assert forall i :: 0 <= i < |rest| ==> rest[i] == all[i + 1] == a + 1 + i;
  }

  lemma PutAtTheEnd(v: seq<Stored<Contents>>, d: Stored<Contents>)
    requires d.index == |v| && NumberedInTurn(v)
    ensures Put(v, d) == v + [d] && NumberedInTurn(v + [d])
  {
    assert Position(v, d.index) == |v| && Rank(v, d.index) == |v|;
  }

  /** The vector of a looked-up type grows at its end. */
  lemma StoredAtTheEnd(dev: Device, store: Store, key: Key)
    requires IsLookedUp(key.descType)
    requires key.index == |Vec(store, key.descType)| && NumberedInTurn(Vec(store, key.descType))
    ensures Vec(StoreIn(store, key.descType, Stored(key.index, At(dev, key))), key.descType) ==
            Vec(store, key.descType) + [Stored(key.index, At(dev, key))]
    ensures NumberedInTurn(Vec(store, key.descType) + [Stored(key.index, At(dev, key))])
  {
    PutAtTheEnd(Vec(store, key.descType), Stored(key.index, At(dev, key)));
  }

  /** So the lookup that follows finds the descriptor that was just stored. */
  lemma InOrderIsStraight(dev: Device, s: Station, event: DeviceEvent, r: nat)
    requires Faithful(dev, s) && Orderly(dev, s, r) && InOrder(s, event, r)
    ensures Straight(dev, s, event)
  {
    if event.Reply? {
      var key := event.key;
      assert s.queued[r] == key;
      if s.configs != [] && IsLookedUp(key.descType) {
        InOrderIsAligned(dev, s, key, r);
      }
      AlignedIsPossible(dev, s, key, event.ok, event.now);
    }
  }

  lemma InOrderIsAligned(dev: Device, s: Station, key: Key, r: nat)
    requires Orderly(dev, s, r) && s.configs != [] && IsLookedUp(key.descType)
    requires r < |s.queued| && key == s.queued[r]
    ensures Aligned(s, key, At(dev, key))
  {
    var t := key.descType;
    assert Lined(s, r, t, Due(dev, s, t));
    HeadIsNext(s, r, t, Due(dev, s, t));
    StoredAtTheEnd(dev, s.store, key);
    hide Due, Orderly, IndicesOf, Unanswered, Put;
    assert Vec(StoreIn(s.store, t, Stored(key.index, At(dev, key))), t)[LookupPosition(key)].index ==
           LookupPosition(key);
  }

  // ------------------------------------------------------------------------------------------- one reply

  lemma RangesJoin(lo: nat, mid: nat, hi: nat)
    requires lo <= mid <= hi
    ensures Range(lo, mid) + Range(mid, hi) == Range(lo, hi)
  {
  }

  /** What the reads of one type look like after read `r` is answered and others were added. */
  lemma IndicesAfterReply(s: Station, s': Station, r: nat, more: seq<Key>, t: DescType)
    requires r < |s.queued| && s'.queued == s.queued + more
    ensures IndicesOf(Unanswered(s', r + 1), t) == IndicesOf(s.queued[r + 1..], t) + IndicesOf(more, t)
  {
    assert s'.queued[r + 1..] == s.queued[r + 1..] + more;
    IndicesAppend(s.queued[r + 1..], more, t);
  }

  /** A type whose vector is not touched stays lined up when `more` continues its reads. */
  lemma OthersStayLined(s: Station, s': Station, r: nat, more: seq<Key>, t: DescType, n: nat, n': nat)
    requires Lined(s, r, t, n) && r < |s.queued| && t != s.queued[r].descType
    requires Vec(s'.store, t) == Vec(s.store, t) && s'.queued == s.queued + more
    requires n <= n' && IndicesOf(more, t) == Range(n, n')
    ensures Lined(s', r + 1, t, n')
  {
    IndicesAfterReply(s, s', r, more, t);
    IndicesFromHead(s.queued, r, t);
    hide IndicesOf, Vec;
    hide Range, Unanswered;
    RangesJoin(|Vec(s.store, t)|, n, n');
    assert [] + IndicesOf(s.queued[r + 1..], t) == IndicesOf(s.queued[r + 1..], t);
  }

  /** The type that was read moves one index from its reads to its vector. */
  lemma HeadStaysLined(dev: Device, s: Station, s': Station, r: nat, more: seq<Key>, n: nat)
    requires r < |s.queued| && IsLookedUp(s.queued[r].descType) && Lined(s, r, s.queued[r].descType, n)
    requires s'.store == StoreIn(s.store, s.queued[r].descType, Stored(s.queued[r].index, At(dev, s.queued[r])))
    requires s'.queued == s.queued + more && IndicesOf(more, s.queued[r].descType) == []
    ensures Lined(s', r + 1, s.queued[r].descType, n)
  {
    var key := s.queued[r];
    HeadIsNext(s, r, key.descType, n);
    StoredAtTheEnd(dev, s.store, key);
    IndicesAfterReply(s, s', r, more, key.descType);
    hide IndicesOf, Unanswered, StoreIn, Put, Vec, NumberedInTurn, At;
    var left := IndicesOf(s.queued[r + 1..], key.descType);
    assert left + [] == left;
    hide Range;
    assert |Vec(s'.store, key.descType)| == |Vec(s.store, key.descType)| + 1;
  }

  // ------------------------------------------------------------------------------------- the reads it leads to

  lemma PortsAreNumberedOn(dev: Device, unit: uint16, port: DescType)
    requires Dense(dev) && unit < UnitCount(dev) && IsStreamPort(port)
    ensures var block := PortsOf(dev, port, unit);
            && block.base == PortsBefore(dev, port, unit)
            && PortsBefore(dev, port, unit + 1) == block.base + block.count <= TWO_16
  {
    assert FollowsOn(dev, port, unit);
  }

  lemma StreamPortIndices(dev: Device, unit: uint16, port: DescType)
    requires Dense(dev) && unit < UnitCount(dev) && IsStreamPort(port)
    ensures IndicesOf(Children(dev, Key(AudioUnit, unit)), port) ==
            Range(PortsBefore(dev, port, unit), PortsBefore(dev, port, unit + 1))
  {
    hide Reads, Dense, IndicesOf, PortsBefore, CountOf;
    PortsAreNumberedOn(dev, unit, port);
    ReadsInOrder(AudioUnit, At(dev, Key(AudioUnit, unit)), At(dev, Key(Locale, 0)).strings.count, port);
  }

  /** How many more descriptors of a looked-up type a read of `key` makes due. */
  function MoreDue(dev: Device, key: Key, t: DescType): nat {
    if key.descType == AudioUnit && IsStreamPort(t) then PortsOf(dev, t, key.index).count else 0
  }

  lemma ChildrenContinueTheReads(dev: Device, key: Key, t: DescType, n: nat)
    requires Dense(dev) && IsOrdinary(key.descType) && IsLookedUp(t)
    requires key.descType == AudioUnit ==> key.index < UnitCount(dev)
    requires key.descType == AudioUnit && IsStreamPort(t) ==> n == PortsBefore(dev, t, key.index)
    ensures IndicesOf(Children(dev, key), t) == Range(n, n + MoreDue(dev, key, t))
  {
    if key.descType == AudioUnit && IsStreamPort(t) {
      StreamPortIndices(dev, key.index, t);
    } else {
      ReadsInOrder(key.descType, At(dev, key), At(dev, Key(Locale, 0)).strings.count, t);
    }
  }

  lemma FirstReplyIsLined(dev: Device, s': Station, t: DescType)
    requires Dense(dev) && IsLookedUp(t) && s'.store == map[] &&
             Unanswered(s', 1) == CountKeys(At(dev, CONFIGURATION).counts)
    ensures Vec(s'.store, AudioUnit) == [] && Lined(s', 1, t, Due(dev, s', t))
  {
    CountIndices(At(dev, CONFIGURATION).counts, t);
    assert Vec(s'.store, t) == [] && Vec(s'.store, AudioUnit) == [];
    hide Unanswered, CountKeys, IndicesOf, Vec;
  }

  lemma FirstReplyIsOrderly(dev: Device, s': Station)
    requires Dense(dev) && s'.store == map[] && s'.configs != []
    requires s'.queued == [CONFIGURATION] + Children(dev, CONFIGURATION)
    ensures Orderly(dev, s', 1)
  {
    assert Unanswered(s', 1) == CountKeys(At(dev, CONFIGURATION).counts);
    hide Unanswered, Lined, Dense, Due, CountKeys, Children;
    assert Vec(s'.store, AudioUnit) == [];
    forall t | IsLookedUp(t) ensures Lined(s', 1, t, Due(dev, s', t)) {
      FirstReplyIsLined(dev, s', t);
    }
  }

  lemma VectorsGrowAlone(store: Store, t: DescType, d: Stored<Contents>, u: DescType)
    ensures t != u ==> Vec(StoreIn(store, t, d), u) == Vec(store, u)
  {
  }

  lemma LinedUpToTheUnit(dev: Device, s: Station, r: nat, key: Key, t: DescType)
    requires Orderly(dev, s, r) && s.configs != [] && IsLookedUp(t) && r < |s.queued| && key == s.queued[r]
    ensures |Vec(s.store, AudioUnit)| <= TWO_16 && Lined(s, r, t, Due(dev, s, t))
    ensures key.descType == AudioUnit ==> key.index == |Vec(s.store, AudioUnit)| < UnitCount(dev)
    ensures key.descType == AudioUnit && IsStreamPort(t) ==> Due(dev, s, t) == PortsBefore(dev, t, key.index)
  {
    if key.descType == AudioUnit {
      assert Lined(s, r, AudioUnit, Due(dev, s, AudioUnit));
      HeadIsNext(s, r, AudioUnit, UnitCount(dev));
    }
  }

  /** One type at a time, a later reply keeps the reads in line with the vectors. */
  lemma LaterReplyKeepsLined(dev: Device, s: Station, s': Station, r: nat, key: Key, t: DescType)
    requires Dense(dev) && Orderly(dev, s, r) && s.configs != [] && IsLookedUp(t)
    requires r < |s.queued| && key == s.queued[r] && IsOrdinary(key.descType)
    requires s'.store == StoreIn(s.store, key.descType, Stored(key.index, At(dev, key)))
    requires s'.queued == s.queued + Children(dev, key)
    ensures Lined(s', r + 1, t, Due(dev, s, t) + MoreDue(dev, key, t))
  {
    hide Dense, Orderly, Lined, IndicesOf, Unanswered, Children, StoreIn, Vec, PortsBefore, UnitCount;
    LinedUpToTheUnit(dev, s, r, key, t);
    var n, extra := Due(dev, s, t), MoreDue(dev, key, t);
    ChildrenContinueTheReads(dev, key, t, n);
    assert t == key.descType ==> extra == 0;
    LinedWithMore(dev, s, s', r, key, Children(dev, key), t, n, extra);
  }

  lemma LinedWithMore(dev: Device, s: Station, s': Station, r: nat, key: Key, more: seq<Key>, t: DescType, n: nat,
          extra: nat)
    requires Lined(s, r, t, n) && IsLookedUp(t) && r < |s.queued| && key == s.queued[r]
    requires s'.store == StoreIn(s.store, key.descType, Stored(key.index, At(dev, key)))
    requires s'.queued == s.queued + more
    requires IndicesOf(more, t) == Range(n, n + extra) && (t == key.descType ==> extra == 0)
    ensures Lined(s', r + 1, t, n + extra)
  {
    VectorsGrowAlone(s.store, key.descType, Stored(key.index, At(dev, key)), t);
    hide Lined, IndicesOf, Unanswered, StoreIn, Vec;
    if t == key.descType {
      HeadStaysLined(dev, s, s', r, more, n);
    } else {
      OthersStayLined(s, s', r, more, t, n, n + extra);
    }
  }

  /** A further CONFIGURATION is not stored and leads to no reads. */
  lemma SecondConfigurationKeepsOrderly(dev: Device, s: Station, s': Station, r: nat)
    requires Orderly(dev, s, r) && s.configs != [] && s'.configs != []
    requires r < |s.queued| && CONFIGURATION == s.queued[r] && s'.store == s.store && s'.queued == s.queued + []
    ensures Orderly(dev, s', r + 1)
  {
    hide IndicesOf, Unanswered;
    forall t | IsLookedUp(t) ensures Lined(s', r + 1, t, Due(dev, s', t)) {
      assert Lined(s, r, t, Due(dev, s, t));
      ConfigurationHasNoIndices(t);
      OthersStayLined(s, s', r, [], t, Due(dev, s, t), Due(dev, s, t));
    }
  }

  lemma ConfigurationHasNoIndices(t: DescType)
    ensures IndicesOf([], t) == []
  {
  }

  /** The audio units stored after a reply, which decide how many stream ports are due. */
  lemma UnitsAfterReply(dev: Device, s: Station, s': Station, r: nat, key: Key)
    requires Faithful(dev, s) && Orderly(dev, s, r) && s.configs != []
    requires r < |s.queued| && key == s.queued[r] && IsOrdinary(key.descType)
    requires s'.store == StoreIn(s.store, key.descType, Stored(key.index, At(dev, key)))
    ensures var units, units' := |Vec(s.store, AudioUnit)|, |Vec(s'.store, AudioUnit)|;
            && units' == units + (if key.descType == AudioUnit then 1 else 0)
            && units' <= UnitCount(dev)
            && (key.descType == AudioUnit ==> key.index == units)
  {
    assert Lined(s, r, AudioUnit, Due(dev, s, AudioUnit));
    if key.descType == AudioUnit {
      HeadIsNext(s, r, AudioUnit, UnitCount(dev));
      StoredAtTheEnd(dev, s.store, key);
    } else {
      VectorsGrowAlone(s.store, key.descType, Stored(key.index, At(dev, key)), AudioUnit);
    }
  }

  lemma DueAfterReply(dev: Device, s: Station, s': Station, key: Key, t: DescType)
    requires var units, units' := |Vec(s.store, AudioUnit)|, |Vec(s'.store, AudioUnit)|;
             && units' == units + (if key.descType == AudioUnit then 1 else 0)
             && units' <= UnitCount(dev)
             && (key.descType == AudioUnit ==> key.index == units)
    requires IsLookedUp(t)
    ensures Due(dev, s, t) + MoreDue(dev, key, t) == Due(dev, s', t)
  {
  }

  lemma LaterReplyKeepsOrderly(dev: Device, s: Station, s': Station, r: nat, key: Key)
    requires Dense(dev) && Faithful(dev, s) && Orderly(dev, s, r) && s.configs != [] && s'.configs != []
    requires r < |s.queued| && key == s.queued[r] && IsOrdinary(key.descType)
    requires s'.store == StoreIn(s.store, key.descType, Stored(key.index, At(dev, key)))
    requires s'.queued == s.queued + Children(dev, key)
    ensures Orderly(dev, s', r + 1)
  {
    hide Lined, StoreIn, Vec, Children, Faithful, Dense, Due, MoreDue, UnitCount;
    UnitsAfterReply(dev, s, s', r, key);
    forall t | IsLookedUp(t) ensures Lined(s', r + 1, t, Due(dev, s', t)) {
      DueAfterReply(dev, s, s', key, t);
      LaterReplyKeepsLined(dev, s, s', r, key, t);
    }
  }

  lemma WhatReplyStores(dev: Device, s: Station, key: Key, now: nat)
    requires Faithful(dev, s) && IsRead(key) && Straight(dev, s, Reply(key, true, now))
    ensures var kept, more := Kept(dev, s, key, true), NewReads(dev, s, key, true);
            && (s.configs == [] && key == CONFIGURATION ==>
                  kept.configs != [] && kept.store == map[] && more == Children(dev, CONFIGURATION))
            && (s.configs != [] ==> kept.configs != [])
            && (s.configs != [] && key == CONFIGURATION ==> kept.store == s.store && more == [])
            && (s.configs != [] && key != CONFIGURATION ==>
                  && kept.store == StoreIn(s.store, key.descType, Stored(key.index, At(dev, key)))
                  && more == Children(dev, key))
  {
    hide StoreIn, Children, NewReads, RightContents, Straight, Aligned, Asked, At;
    StraightReads(dev, s, key, true, now);
  }

  lemma ReplyKeepsOrderly(dev: Device, s: Station, r: nat, now: nat)
    requires Dense(dev) && Faithful(dev, s) && Closed(dev, s) && Orderly(dev, s, r)
    requires r < |s.sent| && Straight(dev, s, Reply(s.sent[r], true, now))
    ensures Orderly(dev, Process(s, ReplyFor(dev, s.sent[r], true), now), r + 1)
  {
    var key := s.sent[r];
    var s' := Process(s, ReplyFor(dev, key, true), now);
    ReplyResult(dev, s, r, now);
    hide Process, Dense, LookupsDefined, Children, Possible, StoreIn, Closed, Lined, Due;
    if s.configs == [] {
      FirstReplyIsOrderly(dev, s');
    } else if key == CONFIGURATION {
      SecondConfigurationKeepsOrderly(dev, s, s', r);
    } else {
      LaterReplyKeepsOrderly(dev, s, s', r, key);
    }
  }

  /** A successful reply to the oldest unanswered read, in the three cases there are. */
  lemma ReplyResult(dev: Device, s: Station, r: nat, now: nat)
    requires Faithful(dev, s) && Closed(dev, s)
    requires r < |s.sent| && Straight(dev, s, Reply(s.sent[r], true, now))
    ensures var key, s' := s.sent[r], Process(s, ReplyFor(dev, s.sent[r], true), now);
            && r < |s.queued| && key == s.queued[r] && s'.configs != []
            && (s.configs == [] ==>
                  key == CONFIGURATION && s'.store == map[] && s'.queued == s.queued + Children(dev, CONFIGURATION))
            && (s.configs != [] && key == CONFIGURATION ==> s'.store == s.store && s'.queued == s.queued + [])
            && (s.configs != [] && key != CONFIGURATION ==>
                  && IsOrdinary(key.descType)
                  && s'.store == StoreIn(s.store, key.descType, Stored(key.index, At(dev, key)))
                  && s'.queued == s.queued + Children(dev, key))
  {
    var key := s.sent[r];
    assert key == s.queued[r] && key in s.queued;
    hide Process, LookupsDefined, Children, Possible, Kept, NewReads, Outstanding, Rest, Done, StoreIn;
    ReplyEffect(dev, s, key, true, now);
    WhatReplyStores(dev, s, key, now);
    hide RightContents;
  }

  // ------------------------------------------------------------------------------------------------ all runs

  lemma TickKeepsOrderly(dev: Device, s: Station, r: nat, now: nat)
    requires Faithful(dev, s) && Orderly(dev, s, r)
    ensures Orderly(dev, Tick(s, now), r)
  {
    TickEffect(s, now);
    SameReadsStayOrderly(dev, s, Tick(s, now), r);
  }

  lemma SameReadsStayOrderly(dev: Device, s: Station, s': Station, r: nat)
    requires Orderly(dev, s, r) && s'.configs == s.configs && s'.store == s.store && s'.queued == s.queued
    ensures Orderly(dev, s', r)
  {
    hide IndicesOf;
    if s.configs != [] {
      forall t | IsLookedUp(t) ensures Lined(s', r, t, Due(dev, s', t)) {
        assert Lined(s, r, t, Due(dev, s, t));
      }
    }
  }

  /** Every read answered so far is stored. */
  ghost predicate AnsweredAreStored(s: Station, r: nat) {
    r <= |s.sent| <= |s.queued| && forall i :: 0 <= i < r ==> IsStored(s, s.queued[i])
  }

  /** Everything an orderly run keeps. */
  ghost predicate InLine(dev: Device, s: Station, r: nat) {
    Faithful(dev, s) && Conserved(s) && QuietWhenIdle(s) && Closed(dev, s) && Orderly(dev, s, r) &&
    AnsweredAreStored(s, r) && s.refused == []
  }

  lemma ReplyKeepsAnswered(dev: Device, s: Station, r: nat, now: nat)
    requires Faithful(dev, s) && Closed(dev, s) && AnsweredAreStored(s, r)
    requires r < |s.sent| && Straight(dev, s, Reply(s.sent[r], true, now))
    ensures var s' := Process(s, ReplyFor(dev, s.sent[r], true), now);
            AnsweredAreStored(s', r + 1) && s'.refused == s.refused
  {
    hide Process, LookupsDefined, Kept, NewReads, Outstanding, Rest, Done, IsStored, IsAnswer, Aligned, Closed,
      RightContents, At, QuietWhenIdle, Keys;
    var key := s.sent[r];
    assert key == s.queued[r] && key in Asked(s);
    AnswersAreRead(dev, s, key);
    ReplyEffect(dev, s, key, true, now);
    StoredAfter(dev, s, key, true, now);
    assert s.refused + [] == s.refused;
  }

  lemma AfterKeepsInLine(dev: Device, s: Station, event: DeviceEvent, r: nat)
    requires Dense(dev) && InLine(dev, s, r) && InOrder(s, event, r)
    ensures Straight(dev, s, event)
    ensures InLine(dev, After(dev, s, event), r + if event.Reply? then 1 else 0)
  {
    hide Faithful, Conserved, QuietWhenIdle, Closed, Orderly, Process, Tick, LookupsDefined, Possible;
    InOrderIsStraight(dev, s, event, r);
    AfterKeepsFaithful(dev, s, event);
    AfterKeepsClosed(dev, s, event);
    match event
    case Reply(key, ok, now) =>
      ReplyKeepsOrderly(dev, s, r, now);
      ReplyKeepsAnswered(dev, s, r, now);
    case TickAt(now) =>
      TickKeepsOrderly(dev, s, r, now);
      TickKeepsAnswered(dev, s, r, now);
  }

  lemma TickKeepsAnswered(dev: Device, s: Station, r: nat, now: nat)
    requires Faithful(dev, s) && AnsweredAreStored(s, r)
    ensures AnsweredAreStored(Tick(s, now), r) && Tick(s, now).refused == s.refused
  {
    TickEffect(s, now);
    hide Tick;
    assert forall k :: IsStored(Tick(s, now), k) <==> IsStored(s, k);
  }

  lemma BeginsInLine(dev: Device, now: nat)
    requires Dense(dev)
    ensures InLine(dev, Begin(dev, now), 0)
  {
    BeginEffect(dev, now);
    BeginIsClosed(dev, now);
    hide Begin, Closed, Faithful, Conserved;
  }

  lemma {:induction false} OrderlyRunsStayInLine(dev: Device, states: seq<Station>, events: seq<DeviceEvent>, n: nat)
    requires Dense(dev) && IsOrderlyRun(dev, states, events) && n < |states|
    ensures InLine(dev, states[n], Answered(events, n))
  {
    hide After, Possible, LookupsDefined, Process, Tick, Begin, Dense, Closed, Conserved, Orderly;
    if n == 0 {
      var now :| states[0] == Begin(dev, now);
      BeginsInLine(dev, now);
    } else {
      OrderlyRunsStayInLine(dev, states, events, n - 1);
      assert HappensInOrder(dev, states, events, n - 1);
      AfterKeepsInLine(dev, states[n - 1], events[n - 1], Answered(events, n - 1));
    }
  }

  /** Once every read that was queued is answered, every reachable descriptor is stored. */
  lemma AllAnsweredMeansAllStored(dev: Device, s: Station)
    requires InLine(dev, s, |s.queued|)
    ensures forall k :: IsStored(s, k) <==> Reachable(dev, k)
  {
    forall k | Reachable(dev, k) ensures IsStored(s, k) {
      var path :| IsPath(dev, path) && path[|path| - 1] == k;
      PathIsStored(dev, s, path);
    }
  }

  lemma {:induction false} PathIsStored(dev: Device, s: Station, path: seq<Key>)
    requires InLine(dev, s, |s.queued|) && IsPath(dev, path)
    ensures IsStored(s, path[|path| - 1])
  {
    var n := |path| - 1;
    if n > 0 {
      PathIsStored(dev, s, path[..n]);
      hide IsStored, IsChild, Orderly, RightContents, IsLost;
      var c := path[n];
      assert IsAccountedFor(s, c);
      AccountedForIsStored(dev, s, c);
    }
  }

  lemma AccountedForIsStored(dev: Device, s: Station, c: Key)
    requires InLine(dev, s, |s.queued|) && IsAccountedFor(s, c)
    ensures IsStored(s, c)
  {
    hide Faithful, Closed, Orderly, Conserved, IsStored, IsAccountedFor;
    if !IsStored(s, c) {
      UnstoredWasQueued(s, c);
      assert false;
    }
  }

  lemma UnstoredWasQueued(s: Station, c: Key)
    requires Conserved(s) && IsAccountedFor(s, c) && !IsStored(s, c)
    ensures c in s.queued
  {
    if IsLost(s, c) {
      LostWasQueued(s, c);
    } else if c in Keys(s.inflight) {
      assert multiset(s.sent)[c] >= multiset(Keys(s.inflight))[c] > 0;
      assert c in s.sent;
    }
  }

  /**
   * On a dense device every run in which replies come in the order of the reads is one of the runs above, even if
   * reads time out before they are answered: no lookup leaves its vector, and each finds the descriptor it means.
   * The stored descriptors are exactly the reachable ones whenever the lists are empty and no read timed out, and
   * whenever every read has been answered.
   */
  lemma DenseDevicesEnumerateInOrder(dev: Device, states: seq<Station>, events: seq<DeviceEvent>)
    requires Dense(dev) && IsOrderlyRun(dev, states, events)
    ensures IsDeviceRun(dev, states, events) && StraightUpTo(dev, states, events, |events|)
    ensures forall n :: 0 <= n < |states| ==>
              var s := states[n];
              && s.refused == [] && RightContents(dev, s.store)
              && ((s.Quiet() && s.timedOut == []) || Answered(events, n) == |s.queued| ==>
                    s.HasConfig() && forall k :: IsStored(s, k) <==> Reachable(dev, k))
  {
    forall i | 0 <= i < |events|
      ensures Happens(dev, states, events, i) && WasStraight(dev, states, events, i)
    {
      OrderlyRunsStayInLine(dev, states, events, i);
      assert HappensInOrder(dev, states, events, i);
      AfterKeepsInLine(dev, states[i], events[i], Answered(events, i));
    }
    forall n | 0 <= n < |states|
      ensures var s := states[n];
              && s.refused == [] && RightContents(dev, s.store)
              && ((s.Quiet() && s.timedOut == []) || Answered(events, n) == |s.queued| ==>
                    s.HasConfig() && forall k :: IsStored(s, k) <==> Reachable(dev, k))
    {
      OrderlyRunsStayInLine(dev, states, events, n);
      AnsweredOrQuiet(dev, states, events, n);
    }
  }

  lemma AnsweredOrQuiet(dev: Device, states: seq<Station>, events: seq<DeviceEvent>, n: nat)
    requires Supported(dev) && IsDeviceRun(dev, states, events) && StraightUpTo(dev, states, events, |events|)
    requires n < |states| && InLine(dev, states[n], Answered(events, n))
    ensures var s := states[n];
            (s.Quiet() && s.timedOut == []) || Answered(events, n) == |s.queued| ==>
              s.HasConfig() && forall k :: IsStored(s, k) <==> Reachable(dev, k)
  {
    var s := states[n];
    if s.Quiet() && s.timedOut == [] {
      assert forall i :: 0 <= i < n ==> WasStraight(dev, states, events, i);
      EnumerationIsReachability(dev, states, events, n);
    } else if Answered(events, n) == |s.queued| {
      AllAnsweredMeansAllStored(dev, s);
      ConfigurationIsStored(dev, s);
    }
  }
}
