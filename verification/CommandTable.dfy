/**
 * The table of inflight commands as a map, one abstraction for both machines: from the number of each live send to how
 * often it was sent, when its answer is due, and whom to notify.  Inside the sequence window every step of the vector
 * of either machine is a step of the map.
 */
module CommandTable {
  import opened Basics
  import opened Timers
  import opened Commands
  import opened CommandStories
  import opened CommandTicks
  import opened CommandTurns
  import opened CommandOutcomes
  import opened CommandTimes

  datatype Pending = Pending(sends: nat, deadline: nat, notificationId: nat)

  type Table = map<nat, Pending>

  function PendingOf(e: Inflight): Pending {
    Pending(e.startTimerCnt, e.lastSentAt + e.timeoutMs, e.notificationId)
  }

  function TableOf(cmds: seq<Inflight>): Table {
    if cmds == [] then map[]
    else
      var last := cmds[|cmds| - 1];
      TableOf(cmds[..|cmds| - 1])[last.serial := PendingOf(last)]
  }

  // ------------------------------------------------------------------------------------------ steps of the map

  function Deadline(kind: Kind, order: Order, now: nat): nat {
    now + TimeoutFor(kind, order.frame)
  }

  /** A send adds one command. */
  function AfterSend(kind: Kind, t: Table, serial: nat, order: Order, now: nat): Table {
    t[serial := Pending(1, Deadline(kind, order, now), order.notificationId)]
  }

  /** An admitted response takes out the one command whose number it names modulo 2^16, if there is one. */
  ghost predicate IsAfterResponse(kind: Kind, t: Table, response: Frame, t': Table) {
    forall s :: s in t ==> (s in t' <==> !(Admits(kind, response) && s % TWO_16 == response.seqId)) &&
                           (s in t' ==> t'[s] == t[s])
  }

  /** The answer is overdue, by less than the 32-bit clock takes to come round. */
  predicate IsOverdue(p: Pending, now: nat) {
    p.deadline < now <= p.deadline + (TWO_32 - TWO_16)
  }

  ghost predicate EarlierIsGivenUp(t: Table, t': Table, s: nat) {
    exists b :: b in t && b < s && b !in t'
  }

  /**
   * A tick sends a command a second time or gives it up, and only once its answer is overdue; or it leaves the command
   * alone, and an overdue one only if it gives up an earlier one.
   */
  ghost predicate IsAfterTickAt(kind: Kind, t: Table, orders: seq<Order>, now: nat, t': Table, s: nat) {
    s in t ==>
      || (s in t' && t'[s] == t[s] && (IsOverdue(t[s], now) ==> EarlierIsGivenUp(t, t', s)))
      || (s < |orders| && t[s].deadline < now && t[s].sends == 1 &&
          s in t' && t'[s] == t[s].(sends := 2, deadline := Deadline(kind, orders[s], now)))
      || (t[s].deadline < now && t[s].sends == 2 && s !in t')
  }

  ghost predicate IsAfterTick(kind: Kind, t: Table, orders: seq<Order>, now: nat, t': Table) {
    forall s :: s in t ==> IsAfterTickAt(kind, t, orders, now, t', s)
  }

  ghost predicate IsStep(kind: Kind, t: Table, orders: seq<Order>, event: Event, t': Table) {
    match event
    case SendCommand(order, now) => |orders| !in t && t' == AfterSend(kind, t, |orders|, order, now)
    case ReceiveResponse(response, _) => t'.Keys <= t.Keys && IsAfterResponse(kind, t, response, t')
    case TimerTick(now) => t'.Keys <= t.Keys && IsAfterTick(kind, t, orders, now, t')
  }

  // ------------------------------------------------------------------------------------- the vector as a map

  ghost predicate InOrder(cmds: seq<Inflight>) {
    forall i, j :: 0 <= i < j < |cmds| ==> cmds[i].serial < cmds[j].serial
  }

  lemma {:induction false} TableHolds(cmds: seq<Inflight>)
    requires InOrder(cmds)
    ensures forall s: nat :: s in TableOf(cmds) <==> Live(cmds, s)
    ensures forall i :: 0 <= i < |cmds| ==>
              cmds[i].serial in TableOf(cmds) && TableOf(cmds)[cmds[i].serial] == PendingOf(cmds[i])
  {
    hide PendingOf;
    if cmds != [] {
      var front, last := cmds[..|cmds| - 1], cmds[|cmds| - 1];
      TableHolds(front);
      assert cmds == front + [last];
      forall s: nat ensures s in TableOf(cmds) <==> Live(cmds, s) {
        LivesAfterSend(front, last, s);
      }
      forall i | 0 <= i < |cmds|
        ensures cmds[i].serial in TableOf(cmds) && TableOf(cmds)[cmds[i].serial] == PendingOf(cmds[i])
      {
        assert i < |front| ==> cmds[i] == front[i] && cmds[i].serial != last.serial;
      }
    }
  }

  // --------------------------------------------------------------------------------------------- each step

  lemma SendIsAStep(kind: Kind, m: Machine, order: Order, now: nat)
    requires IdsOk(m)
    ensures IsStep(kind, TableOf(m.cmds), m.orders, SendCommand(order, now), TableOf(Send(kind, m, order, now).cmds))
  {
    hide Launch, AcmpTimeoutMs;
    var cmds' := Send(kind, m, order, now).cmds;
    assert cmds'[..|m.cmds|] == m.cmds && cmds'[|m.cmds|].serial == |m.orders|;
    assert |m.orders| !in TableOf(m.cmds) by {
      TableHolds(m.cmds);
    }
  }

  lemma ReceiveIsAStep(kind: Kind, m: Machine, response: Frame, now: nat)
    requires IdsOk(m) && DistinctIds(m.cmds)
    ensures var m' := Receive(kind, m, response);
            IsStep(kind, TableOf(m.cmds), m.orders, ReceiveResponse(response, now), TableOf(m'.cmds))
  {
    hide TableOf, PendingOf, Live;
    TableHolds(m.cmds);
    var j := FindSeqId(m.cmds, response.seqId);
    if Admits(kind, response) && j < |m.cmds| {
      OthersStay(m.cmds, j);
    }
    forall s | s in TableOf(m.cmds)
      ensures Admits(kind, response) && s % TWO_16 == response.seqId ==> j < |m.cmds| && m.cmds[j].serial == s
      ensures j < |m.cmds| && s == m.cmds[j].serial ==> s % TWO_16 == response.seqId
    {
      SerialNamesItsEntry(m, s);
    }
  }

  lemma SerialNamesItsEntry(m: Machine, s: nat)
    requires IdsOk(m) && DistinctIds(m.cmds) && Live(m.cmds, s)
    ensures var j := FindSeqId(m.cmds, s % TWO_16);
            j < |m.cmds| && m.cmds[j].serial == s
  {
    var i :| 0 <= i < |m.cmds| && m.cmds[i].serial == s;
    assert m.cmds[i].seqId == s % TWO_16;
  }

  lemma RestLives(cmds: seq<Inflight>, j: nat, s: nat)
    requires InOrder(cmds) && j < |cmds|
    ensures InOrder(RemoveAt(cmds, j))
    ensures Live(RemoveAt(cmds, j), s) <==> Live(cmds, s) && s != cmds[j].serial
  {
    var rest := RemoveAt(cmds, j);
    assert forall k :: 0 <= k < |rest| ==> rest[k] == cmds[if k < j then k else k + 1];
    if s != cmds[j].serial {
      LivesAfterRemove(cmds, j, s);
    }
  }

  lemma OthersStay(cmds: seq<Inflight>, j: nat)
    requires InOrder(cmds) && j < |cmds|
    ensures var t, t' := TableOf(cmds), TableOf(RemoveAt(cmds, j));
            && t'.Keys <= t.Keys
            && forall s :: s in t ==> (s in t' <==> s != cmds[j].serial) && (s in t' ==> t'[s] == t[s])
  {
    hide PendingOf, TableOf, InOrder, Live;
    var t, rest := TableOf(cmds), RemoveAt(cmds, j);
    forall s: nat ensures InOrder(rest) && (Live(rest, s) <==> Live(cmds, s) && s != cmds[j].serial) {
      RestLives(cmds, j, s);
    }
    RestLives(cmds, j, 0);
    TableHolds(cmds);
    TableHolds(rest);
    forall s | s in t && s != cmds[j].serial ensures TableOf(rest)[s] == t[s] {
      var i := EntryAt(cmds, s);
      assert rest[if i < j then i else i - 1] == cmds[i];
    }
  }

  lemma EntryAt(cmds: seq<Inflight>, s: nat) returns (i: nat)
    requires Live(cmds, s)
    ensures i < |cmds| && cmds[i].serial == s
  {
    i :| 0 <= i < |cmds| && cmds[i].serial == s;
  }

  /** What a sweep leaves is what each entry leaves. */
  lemma {:induction false} SweptMembers(cmds: seq<Inflight>, p: nat, now: nat)
    requires p <= |cmds|
    ensures forall e :: e in Swept(cmds, p, now) ==> exists q :: 0 <= q < p && LeavesEntry(cmds, q, now, e)
    ensures forall q, e :: 0 <= q < p && LeavesEntry(cmds, q, now, e) ==> e in Swept(cmds, p, now)
  {
    hide ActionAt, Outcome;
    if p > 0 {
      SweptMembers(cmds, p - 1, now);
      var left := Outcome(cmds[p - 1], ActionAt(cmds, p - 1, now), now);
      OutcomeKeepsIds(cmds[p - 1], ActionAt(cmds, p - 1, now), now);
      forall e | e in Swept(cmds, p, now) ensures exists q :: 0 <= q < p && LeavesEntry(cmds, q, now, e) {
        if e in left {
          assert LeavesEntry(cmds, p - 1, now, e);
        } else {
          assert e in Swept(cmds, p - 1, now);
          var q :| 0 <= q < p - 1 && LeavesEntry(cmds, q, now, e);
        }
      }
    }
  }

  ghost predicate LeavesEntry(cmds: seq<Inflight>, q: nat, now: nat, e: Inflight) {
    q < |cmds| && Outcome(cmds[q], ActionAt(cmds, q, now), now) == [e]
  }

  lemma LeftWithItsSerial(cmds: seq<Inflight>, q: nat, now: nat, e: Inflight)
    requires LeavesEntry(cmds, q, now, e)
    ensures q < |cmds| && e.serial == cmds[q].serial
  {
  }

  lemma LeftBy(cmds: seq<Inflight>, now: nat, e: Inflight) returns (q: nat)
    requires e in Swept(cmds, |cmds|, now)
    ensures LeavesEntry(cmds, q, now, e) && e.serial == cmds[q].serial
  {
    SweptMembers(cmds, |cmds|, now);
    q :| 0 <= q < |cmds| && LeavesEntry(cmds, q, now, e);
    LeftWithItsSerial(cmds, q, now, e);
  }

  /** What becomes of one command in a tick. */
  lemma TickOfOne(kind: Kind, m: Machine, i: nat, now: nat)
    requires TimesOk(kind, false, m, now) && SentOnceOrTwice(m.cmds) && i < |m.cmds|
    ensures var e, left := m.cmds[i], Outcome(m.cmds[i], ActionAt(m.cmds, i, now), now);
            && e.serial < |m.orders|
            && (left == [] ==> PendingOf(e).deadline < now && PendingOf(e).sends == 2)
            && (left != [] ==>
                  || (PendingOf(left[0]) == PendingOf(e) &&
                      (IsOverdue(PendingOf(e), now) ==> i > 0 && ActionAt(m.cmds, i - 1, now) == Erased))
                  || (&& PendingOf(e).deadline < now && PendingOf(e).sends == 1
                      && PendingOf(left[0]) ==
                         PendingOf(e).(sends := 2, deadline := Deadline(kind, m.orders[e.serial], now))))
  {
    var e := m.cmds[i];
    hide Story, StoriesTimed, IdsOk;
    assert IsEntryOf(e, m.orders) && AgeOk(kind, false, e, now);
    PolledAge(kind, false, e, now);
    assert e.timeoutMs == TimeoutFor(kind, m.orders[e.serial].frame);
    if IsOverdue(PendingOf(e), now) {
      OverdueIsExpired(kind, e, now);
    }
  }

  lemma OverdueIsExpired(kind: Kind, e: Inflight, now: nat)
    requires AgeOk(kind, false, e, now) && IsOverdue(PendingOf(e), now)
    ensures IsExpired(e, now)
  {
    ElapsedMsIsDistance(e.lastSentAt, now);
  }

  /** No command appears in a tick. */
  lemma NoneAppears(cmds: seq<Inflight>, now: nat)
    requires InOrder(cmds) && InOrder(Swept(cmds, |cmds|, now))
    ensures TableOf(Swept(cmds, |cmds|, now)).Keys <= TableOf(cmds).Keys
  {
    hide TableOf, PendingOf, Swept, LeavesEntry;
    var cmds' := Swept(cmds, |cmds|, now);
    TableHolds(cmds);
    TableHolds(cmds');
    forall s | s in TableOf(cmds') ensures s in TableOf(cmds) {
      var k := EntryAt(cmds', s);
      var q := LeftBy(cmds, now, cmds'[k]);
      assert Live(cmds, s);
    }
  }

  lemma IdsAreInOrder(m: Machine)
    requires IdsOk(m)
    ensures InOrder(m.cmds)
  {
  }

  lemma TickIsAStep(kind: Kind, m: Machine, now: nat)
    requires TimesOk(kind, false, m, now) && DistinctIds(m.cmds) && SentOnceOrTwice(m.cmds)
    ensures IsStep(kind, TableOf(m.cmds), m.orders, TimerTick(now), TableOf(Tick(kind, m, now).cmds))
  {
    hide TableOf, PendingOf, Outcome, ActionAt, TickFrom, Swept, StoriesTimed, AgesOk, Deadline, IsEntryOf, IdsOk,
      DistinctIds, InOrder, Live, SentOnceOrTwice,
      EarlierIsGivenUp, IsOverdue;
    var t, cmds' := TableOf(m.cmds), Tick(kind, m, now).cmds;
    TickIsASweep(kind, m, now);
    TickKeepsIds(kind, m, 0, now);
    IdsAreInOrder(m);
    IdsAreInOrder(Tick(kind, m, now));
    NoneAppears(m.cmds, now);
    TableHolds(m.cmds);
    forall s | s in t ensures IsAfterTickAt(kind, t, m.orders, now, TableOf(cmds'), s) {
      var i := EntryAt(m.cmds, s);
      TickOfOne(kind, m, i, now);
      LeftOfOne(m.cmds, cmds', i, now);
      if i > 0 && ActionAt(m.cmds, i - 1, now) == Erased {
        ErasedBefore(m.cmds, i, now);
      }
    }
  }

  lemma ErasedBefore(cmds: seq<Inflight>, i: nat, now: nat)
    requires InOrder(cmds) && InOrder(Swept(cmds, |cmds|, now))
    requires 0 < i < |cmds| && ActionAt(cmds, i - 1, now) == Erased
    ensures EarlierIsGivenUp(TableOf(cmds), TableOf(Swept(cmds, |cmds|, now)), cmds[i].serial)
  {
    hide TableOf, ActionAt, Swept;
    TableHolds(cmds);
    LeftOfOne(cmds, Swept(cmds, |cmds|, now), i - 1, now);
    assert cmds[i - 1].serial in TableOf(cmds);
  }

  /** The map at the number of one entry after a sweep. */
  lemma LeftOfOne(cmds: seq<Inflight>, cmds': seq<Inflight>, i: nat, now: nat)
    requires i < |cmds| && InOrder(cmds) && InOrder(cmds') && cmds' == Swept(cmds, |cmds|, now)
    ensures var s, left := cmds[i].serial, Outcome(cmds[i], ActionAt(cmds, i, now), now);
            && (left == [] ==> s !in TableOf(cmds'))
            && (left != [] ==> s in TableOf(cmds') && TableOf(cmds')[s] == PendingOf(left[0]))
  {
    hide TableOf, PendingOf, Outcome, ActionAt, Swept;
    var s, left := cmds[i].serial, Outcome(cmds[i], ActionAt(cmds, i, now), now);
    TableHolds(cmds');
    OutcomeKeepsIds(cmds[i], ActionAt(cmds, i, now), now);
    if left != [] {
      SweptMembers(cmds, |cmds|, now);
      assert left == [left[0]];
      assert LeavesEntry(cmds, i, now, left[0]);
      var k :| 0 <= k < |cmds'| && cmds'[k] == left[0];
      LeftWithItsSerial(cmds, i, now, left[0]);
    } else if Live(cmds', s) {
      var k := EntryAt(cmds', s);
      var q := LeftBy(cmds, now, cmds'[k]);
      assert false;
    }
  }

  /**
   * Both machines refine the one map: in every run inside the window, each event takes the table to a table that the
   * map allows.
   */
  lemma RunsRefineTheTable(kind: Kind, events: seq<Event>)
    requires events != [] && Monotone(events) && StaysInWindow(kind, events)
    ensures var n := |events| - 1;
            var before, after := Run(kind, events[..n]), Run(kind, events);
            IsStep(kind, TableOf(before.cmds), Submitted(events[..n]), events[n], TableOf(after.cmds))
  {
    hide IsStep, TableOf, Send, Receive, Tick, TimesOk, InWindow, DistinctIds, SentOnceOrTwice, IdsOk, Submitted;
    var n := |events| - 1;
    var before := Run(kind, events[..n]);
    forall k | 0 <= k <= n ensures WasInWindow(kind, events[..n], k) {
      assert events[..n][..k] == events[..k] && WasInWindow(kind, events, k);
    }
    OrdersAreSubmissions(kind, events[..n]);
    RunsAreReadyToSweep(kind, events[..n]);
    EveryRunKeepsIds(kind, events[..n]);
    EveryRunKeepsTimes(kind, false, events[..n]);
    TimesStay(kind, false, before, EndOf(events[..n]), events[n].now);
    match events[n]
    case SendCommand(order, now) => SendIsAStep(kind, before, order, now);
    case ReceiveResponse(response, now) => ReceiveIsAStep(kind, before, response, now);
    case TimerTick(now) => TickIsAStep(kind, before, now);
  }
}
