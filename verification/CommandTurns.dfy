/**
 * The turns of the loop of `tick` in any run, inside the sequence window or not: what one turn does to the table, and
 * when a resend goes astray, which is when the entry that is sent again has the id of an earlier live one.
 */
module CommandTurns {
  import opened Basics
  import opened Commands
  import opened CommandStories

  // -------------------------------------------------------------------------------- what every run records

  /** `e` carries what was submitted under its serial number. */
  ghost predicate IsEntryOf(e: Inflight, orders: seq<Order>) {
    && e.serial < |orders|
    && e.frame == orders[e.serial].frame.(seqId := e.serial % TWO_16)
    && e.notificationId == orders[e.serial].notificationId
    && e.notificationFlag == orders[e.serial].notificationFlag
  }

  /** Every entry is of its order, and nothing is said about a command that was not submitted yet. */
  ghost predicate RecordsOk(m: Machine) {
    && IdsOk(m)
    && (forall i :: 0 <= i < |m.cmds| ==> IsEntryOf(m.cmds[i], m.orders))
    && (forall s: nat :: s >= |m.orders| ==> Story(m.log, s) == [])
  }

  /** The same entry but for its timer. */
  ghost predicate SameCommand(e: Inflight, e': Inflight) {
    && e'.serial == e.serial && e'.seqId == e.seqId && e'.frame == e.frame
    && e'.notificationId == e.notificationId && e'.notificationFlag == e.notificationFlag
    && e'.timeoutMs == e.timeoutMs && e'.firstSentAt == e.firstSentAt
  }

  ghost predicate SameCommands(cmds: seq<Inflight>, cmds': seq<Inflight>) {
    |cmds'| == |cmds| && forall i :: 0 <= i < |cmds| ==> SameCommand(cmds[i], cmds'[i])
  }

  lemma SameLives(cmds: seq<Inflight>, cmds': seq<Inflight>, s: nat)
    requires SameCommands(cmds, cmds')
    ensures Live(cmds', s) <==> Live(cmds, s)
  {
    if Live(cmds, s) {
      var i :| 0 <= i < |cmds| && cmds[i].serial == s;
      assert cmds'[i].serial == s;
    }
    if Live(cmds', s) {
      var i :| 0 <= i < |cmds| && cmds'[i].serial == s;
      assert cmds[i].serial == s;
    }
  }

  lemma RecordsOfSame(m: Machine, cmds: seq<Inflight>, outs: seq<Output>, serial: nat)
    requires RecordsOk(m) && SameCommands(m.cmds, cmds) && serial < |m.orders|
    requires forall o :: o in outs ==> o.serial == serial
    ensures RecordsOk(m.(cmds := cmds, log := m.log + outs))
  {
    hide Story;
    SameIdsOk(m, m.(cmds := cmds, log := m.log + outs));
    StoriesAfter(m.log, outs, serial);
  }

  lemma RecordsOfRest(m: Machine, i: nat, outs: seq<Output>)
    requires RecordsOk(m) && i < |m.cmds|
    requires forall o :: o in outs ==> o.serial == m.cmds[i].serial
    ensures RecordsOk(m.(cmds := RemoveAt(m.cmds, i), log := m.log + outs))
  {
    assert m.cmds[i].serial < |m.orders|;
    hide Story, IdsOk, IsEntryOf;
    RemoveKeepsIds(m, i, m.log + outs);
    StoriesAfter(m.log, outs, m.cmds[i].serial);
    var rest := RemoveAt(m.cmds, i);
    assert forall k :: 0 <= k < |rest| ==> rest[k] == m.cmds[if k < i then k else k + 1];
  }

  lemma RecordsAfterSend(kind: Kind, m: Machine, order: Order, now: nat)
    requires RecordsOk(m)
    ensures RecordsOk(Send(kind, m, order, now))
    ensures Story(m.log, |m.orders|) == []
  {
    var m', e := Send(kind, m, order, now), NewEntry(kind, order, m.nextSeqId, |m.orders|, now);
    SendKeepsIds(kind, m, order, now);
    assert IsEntryOf(e, m'.orders);
    hide Story, IdsOk, Launch, AcmpTimeoutMs;
    StoriesAfter(m.log, Launch(kind, e, now), |m.orders|);
    forall k | 0 <= k < |m'.cmds| ensures IsEntryOf(m'.cmds[k], m'.orders) {
      assert k < |m.cmds| ==> IsEntryOf(m.cmds[k], m.orders);
    }
  }

  lemma AboutOne(kind: Kind, e: Inflight, response: Frame, now: nat)
    ensures forall o :: o in Settle(kind, e, response) ==> o.serial == e.serial
    ensures forall o :: o in Launch(kind, e, now) || o in GiveUp(kind, e, now) ==> o.serial == e.serial
  {
  }

  lemma RecordsAfterReceive(kind: Kind, m: Machine, response: Frame)
    requires RecordsOk(m)
    ensures RecordsOk(Receive(kind, m, response))
  {
    hide RecordsOk, Settle;
    var j := FindSeqId(m.cmds, response.seqId);
    if Admits(kind, response) && j < |m.cmds| {
      AboutOne(kind, m.cmds[j], response, 0);
      RecordsOfRest(m, j, Settle(kind, m.cmds[j], response));
    }
  }

  // --------------------------------------------------------------------------------------- what a turn does

  /** The table after the turn of an entry that is sent again: the first entry with its id is restarted. */
  function Restarted(cmds: seq<Inflight>, i: nat, now: nat): (cmds': seq<Inflight>)
    requires i < |cmds|
  {
    var polled := cmds[i := cmds[i].Polled(now)];
    var f := FindSeqId(cmds, cmds[i].seqId);
    if f < |cmds| then polled[f := polled[f].StartTimer(now)] else polled
  }

  /** The three things that a turn can do. */
  lemma TurnCases(kind: Kind, m: Machine, i: nat, now: nat)
    requires IdsOk(m) && i < |m.cmds|
    ensures var e, next := m.cmds[i], Turn(kind, m, i, now);
            next == if !IsExpired(e, now) then m.(cmds := m.cmds[i := e.Polled(now)])
                    else if e.Retried() then m.(cmds := RemoveAt(m.cmds, i), log := m.log + GiveUp(kind, e, now))
                    else m.(cmds := Restarted(m.cmds, i, now), log := m.log + Launch(kind, e, now))
    ensures FindSeqId(m.cmds, m.cmds[i].seqId) <= i
  {
    hide Launch, GiveUp, FindSeqId, RemoveAt;
    PollingChangesNoId(m.cmds, i, now);
    PollingChangesNoOutput(kind, m.cmds[i], now);
  }

  lemma PollingChangesNoId(cmds: seq<Inflight>, i: nat, now: nat)
    requires i < |cmds|
    ensures var polled := cmds[i := cmds[i].Polled(now)];
            && RemoveAt(polled, i) == RemoveAt(cmds, i)
            && FindSeqId(polled, cmds[i].seqId) == FindSeqId(cmds, cmds[i].seqId)
  {
    hide FindSeqId, FindFirst;
    var polled := cmds[i := cmds[i].Polled(now)];
    var f, f' := FindSeqId(cmds, cmds[i].seqId), FindSeqId(polled, cmds[i].seqId);
    assert polled[i].seqId == cmds[i].seqId;
    assert f <= i && f' <= i && polled[f].seqId == cmds[f].seqId && polled[f'].seqId == cmds[f'].seqId;
  }

  lemma PollingChangesNoOutput(kind: Kind, e: Inflight, now: nat)
    ensures GiveUp(kind, e.Polled(now), now) == GiveUp(kind, e, now)
    ensures Launch(kind, e.Polled(now), now) == Launch(kind, e, now)
  {
  }

  lemma RestartedAreSame(cmds: seq<Inflight>, i: nat, now: nat)
    requires i < |cmds|
    ensures SameCommands(cmds, cmds[i := cmds[i].Polled(now)])
    ensures SameCommands(cmds, Restarted(cmds, i, now))
  {
  }

  lemma TurnKeepsRecords(kind: Kind, m: Machine, i: nat, now: nat)
    requires RecordsOk(m) && i < |m.cmds|
    ensures RecordsOk(Turn(kind, m, i, now))
  {
    var e := m.cmds[i];
    assert e.serial < |m.orders|;
    TurnCases(kind, m, i, now);
    hide RecordsOk, Turn, SameCommands, Restarted, Launch, GiveUp, IsExpired;
    RestartedAreSame(m.cmds, i, now);
    AboutOne(kind, e, e.frame, now);
    if !IsExpired(e, now) {
      RecordsOfSame(m, m.cmds[i := e.Polled(now)], [], e.serial);
      assert m.log + [] == m.log;
    } else if e.Retried() {
      RecordsOfRest(m, i, GiveUp(kind, e, now));
    } else {
      RecordsOfSame(m, Restarted(m.cmds, i, now), Launch(kind, e, now), e.serial);
    }
  }

  lemma {:induction false} TickKeepsRecords(kind: Kind, m: Machine, i: nat, now: nat)
    requires RecordsOk(m)
    ensures RecordsOk(TickFrom(kind, m, i, now))
    decreases |m.cmds| - i
  {
    hide RecordsOk, Turn;
    if i < |m.cmds| {
      TurnKeepsRecords(kind, m, i, now);
      TickKeepsRecords(kind, Turn(kind, m, i, now), i + 1, now);
    }
  }

  lemma {:induction false} EveryRunKeepsRecords(kind: Kind, events: seq<Event>)
    ensures RecordsOk(Run(kind, events))
  {
    if events == [] {
      EmptyHasIds();
    } else {
      var n := |events| - 1;
      var before := Run(kind, events[..n]);
      EveryRunKeepsRecords(kind, events[..n]);
      hide RecordsOk, Send, Receive, TickFrom;
      match events[n]
      case SendCommand(order, now) => RecordsAfterSend(kind, before, order, now);
      case ReceiveResponse(response, _) => RecordsAfterReceive(kind, before, response);
      case TimerTick(now) => TickKeepsRecords(kind, before, 0, now);
    }
  }

  // --------------------------------------------------------------------------------- resends that go astray

  /** Entry `i` has the id of an earlier live entry. */
  ghost predicate IsShadowed(m: Machine, i: nat) {
    i < |m.cmds| && exists j :: 0 <= j < i && m.cmds[j].seqId == m.cmds[i].seqId
  }

  /** The turn of entry `i` sends it again. */
  predicate ResendsAt(m: Machine, i: nat, now: nat)
    requires i < |m.cmds|
  {
    IsExpired(m.cmds[i], now) && !m.cmds[i].Retried()
  }

  /** Some turn of a tick from turn `i` on sends an entry again that has the id of an earlier live one. */
  ghost predicate TickStrays(kind: Kind, m: Machine, i: nat, now: nat)
    decreases |m.cmds| - i
  {
    && i < |m.cmds|
    && ((ResendsAt(m, i, now) && IsShadowed(m, i)) || TickStrays(kind, Turn(kind, m, i, now), i + 1, now))
  }

  ghost predicate StraysIn(kind: Kind, events: seq<Event>, n: nat) {
    n < |events| && events[n].TimerTick? && TickStrays(kind, Run(kind, events[..n]), 0, events[n].now)
  }

  /** No tick of the run sent an entry again that had an earlier live entry with its id. */
  ghost predicate NoneStrays(kind: Kind, events: seq<Event>) {
    forall n :: 0 <= n < |events| ==> !StraysIn(kind, events, n)
  }

  lemma TurnKeepsWindow(kind: Kind, m: Machine, i: nat, now: nat)
    requires RecordsOk(m) && InWindow(m) && i < |m.cmds|
    ensures InWindow(Turn(kind, m, i, now))
  {
    TurnCases(kind, m, i, now);
    RestartedAreSame(m.cmds, i, now);
    hide Turn, Restarted, Launch, GiveUp, IsExpired;
    var rest := RemoveAt(m.cmds, i);
    assert forall k :: 0 <= k < |rest| ==> rest[k] == m.cmds[if k < i then k else k + 1];
  }

  lemma {:induction false} NoneStraysInWindow(kind: Kind, m: Machine, i: nat, now: nat)
    requires RecordsOk(m) && InWindow(m)
    ensures !TickStrays(kind, m, i, now)
    decreases |m.cmds| - i
  {
    hide Turn;
    if i < |m.cmds| {
      IdsAreSerialsModulo(m);
      assert !IsShadowed(m, i);
      TurnKeepsRecords(kind, m, i, now);
      TurnKeepsWindow(kind, m, i, now);
      hide RecordsOk, InWindow, IsShadowed;
      NoneStraysInWindow(kind, Turn(kind, m, i, now), i + 1, now);
    }
  }

  /** Inside the sequence window no resend goes astray. */
  lemma WindowMeansNoneStrays(kind: Kind, events: seq<Event>)
    requires StaysInWindow(kind, events)
    ensures NoneStrays(kind, events)
  {
    hide InWindow, TickStrays, Run, RecordsOk;
    forall n | 0 <= n < |events| ensures !StraysIn(kind, events, n) {
      assert WasInWindow(kind, events, n);
      EveryRunKeepsRecords(kind, events[..n]);
      NoneStraysInWindow(kind, Run(kind, events[..n]), 0, events[n].now);
    }
  }

  // ------------------------------------------------------------------------------- the turns of a shadowed entry

  /** No turn of another entry touches a shadowed one, as long as no entry before it is given up. */
  lemma OtherTurn(kind: Kind, m: Machine, p: nat, i: nat, now: nat)
    requires IdsOk(m) && IsShadowed(m, i) && p < |m.cmds| && p != i
    requires p < i ==> !(IsExpired(m.cmds[p], now) && m.cmds[p].Retried())
    ensures var next := Turn(kind, m, p, now);
            && IdsOk(next) && |next.cmds| <= |m.cmds| && IsShadowed(next, i) && next.cmds[i] == m.cmds[i]
            && (p < i ==> |next.cmds| == |m.cmds| && forall q :: p < q < |m.cmds| ==> next.cmds[q] == m.cmds[q])
  {
    hide IdsOk, Turn, Launch, GiveUp, FindSeqId, IsExpired;
    var next := Turn(kind, m, p, now);
    var j :| 0 <= j < i && m.cmds[j].seqId == m.cmds[i].seqId;
    TurnKeepsIds(kind, m, p, now);
    TurnCases(kind, m, p, now);
    FirstIsNotShadowed(m, p, i, j);
    assert next.cmds[j].seqId == m.cmds[j].seqId;
  }

  lemma FirstIsNotShadowed(m: Machine, p: nat, i: nat, j: nat)
    requires p < |m.cmds| && j < i < |m.cmds| && m.cmds[j].seqId == m.cmds[i].seqId
    ensures FindSeqId(m.cmds, m.cmds[p].seqId) <= p && FindSeqId(m.cmds, m.cmds[p].seqId) != i
  {
    assert FindSeqId(m.cmds, m.cmds[p].seqId) <= j || m.cmds[j].seqId != m.cmds[p].seqId;
  }

  lemma AppendToOthers(log: seq<Output>, outs: seq<Output>, serial: nat, s: nat)
    requires s != serial && forall o :: o in outs ==> o.serial == serial
    ensures Story(log + outs, s) == Story(log, s)
  {
    StoryAppend(log, outs, s);
    StoryOfOne(outs, serial, s);
  }

  lemma OtherStory(kind: Kind, m: Machine, p: nat, i: nat, now: nat)
    requires IdsOk(m) && i < |m.cmds| && p < |m.cmds| && p != i
    ensures Story(Turn(kind, m, p, now).log, m.cmds[i].serial) == Story(m.log, m.cmds[i].serial)
  {
    hide Turn, Launch, GiveUp, FindSeqId, Story;
    var e := m.cmds[p];
    TurnCases(kind, m, p, now);
    AboutOne(kind, e, e.frame, now);
    AppendToOthers(m.log, Launch(kind, e, now), e.serial, m.cmds[i].serial);
    AppendToOthers(m.log, GiveUp(kind, e, now), e.serial, m.cmds[i].serial);
  }

  /** Its own turn transmits a shadowed entry and leaves it as it was. */
  lemma OwnTurn(kind: Kind, m: Machine, i: nat, now: nat)
    requires IdsOk(m) && IsShadowed(m, i) && ResendsAt(m, i, now)
    ensures var next, e := Turn(kind, m, i, now), m.cmds[i];
            && IdsOk(next) && |next.cmds| == |m.cmds| && IsShadowed(next, i) && next.cmds[i] == e.Polled(now)
            && Story(next.log, e.serial) == Story(m.log, e.serial) + Launch(kind, e, now)
  {
    hide IdsOk, Turn, Launch, FindSeqId, Story;
    var e, next := m.cmds[i], Turn(kind, m, i, now);
    var j :| 0 <= j < i && m.cmds[j].seqId == m.cmds[i].seqId;
    TurnKeepsIds(kind, m, i, now);
    TurnCases(kind, m, i, now);
    FirstIsNotShadowed(m, i, i, j);
    AboutOne(kind, e, e.frame, now);
    StoriesAfter(m.log, Launch(kind, e, now), e.serial);
    assert next.cmds[j].seqId == m.cmds[j].seqId;
  }

  lemma {:induction false} LaterTurns(kind: Kind, m: Machine, p: nat, i: nat, now: nat)
    requires IdsOk(m) && IsShadowed(m, i) && i < p
    ensures var m' := TickFrom(kind, m, p, now);
            && i < |m'.cmds| && m'.cmds[i] == m.cmds[i]
            && Story(m'.log, m.cmds[i].serial) == Story(m.log, m.cmds[i].serial)
    decreases |m.cmds| - p
  {
    hide IdsOk, IsShadowed, StateTimeout;
    if p < |m.cmds| {
      ShadowedIsThere(m, i);
      OtherTurn(kind, m, p, i, now);
      OtherStory(kind, m, p, i, now);
      var next := Turn(kind, m, p, now);
      assert TickFrom(kind, m, p, now) == TickFrom(kind, next, p + 1, now);
      hide PollAt, Turn, TickFrom;
      LaterTurns(kind, next, p + 1, i, now);
    } else {
      ShadowedIsThere(m, i);
    }
  }

  lemma ShadowedIsThere(m: Machine, i: nat)
    ensures IsShadowed(m, i) ==> i < |m.cmds|
  {
  }
}
