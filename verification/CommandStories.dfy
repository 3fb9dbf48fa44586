/**
 * What one command can go through, over every run of sends, responses and ticks.  The story of a command is
 * the sequence of outputs that concern it; the invariant fixes that sequence completely.
 */
module CommandStories {
  import opened Basics
  import opened Timers
  import opened Commands

  // -------------------------------------------------------------------------------- shapes of a story

  /** The transmissions of an entry so far. */
  function Trail(kind: Kind, e: Inflight): seq<Output> {
    Launch(kind, e, e.firstSentAt) + (if e.Retried() then Launch(kind, e, e.lastSentAt) else [])
  }

  /** `e` is a state that the entry of send number `serial` can be in at time `now`. */
  ghost predicate EntryOk(kind: Kind, e: Inflight, orders: seq<Order>, now: nat) {
    && e.serial < |orders|
    && e.seqId == e.serial % TWO_16
    && e.frame == orders[e.serial].frame.(seqId := e.seqId)
    && e.notificationId == orders[e.serial].notificationId
    && e.notificationFlag == orders[e.serial].notificationFlag
    && e.timeoutMs == TimeoutFor(kind, e.frame)
    && 1 <= e.startTimerCnt <= 2
    && e.timer.running && e.timer.count == e.timeoutMs && e.timer.startTime == e.lastSentAt % TWO_32
    && e.firstSentAt <= e.lastSentAt <= now
    && (e.timer.elapsed ==> now > e.lastSentAt + e.timeoutMs)
    && (if e.Retried() then e.lastSentAt > e.firstSentAt + e.timeoutMs else e.lastSentAt == e.firstSentAt)
  }

  ghost predicate AnsweredAs(kind: Kind, story: seq<Output>, e: Inflight, response: Frame) {
    && story == Trail(kind, e) + Settle(kind, e, response)
    && Admits(kind, response)
    && response.seqId == e.seqId
  }

  ghost predicate ExpiredAs(kind: Kind, story: seq<Output>, e: Inflight, at: nat) {
    && story == Trail(kind, e) + GiveUp(kind, e, at)
    && e.Retried()
    && at > e.lastSentAt + e.timeoutMs
  }

  ghost predicate WasAnswered(kind: Kind, story: seq<Output>, serial: nat, orders: seq<Order>, now: nat) {
    exists e: Inflight, response: Frame ::
      e.serial == serial && EntryOk(kind, e, orders, now) && AnsweredAs(kind, story, e, response)
  }

  ghost predicate HasExpired(kind: Kind, story: seq<Output>, serial: nat, orders: seq<Order>, now: nat) {
    exists e: Inflight, at: nat ::
      e.serial == serial && EntryOk(kind, e, orders, now) && ExpiredAs(kind, story, e, at) && at <= now
  }

  ghost predicate Settled(kind: Kind, story: seq<Output>, serial: nat, orders: seq<Order>, now: nat) {
    WasAnswered(kind, story, serial, orders, now) || HasExpired(kind, story, serial, orders, now)
  }

  // ------------------------------------------------------------------------------------- the invariant

  ghost predicate EntriesOk(kind: Kind, m: Machine, now: nat) {
    && m.nextSeqId == |m.orders| % TWO_16
    && (forall i :: 0 <= i < |m.cmds| ==> EntryOk(kind, m.cmds[i], m.orders, now))
    && (forall i, j :: 0 <= i < j < |m.cmds| ==> m.cmds[i].serial < m.cmds[j].serial)
  }

  ghost predicate StoriesOk(kind: Kind, m: Machine, now: nat) {
    && (forall i :: 0 <= i < |m.cmds| ==> Story(m.log, m.cmds[i].serial) == Trail(kind, m.cmds[i]))
    && (forall s: nat :: s >= |m.orders| ==> Story(m.log, s) == [])
    && (forall s: nat :: s < |m.orders| && !Live(m.cmds, s) ==>
          Settled(kind, Story(m.log, s), s, m.orders, now))
  }

  ghost predicate Inv(kind: Kind, m: Machine, now: nat) {
    EntriesOk(kind, m, now) && StoriesOk(kind, m, now)
  }

  // -------------------------------------------------------------------------------------- story algebra

  lemma {:induction false} StoryAppend(log: seq<Output>, outs: seq<Output>, s: nat)
    ensures Story(log + outs, s) == Story(log, s) + Story(outs, s)
  {
    if outs == [] {
      assert log + outs == log;
    } else {
      var n := |outs| - 1;
      assert (log + outs)[..|log| + n] == log + outs[..n];
      StoryAppend(log, outs[..n], s);
    }
  }

  lemma {:induction false} StoryOfOne(outs: seq<Output>, serial: nat, s: nat)
    requires forall i :: 0 <= i < |outs| ==> outs[i].serial == serial
    ensures Story(outs, s) == if s == serial then outs else []
  {
    if outs != [] {
      StoryOfOne(outs[..|outs| - 1], serial, s);
    }
  }

  /** Outputs about one command extend its story and leave every other story alone. */
  lemma StoriesAfter(log: seq<Output>, outs: seq<Output>, serial: nat)
    requires forall o :: o in outs ==> o.serial == serial
    ensures forall s: nat :: Story(log + outs, s) == if s == serial then Story(log, s) + outs else Story(log, s)
  {
    forall s: nat
      ensures Story(log + outs, s) == if s == serial then Story(log, s) + outs else Story(log, s)
    {
      StoryAppend(log, outs, s);
      StoryOfOne(outs, serial, s);
    }
  }

  // ------------------------------------------------------------- every primitive step keeps the invariant

  lemma LaterStill(kind: Kind, m: Machine, now: nat, later: nat)
    requires Inv(kind, m, now) && now <= later
    ensures Inv(kind, m, later)
  {
    forall s: nat | s < |m.orders| && !Live(m.cmds, s)
      ensures Settled(kind, Story(m.log, s), s, m.orders, later)
    {
      SettledStays(kind, Story(m.log, s), s, m.orders, now, m.orders, later);
    }
  }

  lemma SettledStays(kind: Kind, story: seq<Output>, s: nat, orders: seq<Order>, now: nat, more: seq<Order>, later: nat)
    requires now <= later && orders <= more
    requires Settled(kind, story, s, orders, now)
    ensures Settled(kind, story, s, more, later)
  {
    if WasAnswered(kind, story, s, orders, now) {
      var e: Inflight, response: Frame :|
        e.serial == s && EntryOk(kind, e, orders, now) && AnsweredAs(kind, story, e, response);
      assert EntryOk(kind, e, more, later);
    } else {
      var e: Inflight, at: nat :|
        e.serial == s && EntryOk(kind, e, orders, now) && ExpiredAs(kind, story, e, at) && at <= now;
      assert EntryOk(kind, e, more, later);
    }
  }

  lemma SendKeepsEntries(kind: Kind, m: Machine, order: Order, now: nat)
    requires EntriesOk(kind, m, now)
    ensures EntriesOk(kind, Send(kind, m, order, now), now)
    ensures forall i :: 0 <= i < |m.cmds| ==> m.cmds[i].serial < |m.orders|
  {
    hide Launch, AcmpTimeoutMs;
  }

  lemma NewTrail(kind: Kind, order: Order, seqId: uint16, serial: nat, now: nat)
    ensures var e := NewEntry(kind, order, seqId, serial, now);
            && Trail(kind, e) == Launch(kind, e, now) && e.serial == serial
            && forall o :: o in Launch(kind, e, now) ==> o.serial == serial
  {
  }

  lemma SendKeeps(kind: Kind, m: Machine, order: Order, now: nat)
    requires Inv(kind, m, now)
    ensures Inv(kind, Send(kind, m, order, now), now)
  {
    var m' := Send(kind, m, order, now);
    var e := NewEntry(kind, order, m.nextSeqId, |m.orders|, now);
    SendKeepsEntries(kind, m, order, now);
    StoriesAfter(m.log, Launch(kind, e, now), e.serial);
    NewTrail(kind, order, m.nextSeqId, |m.orders|, now);
    assert m'.log == m.log + Launch(kind, e, now) && m'.cmds == m.cmds + [e] && m'.orders == m.orders + [order];
    hide Send, Settled, Launch, Trail, NewEntry, EntryOk;
    forall k | 0 <= k < |m'.cmds|
      ensures Story(m'.log, m'.cmds[k].serial) == Trail(kind, m'.cmds[k])
    {
      if k < |m.cmds| {
        assert m'.cmds[k] == m.cmds[k] && m.cmds[k].serial < |m.orders|;
      }
    }
    forall s: nat | s < |m'.orders| && !Live(m'.cmds, s)
      ensures Settled(kind, Story(m'.log, s), s, m'.orders, now)
    {
      LivesAfterSend(m.cmds, e, s);
      SettledStays(kind, Story(m.log, s), s, m.orders, now, m'.orders, now);
    }
  }

  lemma LivesAfterSend(cmds: seq<Inflight>, e: Inflight, s: nat)
    ensures Live(cmds + [e], s) <==> Live(cmds, s) || s == e.serial
  {
    var cmds' := cmds + [e];
    assert cmds'[|cmds|] == e;
    assert forall k :: 0 <= k < |cmds| ==> cmds'[k] == cmds[k];
  }

  lemma LivesAfterRemove(cmds: seq<Inflight>, i: nat, s: nat)
    requires i < |cmds| && s != cmds[i].serial
    ensures Live(RemoveAt(cmds, i), s) <==> Live(cmds, s)
  {
    var cmds' := RemoveAt(cmds, i);
    if Live(cmds, s) {
      var k :| 0 <= k < |cmds| && cmds[k].serial == s;
      assert cmds'[if k < i then k else k - 1] == cmds[k];
    }
  }

  lemma RemoveKeepsEntries(kind: Kind, m: Machine, i: nat, outs: seq<Output>, now: nat)
    requires EntriesOk(kind, m, now) && i < |m.cmds|
    ensures EntriesOk(kind, m.(cmds := RemoveAt(m.cmds, i), log := m.log + outs), now)
    ensures m.cmds[i].serial < |m.orders|
  {
    assert m.cmds[i].serial < |m.orders|;
    hide EntryOk;
    var cmds := RemoveAt(m.cmds, i);
    assert forall k :: 0 <= k < |cmds| ==> cmds[k] == m.cmds[if k < i then k else k + 1];
  }

  /** Taking an entry out of the vector keeps the invariant once its story is finished. */
  lemma RemoveKeeps(kind: Kind, m: Machine, i: nat, outs: seq<Output>, now: nat)
    requires Inv(kind, m, now) && i < |m.cmds|
    requires forall o :: o in outs ==> o.serial == m.cmds[i].serial
    requires var story := Trail(kind, m.cmds[i]) + outs;
             var s := m.cmds[i].serial;
             Settled(kind, story, s, m.orders, now)
    ensures Inv(kind, m.(cmds := RemoveAt(m.cmds, i), log := m.log + outs), now)
  {
    hide EntryOk, Trail, Settled, Story;
    var m' := m.(cmds := RemoveAt(m.cmds, i), log := m.log + outs);
    RemoveKeepsEntries(kind, m, i, outs, now);
    StoriesAfter(m.log, outs, m.cmds[i].serial);
    forall k | 0 <= k < |m'.cmds|
      ensures Story(m'.log, m'.cmds[k].serial) == Trail(kind, m'.cmds[k])
    {
      assert m'.cmds[k] == m.cmds[if k < i then k else k + 1];
    }
    forall s: nat | s < |m.orders| && !Live(m'.cmds, s)
      ensures Settled(kind, Story(m'.log, s), s, m.orders, now)
    {
      if s != m.cmds[i].serial {
        LivesAfterRemove(m.cmds, i, s);
      }
    }
  }

  lemma ReceiveKeeps(kind: Kind, m: Machine, response: Frame, now: nat)
    requires Inv(kind, m, now)
    ensures Inv(kind, Receive(kind, m, response), now)
  {
    var j := FindSeqId(m.cmds, response.seqId);
    if Admits(kind, response) && j < |m.cmds| {
      var e := m.cmds[j];
      assert AnsweredAs(kind, Trail(kind, e) + Settle(kind, e, response), e, response);
      RemoveKeeps(kind, m, j, Settle(kind, e, response), now);
    }
  }

  lemma ReplaceKeepsEntries(kind: Kind, m: Machine, i: nat, e: Inflight, outs: seq<Output>, now: nat)
    requires EntriesOk(kind, m, now) && i < |m.cmds|
    requires e.serial == m.cmds[i].serial && EntryOk(kind, e, m.orders, now)
    ensures EntriesOk(kind, m.(cmds := m.cmds[i := e], log := m.log + outs), now)
    ensures m.cmds[i].serial < |m.orders|
  {
    assert m.cmds[i].serial < |m.orders|;
    hide EntryOk;
  }

  /** Changing an entry in place keeps the invariant when its story grows by what was output. */
  lemma ReplaceKeeps(kind: Kind, m: Machine, i: nat, e: Inflight, outs: seq<Output>, now: nat)
    requires Inv(kind, m, now) && i < |m.cmds|
    requires e.serial == m.cmds[i].serial && EntryOk(kind, e, m.orders, now)
    requires forall o :: o in outs ==> o.serial == e.serial
    requires Trail(kind, e) == Trail(kind, m.cmds[i]) + outs
    ensures Inv(kind, m.(cmds := m.cmds[i := e], log := m.log + outs), now)
  {
    hide EntryOk, Trail, Settled, Story;
    var m' := m.(cmds := m.cmds[i := e], log := m.log + outs);
    ReplaceKeepsEntries(kind, m, i, e, outs, now);
    StoriesAfter(m.log, outs, e.serial);
    forall k | 0 <= k < |m.cmds|
      ensures Story(m'.log, m'.cmds[k].serial) == Trail(kind, m'.cmds[k])
    {
      assert k != i ==> m'.cmds[k] == m.cmds[k] && m.cmds[k].serial != e.serial;
    }
    forall s: nat | s < |m.orders| && !Live(m'.cmds, s)
      ensures Settled(kind, Story(m'.log, s), s, m.orders, now)
    {
      LivesAfterReplace(m.cmds, i, e, s);
    }
  }

  lemma LivesAfterReplace(cmds: seq<Inflight>, i: nat, e: Inflight, s: nat)
    requires i < |cmds| && e.serial == cmds[i].serial
    ensures Live(cmds[i := e], s) <==> Live(cmds, s)
    ensures Live(cmds, e.serial)
  {
    var cmds' := cmds[i := e];
    assert cmds'[i] == e;
    if Live(cmds, s) {
      var k :| 0 <= k < |cmds| && cmds[k].serial == s;
      assert cmds'[k].serial == s;
    }
    if Live(cmds', s) {
      var k :| 0 <= k < |cmds| && cmds'[k].serial == s;
      assert cmds[k].serial == s;
    }
  }

  lemma PollKeeps(kind: Kind, m: Machine, i: nat, now: nat)
    requires Inv(kind, m, now) && i < |m.cmds|
    ensures Inv(kind, PollAt(m, i, now), now)
  {
    var e := m.cmds[i];
    ElapsedMsIsDistance(e.lastSentAt, now);
    ReplaceKeeps(kind, m, i, e.Polled(now), [], now);
    assert m.log + [] == m.log;
  }

  // ------------------------------------------------------------------------------ the sequence window

  /** What holds of ids in every run, inside the sequence window or not. */
  ghost predicate IdsOk(m: Machine) {
    && m.nextSeqId == |m.orders| % TWO_16
    && (forall i :: 0 <= i < |m.cmds| ==>
          && m.cmds[i].serial < |m.orders|
          && m.cmds[i].seqId == m.cmds[i].serial % TWO_16
          && m.cmds[i].frame.seqId == m.cmds[i].seqId)
    && (forall i, j :: 0 <= i < j < |m.cmds| ==> m.cmds[i].serial < m.cmds[j].serial)
  }

  lemma EntriesHaveIds(kind: Kind, m: Machine, now: nat)
    requires EntriesOk(kind, m, now)
    ensures IdsOk(m)
  {
  }

  /** Restarting or polling timers touches no id. */
  lemma SameIdsOk(m: Machine, m': Machine)
    requires IdsOk(m) && m'.nextSeqId == m.nextSeqId && m'.orders == m.orders && |m'.cmds| == |m.cmds|
    requires forall i :: 0 <= i < |m.cmds| ==>
               m'.cmds[i].serial == m.cmds[i].serial && m'.cmds[i].seqId == m.cmds[i].seqId &&
               m'.cmds[i].frame == m.cmds[i].frame
    ensures IdsOk(m')
  {
  }

  lemma RemoveKeepsIds(m: Machine, i: nat, log: seq<Output>)
    requires IdsOk(m) && i < |m.cmds|
    ensures IdsOk(m.(cmds := RemoveAt(m.cmds, i), log := log))
  {
    var cmds := RemoveAt(m.cmds, i);
    assert forall k :: 0 <= k < |cmds| ==> cmds[k] == m.cmds[if k < i then k else k + 1];
  }

  lemma SendKeepsIds(kind: Kind, m: Machine, order: Order, now: nat)
    requires IdsOk(m)
    ensures IdsOk(Send(kind, m, order, now))
  {
    hide Launch, AcmpTimeoutMs;
    var cmds := Send(kind, m, order, now).cmds;
    assert forall i :: 0 <= i < |m.cmds| ==> cmds[i] == m.cmds[i];
    hide TimerValue.Started;
  }

  /** One turn of the loop of `tick`. */
  lemma TurnKeepsIds(kind: Kind, m: Machine, i: nat, now: nat)
    requires IdsOk(m) && i < |m.cmds|
    ensures IdsOk(PollAt(m, i, now)) && IdsOk(Turn(kind, m, i, now))
  {
    var polled := PollAt(m, i, now);
    SameIdsOk(m, polled);
    if polled.cmds[i].timer.elapsed {
      if polled.cmds[i].Retried() {
        RemoveKeepsIds(polled, i, polled.log + GiveUp(kind, polled.cmds[i], now));
      } else {
        SameIdsOk(polled, Resend(kind, polled, i, now));
      }
    }
  }

  lemma {:induction false} TickKeepsIds(kind: Kind, m: Machine, i: nat, now: nat)
    requires IdsOk(m)
    ensures IdsOk(TickFrom(kind, m, i, now))
    decreases |m.cmds| - i
  {
    hide IdsOk, Turn;
    if i < |m.cmds| {
      TurnKeepsIds(kind, m, i, now);
      TickKeepsIds(kind, Turn(kind, m, i, now), i + 1, now);
    }
  }

  lemma {:induction false} EveryRunKeepsIds(kind: Kind, events: seq<Event>)
    ensures IdsOk(Run(kind, events))
  {
    hide IdsOk;
    if events == [] {
      EmptyHasIds();
    } else {
      var n := |events| - 1;
      var before := Run(kind, events[..n]);
      EveryRunKeepsIds(kind, events[..n]);
      match events[n]
      case SendCommand(order, now) => SendKeepsIds(kind, before, order, now);
      case ReceiveResponse(response, _) =>
        var j := FindSeqId(before.cmds, response.seqId);
        if Admits(kind, response) && j < |before.cmds| {
          RemoveKeepsIds(before, j, before.log + Settle(kind, before.cmds[j], response));
        }
      case TimerTick(now) => TickKeepsIds(kind, before, 0, now);
    }
  }

  lemma EmptyHasIds()
    ensures IdsOk(EMPTY)
  {
  }

  /**
   * Sequence ids are serial numbers modulo 2^16, so two live commands share an id exactly when their serial
   * numbers are congruent; inside the window they never are.
   */
  lemma IdsAreSerialsModulo(m: Machine)
    requires IdsOk(m)
    ensures forall i, j :: 0 <= i < |m.cmds| && 0 <= j < |m.cmds| ==>
              (m.cmds[i].seqId == m.cmds[j].seqId <==> (m.cmds[i].serial - m.cmds[j].serial) % TWO_16 == 0)
    ensures InWindow(m) ==> forall i, j :: 0 <= i < |m.cmds| && 0 <= j < |m.cmds| && i != j ==>
              m.cmds[i].seqId != m.cmds[j].seqId
  {
    forall i, j | 0 <= i < |m.cmds| && 0 <= j < |m.cmds|
      ensures m.cmds[i].seqId == m.cmds[j].seqId <==> (m.cmds[i].serial - m.cmds[j].serial) % TWO_16 == 0
      ensures InWindow(m) && i != j ==> m.cmds[i].seqId != m.cmds[j].seqId
    {
      SameResidue(m.cmds[i].serial, m.cmds[j].serial);
    }
  }

  lemma SameResidue(a: nat, b: nat)
    ensures a % TWO_16 == b % TWO_16 <==> (a - b) % TWO_16 == 0
    ensures a % TWO_16 == b % TWO_16 && a - b < TWO_16 && b - a < TWO_16 ==> a == b
  {
    assert a - b == (a / TWO_16 - b / TWO_16) * TWO_16 + (a % TWO_16 - b % TWO_16);
  }

  /** A resend restarts the timer of the entry that timed out exactly when no earlier entry has its id. */
  lemma ResendRestartsItself(kind: Kind, m: Machine, i: nat, now: nat)
    requires IdsOk(m) && i < |m.cmds|
    ensures Resend(kind, m, i, now).cmds == m.cmds[i := m.cmds[i].StartTimer(now)]
       <==> forall j :: 0 <= j < i ==> m.cmds[j].seqId != m.cmds[i].seqId
    ensures InWindow(m) ==> Resend(kind, m, i, now).cmds == m.cmds[i := m.cmds[i].StartTimer(now)]
  {
    var j := FindSeqId(m.cmds, m.cmds[i].frame.seqId);
    assert j <= i;
    IdsAreSerialsModulo(m);
    if j < i {
      assert m.cmds[j].StartTimer(now) != m.cmds[j];
      assert Resend(kind, m, i, now).cmds[j] == m.cmds[j].StartTimer(now);
      assert m.cmds[i := m.cmds[i].StartTimer(now)][j] == m.cmds[j];
    }
  }

  /** A response with the id of an entry removes that entry exactly when no earlier entry has its id. */
  lemma ResponseRemovesItself(kind: Kind, m: Machine, i: nat, response: Frame)
    requires IdsOk(m) && i < |m.cmds| && response.seqId == m.cmds[i].seqId && Admits(kind, response)
    ensures Receive(kind, m, response).cmds == RemoveAt(m.cmds, i)
       <==> forall j :: 0 <= j < i ==> m.cmds[j].seqId != m.cmds[i].seqId
  {
    var j := FindSeqId(m.cmds, response.seqId);
    assert j <= i;
    if j < i {
      assert RemoveAt(m.cmds, j)[j] == m.cmds[j + 1] && RemoveAt(m.cmds, i)[j] == m.cmds[j];
      assert m.cmds[j].serial < m.cmds[j + 1].serial;
    }
  }

  lemma GiveUpKeeps(kind: Kind, m: Machine, i: nat, now: nat)
    requires Inv(kind, m, now) && i < |m.cmds| && m.cmds[i].timer.elapsed && m.cmds[i].Retried()
    ensures Inv(kind, StateTimeout(kind, m, i, now), now)
  {
    var e := m.cmds[i];
    var story := Trail(kind, e) + GiveUp(kind, e, now);
    assert ExpiredAs(kind, story, e, now);
    assert HasExpired(kind, story, e.serial, m.orders, now);
    RemoveKeeps(kind, m, i, GiveUp(kind, e, now), now);
  }

  lemma RestartOk(kind: Kind, e: Inflight, orders: seq<Order>, now: nat)
    requires EntryOk(kind, e, orders, now) && e.timer.elapsed && !e.Retried()
    ensures EntryOk(kind, e.StartTimer(now), orders, now)
    ensures Trail(kind, e.StartTimer(now)) == Trail(kind, e) + Launch(kind, e, now)
  {
  }

  lemma ResendKeeps(kind: Kind, m: Machine, i: nat, now: nat)
    requires Inv(kind, m, now) && InWindow(m) && i < |m.cmds| && m.cmds[i].timer.elapsed && !m.cmds[i].Retried()
    ensures Inv(kind, StateTimeout(kind, m, i, now), now)
  {
    var e := m.cmds[i];
    RestartOk(kind, e, m.orders, now);
    EntriesHaveIds(kind, m, now);
    ResendRestartsItself(kind, m, i, now);
    ReplaceKeeps(kind, m, i, e.StartTimer(now), Launch(kind, e, now), now);
  }

  lemma StateTimeoutKeeps(kind: Kind, m: Machine, i: nat, now: nat)
    requires Inv(kind, m, now) && InWindow(m) && i < |m.cmds| && m.cmds[i].timer.elapsed
    ensures Inv(kind, StateTimeout(kind, m, i, now), now)
    ensures InWindow(StateTimeout(kind, m, i, now)) && |StateTimeout(kind, m, i, now).cmds| <= |m.cmds|
  {
    if m.cmds[i].Retried() {
      GiveUpKeeps(kind, m, i, now);
    } else {
      ResendKeeps(kind, m, i, now);
      EntriesHaveIds(kind, m, now);
      ResendRestartsItself(kind, m, i, now);
    }
  }

  // ------------------------------------------------------------------------------------------ all runs

  /** One turn of the loop of `tick`. */
  lemma TurnKeeps(kind: Kind, m: Machine, i: nat, now: nat)
    requires Inv(kind, m, now) && InWindow(m) && i < |m.cmds|
    ensures Inv(kind, Turn(kind, m, i, now), now) && InWindow(Turn(kind, m, i, now))
  {
    var polled := PollAt(m, i, now);
    PollKeeps(kind, m, i, now);
    assert InWindow(polled) && |polled.cmds| == |m.cmds|;
    hide Inv, InWindow, StateTimeout, PollAt;
    if polled.cmds[i].timer.elapsed {
      StateTimeoutKeeps(kind, polled, i, now);
    }
  }

  lemma {:induction false} TickKeeps(kind: Kind, m: Machine, i: nat, now: nat)
    requires Inv(kind, m, now) && InWindow(m)
    ensures Inv(kind, TickFrom(kind, m, i, now), now) && InWindow(TickFrom(kind, m, i, now))
    decreases |m.cmds| - i
  {
    hide Inv, InWindow, Turn;
    if i < |m.cmds| {
      TurnKeeps(kind, m, i, now);
      TickKeeps(kind, Turn(kind, m, i, now), i + 1, now);
    }
  }

  lemma {:induction false} EveryRunKeeps(kind: Kind, events: seq<Event>)
    requires Monotone(events) && StaysInWindow(kind, events)
    ensures Inv(kind, Run(kind, events), EndOf(events))
  {
    if events != [] {
      var n := |events| - 1;
      var before, event := Run(kind, events[..n]), events[n];
      forall k | 0 <= k <= n ensures WasInWindow(kind, events[..n], k) {
        assert events[..n][..k] == events[..k];
        assert WasInWindow(kind, events, k);
      }
      EveryRunKeeps(kind, events[..n]);
      LaterStill(kind, before, EndOf(events[..n]), event.now);
      match event
      case SendCommand(order, now) => SendKeeps(kind, before, order, now);
      case ReceiveResponse(response, now) => ReceiveKeeps(kind, before, response, now);
      case TimerTick(now) =>
        assert WasInWindow(kind, events, n);
        TickKeeps(kind, before, 0, now);
    }
  }
}
