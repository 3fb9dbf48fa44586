/**
 * What a user of the controller can observe of each command over whole runs: one outcome, the notices that go with it,
 * and as many transmissions as its entry counts, unless a resend has gone astray.
 */
module CommandOutcomes {
  import opened Basics
  import opened Commands
  import opened CommandStories
  import opened CommandTicks
  import opened CommandTurns

  datatype Tally = Transmissions | Answers | Expiries | Notices | NotifiedAnswers | TimeoutNotices

  predicate Is(kind: Kind, o: Output, tally: Tally) {
    match tally
    case Transmissions => o.Transmitted?
    case Answers => o.Answered?
    case Expiries => o.Expired?
    case Notices => o.Posted?
    case NotifiedAnswers => o.Answered? && Notifies(kind, o.response.msgType)
    case TimeoutNotices => o.Posted? && o.event == COMMAND_TIMEOUT
  }

  function Count(kind: Kind, outs: seq<Output>, tally: Tally): nat {
    if outs == [] then 0
    else Count(kind, outs[..|outs| - 1], tally) + if Is(kind, outs[|outs| - 1], tally) then 1 else 0
  }

  lemma {:induction false} CountAppend(kind: Kind, a: seq<Output>, b: seq<Output>, tally: Tally)
    ensures Count(kind, a + b, tally) == Count(kind, a, tally) + Count(kind, b, tally)
  {
    if b == [] {
      assert a + b == a;
    } else {
      assert (a + b)[..|a + b| - 1] == a + b[..|b| - 1];
      CountAppend(kind, a, b[..|b| - 1], tally);
    }
  }

  /** At most two outputs: the first, and what follows it. */
  lemma CountTwo(kind: Kind, o: Output, rest: seq<Output>, tally: Tally)
    requires |rest| <= 1
    ensures Count(kind, [o] + rest, tally) ==
            (if Is(kind, o, tally) then 1 else 0) + (if rest != [] && Is(kind, rest[0], tally) then 1 else 0)
  {
    CountAppend(kind, [o], rest, tally);
    assert [o][..0] == [];
    assert rest != [] ==> rest[..0] == [];
  }

  /** The orders submitted in a run, in order. */
  function Submitted(events: seq<Event>): seq<Order> {
    if events == [] then []
    else
      var last := events[|events| - 1];
      Submitted(events[..|events| - 1]) + if last.SendCommand? then [last.order] else []
  }

  lemma {:induction false} TickKeepsOrders(kind: Kind, m: Machine, i: nat, now: nat)
    ensures TickFrom(kind, m, i, now).orders == m.orders
    decreases |m.cmds| - i
  {
    if i < |m.cmds| {
      TickKeepsOrders(kind, Turn(kind, m, i, now), i + 1, now);
    }
  }

  /** Serial numbers count the sends of the run. */
  lemma {:induction false} OrdersAreSubmissions(kind: Kind, events: seq<Event>)
    ensures Run(kind, events).orders == Submitted(events)
  {
    if events != [] {
      var n := |events| - 1;
      OrdersAreSubmissions(kind, events[..n]);
      if events[n].TimerTick? {
        TickKeepsOrders(kind, Run(kind, events[..n]), 0, events[n].now);
      }
    }
  }

  // ----------------------------------------------------------------------------------- exactly one outcome

  lemma CountLaunch(kind: Kind, e: Inflight, at: nat, tally: Tally)
    ensures Count(kind, Launch(kind, e, at), tally) ==
            match tally
            case Transmissions => 1
            case Notices =>
              if e.notificationFlag == CMD_WITH_NOTIFICATION && Notifies(kind, e.frame.msgType) then 1 else 0
            case _ => 0
  {
    CountTwo(kind, Transmitted(e.serial, e.frame, at), Launch(kind, e, at)[1..], tally);
  }

  /** Every transmission of a command repeats the submitted frame, with the command's sequence id in it. */
  ghost predicate RepeatsTheFrame(story: seq<Output>, frame: Frame) {
    forall o :: o in story && o.Transmitted? ==> o.frame == frame
  }

  lemma EndingsSendNothing(kind: Kind, e: Inflight, response: Frame, at: nat)
    ensures forall o :: o in Settle(kind, e, response) || o in GiveUp(kind, e, at) ==> !o.Transmitted?
  {
  }

  lemma CountSettle(kind: Kind, e: Inflight, response: Frame, tally: Tally)
    ensures Count(kind, Settle(kind, e, response), tally) ==
            match tally
            case Answers => 1
            case NotifiedAnswers => if Notifies(kind, response.msgType) then 1 else 0
            case Notices =>
              if e.notificationFlag == CMD_WITH_NOTIFICATION && Notifies(kind, response.msgType) then 1 else 0
            case _ => 0
  {
    CountTwo(kind, Answered(e.serial, response), Settle(kind, e, response)[1..], tally);
  }

  lemma CountGiveUp(kind: Kind, e: Inflight, at: nat, tally: Tally)
    ensures Count(kind, GiveUp(kind, e, at), tally) ==
            match tally
            case Expiries => 1
            case Notices => 1
            case TimeoutNotices => if kind == Aecp then 1 else 0
            case _ => 0
  {
    CountTwo(kind, Expired(e.serial, at), GiveUp(kind, e, at)[1..], tally);
  }

  /** The outcome of one command: what its story says, given whether it is still in the table. */
  ghost predicate OutcomeOk(kind: Kind, story: seq<Output>, order: Order, serial: nat, live: bool) {
    var sends := Count(kind, story, Transmissions);
    var flagged := order.notificationFlag == CMD_WITH_NOTIFICATION;
    // exactly one of inflight, answered and timed out
    && Count(kind, story, Answers) + Count(kind, story, Expiries) + (if live then 1 else 0) == 1
    && sends >= 1
    && RepeatsTheFrame(story, order.frame.(seqId := serial % TWO_16))
    // one notice for the expiry whatever the flag says, and one for a flagged answer the machine notifies
    && Count(kind, story, Notices) ==
         (if flagged && Notifies(kind, order.frame.msgType) then sends else 0)
       + (if flagged then Count(kind, story, NotifiedAnswers) else 0)
       + Count(kind, story, Expiries)
    && (kind == Aecp ==> Count(kind, story, NotifiedAnswers) == Count(kind, story, Answers))
    // an AECP expiry is notified as a command timeout, and nothing else is
    && Count(kind, story, TimeoutNotices) == (if kind == Aecp then Count(kind, story, Expiries) else 0)
  }

  ghost predicate HasCount(cmds: seq<Inflight>, serial: nat, count: nat) {
    forall i :: 0 <= i < |cmds| && cmds[i].serial == serial ==> cmds[i].startTimerCnt == count
  }

  /** Sent once or twice, as often as its entry says, and given up only after the second send. */
  ghost predicate SendsAreCounted(kind: Kind, story: seq<Output>, cmds: seq<Inflight>, serial: nat) {
    var sends := Count(kind, story, Transmissions);
    1 <= sends <= 2 && (Count(kind, story, Expiries) > 0 ==> sends == 2) && HasCount(cmds, serial, sends)
  }

  /** The accounts of one command at the end of a run. */
  ghost predicate Accounts(kind: Kind, m: Machine, serial: nat)
    requires serial < |m.orders|
  {
    && OutcomeOk(kind, Story(m.log, serial), m.orders[serial], serial, Live(m.cmds, serial))
    && SendsAreCounted(kind, Story(m.log, serial), m.cmds, serial)
  }

  ghost predicate OutcomesOk(kind: Kind, m: Machine) {
    forall s: nat :: s < |m.orders| ==> OutcomeOk(kind, Story(m.log, s), m.orders[s], s, Live(m.cmds, s))
  }

  ghost predicate SendsOk(kind: Kind, m: Machine) {
    forall s: nat :: s < |m.orders| ==> SendsAreCounted(kind, Story(m.log, s), m.cmds, s)
  }

  // ------------------------------------------------------------------------------ what is output for one command

  lemma FirstSendOk(kind: Kind, e: Inflight, orders: seq<Order>, now: nat)
    requires IsEntryOf(e, orders)
    ensures OutcomeOk(kind, [] + Launch(kind, e, now), orders[e.serial], e.serial, true)
  {
    forall tally { CountLaunch(kind, e, now, tally); }
    LaunchedFrame(kind, e, now);
    hide Count, Launch;
    assert [] + Launch(kind, e, now) == Launch(kind, e, now);
  }

  lemma LaunchedFrame(kind: Kind, e: Inflight, now: nat)
    ensures forall o :: o in Launch(kind, e, now) && o.Transmitted? ==> o.frame == e.frame
  {
  }

  lemma ResendOk(kind: Kind, story: seq<Output>, e: Inflight, orders: seq<Order>, now: nat)
    requires IsEntryOf(e, orders) && OutcomeOk(kind, story, orders[e.serial], e.serial, true)
    ensures OutcomeOk(kind, story + Launch(kind, e, now), orders[e.serial], e.serial, true)
  {
    hide Count, Launch;
    forall tally { CountLaunch(kind, e, now, tally); }
    forall tally { CountAppend(kind, story, Launch(kind, e, now), tally); }
    LaunchedFrame(kind, e, now);
  }

  lemma AnswerOk(kind: Kind, story: seq<Output>, e: Inflight, orders: seq<Order>, response: Frame)
    requires IsEntryOf(e, orders) && OutcomeOk(kind, story, orders[e.serial], e.serial, true) && Admits(kind, response)
    ensures OutcomeOk(kind, story + Settle(kind, e, response), orders[e.serial], e.serial, false)
  {
    hide Count, Settle;
    forall tally { CountSettle(kind, e, response, tally); }
    forall tally { CountAppend(kind, story, Settle(kind, e, response), tally); }
    EndingsSendNothing(kind, e, response, 0);
  }

  lemma GiveUpOk(kind: Kind, story: seq<Output>, e: Inflight, orders: seq<Order>, now: nat)
    requires IsEntryOf(e, orders) && OutcomeOk(kind, story, orders[e.serial], e.serial, true)
    ensures OutcomeOk(kind, story + GiveUp(kind, e, now), orders[e.serial], e.serial, false)
  {
    hide Count, GiveUp;
    forall tally { CountGiveUp(kind, e, now, tally); }
    forall tally { CountAppend(kind, story, GiveUp(kind, e, now), tally); }
    EndingsSendNothing(kind, e, e.frame, now);
  }

  // ------------------------------------------------------------------------------- every run keeps the outcomes

  lemma OutcomesAfter(kind: Kind, m: Machine, m': Machine, serial: nat, outs: seq<Output>)
    requires OutcomesOk(kind, m) && serial < |m'.orders|
    requires m'.orders == m.orders || (m'.orders == m.orders + [m'.orders[serial]] && serial == |m.orders|)
    requires m'.log == m.log + outs && forall o :: o in outs ==> o.serial == serial
    requires forall s: nat :: s != serial ==> (Live(m'.cmds, s) <==> Live(m.cmds, s))
    requires OutcomeOk(kind, Story(m.log, serial) + outs, m'.orders[serial], serial, Live(m'.cmds, serial))
    ensures OutcomesOk(kind, m')
  {
    hide OutcomeOk, Story, Live;
    StoriesAfter(m.log, outs, serial);
    forall s: nat | s < |m'.orders|
      ensures OutcomeOk(kind, Story(m'.log, s), m'.orders[s], s, Live(m'.cmds, s))
    {
      if s != serial {
        assert s < |m.orders| && m'.orders[s] == m.orders[s];
      }
    }
  }

  lemma SendKeepsOutcomes(kind: Kind, m: Machine, order: Order, now: nat)
    requires RecordsOk(m) && OutcomesOk(kind, m)
    ensures OutcomesOk(kind, Send(kind, m, order, now))
  {
    var m', e := Send(kind, m, order, now), NewEntry(kind, order, m.nextSeqId, |m.orders|, now);
    RecordsAfterSend(kind, m, order, now);
    assert m'.cmds[|m.cmds|] == e && IsEntryOf(e, m'.orders);
    hide RecordsOk, OutcomesOk, OutcomeOk, Launch, Story, Live, NewEntry, IsEntryOf;
    forall s: nat { LivesAfterSend(m.cmds, e, s); }
    AboutOne(kind, e, e.frame, now);
    FirstSendOk(kind, e, m'.orders, now);
    OutcomesAfter(kind, m, m', |m.orders|, Launch(kind, e, now));
  }

  /** Taking an entry out of a table whose serial numbers increase ends one life only. */
  lemma NotLiveOnceRemoved(m: Machine, i: nat)
    requires RecordsOk(m) && i < |m.cmds|
    ensures !Live(RemoveAt(m.cmds, i), m.cmds[i].serial) && Live(m.cmds, m.cmds[i].serial)
    ensures forall s: nat :: s != m.cmds[i].serial ==> (Live(RemoveAt(m.cmds, i), s) <==> Live(m.cmds, s))
    ensures m.cmds[i].serial < |m.orders|
  {
    var rest := RemoveAt(m.cmds, i);
    assert forall k :: 0 <= k < |rest| ==> rest[k] == m.cmds[if k < i then k else k + 1];
    forall s: nat | s != m.cmds[i].serial ensures Live(rest, s) <==> Live(m.cmds, s) {
      LivesAfterRemove(m.cmds, i, s);
    }
  }

  lemma ReceiveKeepsOutcomes(kind: Kind, m: Machine, response: Frame)
    requires RecordsOk(m) && OutcomesOk(kind, m)
    ensures OutcomesOk(kind, Receive(kind, m, response))
  {
    var j := FindSeqId(m.cmds, response.seqId);
    if Admits(kind, response) && j < |m.cmds| {
      var e := m.cmds[j];
      assert IsEntryOf(e, m.orders);
      NotLiveOnceRemoved(m, j);
      hide RecordsOk, OutcomeOk, Settle, Story, Live, IsEntryOf, Admits;
      AboutOne(kind, e, response, 0);
      AnswerOk(kind, Story(m.log, e.serial), e, m.orders, response);
      OutcomesAfter(kind, m, Receive(kind, m, response), e.serial, Settle(kind, e, response));
    }
  }

  lemma TurnKeepsOutcomes(kind: Kind, m: Machine, i: nat, now: nat)
    requires RecordsOk(m) && OutcomesOk(kind, m) && i < |m.cmds|
    ensures OutcomesOk(kind, Turn(kind, m, i, now))
  {
    hide IdsOk, OutcomeOk, Launch, GiveUp, Story, Live, IsEntryOf, Turn, Restarted, SameCommands, IsExpired;
    var e, next := m.cmds[i], Turn(kind, m, i, now);
    assert IsEntryOf(e, m.orders);
    TurnCases(kind, m, i, now);
    NotLiveOnceRemoved(m, i);
    AboutOne(kind, e, e.frame, now);
    RestartedAreSame(m.cmds, i, now);
    if !IsExpired(e, now) {
      forall s: nat { SameLives(m.cmds, next.cmds, s); }
      assert m.log + [] == m.log && Story(m.log, e.serial) + [] == Story(m.log, e.serial);
      OutcomesAfter(kind, m, next, e.serial, []);
    } else if e.Retried() {
      GiveUpOk(kind, Story(m.log, e.serial), e, m.orders, now);
      OutcomesAfter(kind, m, next, e.serial, GiveUp(kind, e, now));
    } else {
      forall s: nat { SameLives(m.cmds, next.cmds, s); }
      ResendOk(kind, Story(m.log, e.serial), e, m.orders, now);
      OutcomesAfter(kind, m, next, e.serial, Launch(kind, e, now));
    }
  }

  lemma {:induction false} TickKeepsOutcomes(kind: Kind, m: Machine, i: nat, now: nat)
    requires RecordsOk(m) && OutcomesOk(kind, m)
    ensures OutcomesOk(kind, TickFrom(kind, m, i, now))
    decreases |m.cmds| - i
  {
    hide RecordsOk, OutcomesOk, Turn;
    if i < |m.cmds| {
      TurnKeepsRecords(kind, m, i, now);
      TurnKeepsOutcomes(kind, m, i, now);
      TickKeepsOutcomes(kind, Turn(kind, m, i, now), i + 1, now);
    }
  }

  lemma {:induction false} EveryRunKeepsOutcomes(kind: Kind, events: seq<Event>)
    ensures OutcomesOk(kind, Run(kind, events))
  {
    hide RecordsOk, OutcomeOk, Send, Receive, TickFrom;
    if events != [] {
      var n := |events| - 1;
      var before := Run(kind, events[..n]);
      EveryRunKeepsRecords(kind, events[..n]);
      EveryRunKeepsOutcomes(kind, events[..n]);
      hide OutcomesOk;
      match events[n]
      case SendCommand(order, now) => SendKeepsOutcomes(kind, before, order, now);
      case ReceiveResponse(response, _) => ReceiveKeepsOutcomes(kind, before, response);
      case TimerTick(now) => TickKeepsOutcomes(kind, before, 0, now);
    }
  }

  // ------------------------------------------------------------------ the sends are counted unless a resend strays

  lemma SendsAfter(kind: Kind, m: Machine, m': Machine, serial: nat, outs: seq<Output>)
    requires SendsOk(kind, m) && |m'.orders| <= |m.orders| + (if serial == |m.orders| then 1 else 0)
    requires m'.log == m.log + outs && forall o :: o in outs ==> o.serial == serial
    requires forall s: nat, c: nat :: s != serial && HasCount(m.cmds, s, c) ==> HasCount(m'.cmds, s, c)
    requires SendsAreCounted(kind, Story(m.log, serial) + outs, m'.cmds, serial)
    ensures SendsOk(kind, m')
  {
    hide Story, HasCount, Count;
    StoriesAfter(m.log, outs, serial);
    forall s: nat | s < |m'.orders| ensures SendsAreCounted(kind, Story(m'.log, s), m'.cmds, s) {
      if s != serial {
        assert SendsAreCounted(kind, Story(m.log, s), m.cmds, s);
      }
    }
  }

  lemma CountsOfOneMore(cmds: seq<Inflight>, e: Inflight)
    requires forall i :: 0 <= i < |cmds| ==> cmds[i].serial < e.serial
    ensures HasCount(cmds + [e], e.serial, e.startTimerCnt)
    ensures forall s: nat, c: nat :: s != e.serial && HasCount(cmds, s, c) ==> HasCount(cmds + [e], s, c)
  {
  }

  lemma SendKeepsSends(kind: Kind, m: Machine, order: Order, now: nat)
    requires RecordsOk(m) && SendsOk(kind, m)
    ensures SendsOk(kind, Send(kind, m, order, now))
  {
    var m', e := Send(kind, m, order, now), NewEntry(kind, order, m.nextSeqId, |m.orders|, now);
    RecordsAfterSend(kind, m, order, now);
    assert e.serial == |m.orders| && e.startTimerCnt == 1 && m'.cmds == m.cmds + [e];
    assert m'.log == m.log + Launch(kind, e, now) && |m'.orders| == |m.orders| + 1;
    assert forall i :: 0 <= i < |m.cmds| ==> m.cmds[i].serial < |m.orders|;
    CountsOfOneMore(m.cmds, e);
    hide RecordsOk, SendsOk, Launch, Story, NewEntry, Count, HasCount, Send;
    AboutOne(kind, e, e.frame, now);
    CountLaunch(kind, e, now, Transmissions);
    CountLaunch(kind, e, now, Expiries);
    assert [] + Launch(kind, e, now) == Launch(kind, e, now);
    SendsAfter(kind, m, m', |m.orders|, Launch(kind, e, now));
  }

  lemma CountsOfRest(cmds: seq<Inflight>, i: nat)
    requires i < |cmds|
    ensures forall s: nat, c: nat :: HasCount(cmds, s, c) ==> HasCount(RemoveAt(cmds, i), s, c)
  {
    var rest := RemoveAt(cmds, i);
    assert forall k :: 0 <= k < |rest| ==> rest[k] == cmds[if k < i then k else k + 1];
  }

  lemma ReceiveKeepsSends(kind: Kind, m: Machine, response: Frame)
    requires RecordsOk(m) && SendsOk(kind, m)
    ensures SendsOk(kind, Receive(kind, m, response))
  {
    var j := FindSeqId(m.cmds, response.seqId);
    if Admits(kind, response) && j < |m.cmds| {
      var e := m.cmds[j];
      assert SendsAreCounted(kind, Story(m.log, e.serial), m.cmds, e.serial);
      hide RecordsOk, SendsOk, Settle, Story, HasCount, Count;
      AboutOne(kind, e, response, 0);
      CountsOfRest(m.cmds, j);
      CountSettle(kind, e, response, Transmissions);
      CountSettle(kind, e, response, Expiries);
      CountAppend(kind, Story(m.log, e.serial), Settle(kind, e, response), Transmissions);
      CountAppend(kind, Story(m.log, e.serial), Settle(kind, e, response), Expiries);
      SendsAfter(kind, m, Receive(kind, m, response), e.serial, Settle(kind, e, response));
    }
  }

  /** A resend that does not stray restarts its own entry. */
  lemma CountsOfRestarted(cmds: seq<Inflight>, i: nat, now: nat)
    requires i < |cmds| && forall j :: 0 <= j < i ==> cmds[j].seqId != cmds[i].seqId
    requires forall j :: 0 <= j < |cmds| && j != i ==> cmds[j].serial != cmds[i].serial
    requires cmds[i].startTimerCnt == 1
    ensures HasCount(Restarted(cmds, i, now), cmds[i].serial, 2)
    ensures forall s: nat, c: nat :: s != cmds[i].serial && HasCount(cmds, s, c) ==>
            HasCount(Restarted(cmds, i, now), s, c)
  {
    assert FindSeqId(cmds, cmds[i].seqId) == i;
  }

  lemma CountsOfPolled(cmds: seq<Inflight>, i: nat, now: nat)
    requires i < |cmds|
    ensures forall s: nat, c: nat :: HasCount(cmds, s, c) ==> HasCount(cmds[i := cmds[i].Polled(now)], s, c)
  {
  }

  lemma EntryIsCounted(kind: Kind, m: Machine, i: nat)
    requires RecordsOk(m) && SendsOk(kind, m) && i < |m.cmds|
    ensures var e, story := m.cmds[i], Story(m.log, m.cmds[i].serial);
            && IdsOk(m) && e.serial < |m.orders| && SendsAreCounted(kind, story, m.cmds, e.serial)
            && e.startTimerCnt == Count(kind, story, Transmissions)
            && forall j :: 0 <= j < |m.cmds| && j != i ==> m.cmds[j].serial != e.serial
  {
    hide Count, Story;
    assert SendsAreCounted(kind, Story(m.log, m.cmds[i].serial), m.cmds, m.cmds[i].serial);
  }

  /** A turn that does not stray keeps the sends counted. */
  lemma TurnKeepsSends(kind: Kind, m: Machine, i: nat, now: nat)
    requires RecordsOk(m) && SendsOk(kind, m) && i < |m.cmds| && !(ResendsAt(m, i, now) && IsShadowed(m, i))
    ensures SendsOk(kind, Turn(kind, m, i, now))
  {
    hide RecordsOk, SendsOk, Launch, GiveUp, Story, Turn, Restarted, IsExpired, HasCount, Count, IdsOk;
    var e, next, story := m.cmds[i], Turn(kind, m, i, now), Story(m.log, m.cmds[i].serial);
    EntryIsCounted(kind, m, i);
    TurnCases(kind, m, i, now);
    AboutOne(kind, e, e.frame, now);
    if !IsExpired(e, now) {
      CountsOfPolled(m.cmds, i, now);
      assert m.log + [] == m.log && story + [] == story;
      SendsAfter(kind, m, next, e.serial, []);
    } else if e.Retried() {
      CountsOfRest(m.cmds, i);
      CountGiveUp(kind, e, now, Transmissions);
      CountGiveUp(kind, e, now, Expiries);
      CountAppend(kind, story, GiveUp(kind, e, now), Transmissions);
      CountAppend(kind, story, GiveUp(kind, e, now), Expiries);
      SendsAfter(kind, m, next, e.serial, GiveUp(kind, e, now));
    } else {
      CountsOfRestarted(m.cmds, i, now);
      CountLaunch(kind, e, now, Transmissions);
      CountLaunch(kind, e, now, Expiries);
      CountAppend(kind, story, Launch(kind, e, now), Transmissions);
      CountAppend(kind, story, Launch(kind, e, now), Expiries);
      SendsAfter(kind, m, next, e.serial, Launch(kind, e, now));
    }
  }

  /** A stray resend is transmitted and not counted, and no later turn of the tick makes up for it. */
  lemma StrayIsNotCounted(kind: Kind, m: Machine, i: nat, now: nat)
    requires RecordsOk(m) && SendsOk(kind, m) && i < |m.cmds| && ResendsAt(m, i, now) && IsShadowed(m, i)
    ensures !SendsOk(kind, TickFrom(kind, m, i, now))
  {
    hide RecordsOk, Launch, Story, Turn, Count, IsShadowed, IdsOk, OutcomeOk;
    var e, story := m.cmds[i], Story(m.log, m.cmds[i].serial);
    var m' := TickFrom(kind, m, i, now);
    EntryIsCounted(kind, m, i);
    OwnTurn(kind, m, i, now);
    LaterTurns(kind, Turn(kind, m, i, now), i + 1, i, now);
    CountLaunch(kind, e, now, Transmissions);
    CountAppend(kind, story, Launch(kind, e, now), Transmissions);
    TickKeepsOrders(kind, m, i, now);
    assert m'.cmds[i].serial == e.serial && m'.cmds[i].startTimerCnt == e.startTimerCnt;
    assert !SendsAreCounted(kind, Story(m'.log, e.serial), m'.cmds, e.serial);
  }

  lemma {:induction false} TickCountsExactlyWhen(kind: Kind, m: Machine, i: nat, now: nat)
    requires RecordsOk(m) && SendsOk(kind, m)
    ensures SendsOk(kind, TickFrom(kind, m, i, now)) <==> !TickStrays(kind, m, i, now)
    decreases |m.cmds| - i
  {
    hide RecordsOk, SendsOk, Turn, IsShadowed, ResendsAt;
    if i < |m.cmds| {
      if ResendsAt(m, i, now) && IsShadowed(m, i) {
        StrayIsNotCounted(kind, m, i, now);
      } else {
        TurnKeepsRecords(kind, m, i, now);
        TurnKeepsSends(kind, m, i, now);
        TickCountsExactlyWhen(kind, Turn(kind, m, i, now), i + 1, now);
      }
    }
  }

  /** One more event keeps the sends counted exactly when it is no tick that strays. */
  lemma EventCountsExactlyWhen(kind: Kind, events: seq<Event>)
    requires events != [] && SendsOk(kind, Run(kind, events[..|events| - 1]))
    ensures SendsOk(kind, Run(kind, events)) <==> !StraysIn(kind, events, |events| - 1)
  {
    hide RecordsOk, SendsOk, Send, Receive, TickFrom, TickStrays;
    var n := |events| - 1;
    var before := Run(kind, events[..n]);
    EveryRunKeepsRecords(kind, events[..n]);
    match events[n]
    case SendCommand(order, now) => SendKeepsSends(kind, before, order, now);
    case ReceiveResponse(response, _) => ReceiveKeepsSends(kind, before, response);
    case TimerTick(now) => TickCountsExactlyWhen(kind, before, 0, now);
  }

  // ----------------------------------------------------------------------------------------------- main results

  /** After the first `n` events the accounts of every command submitted by then are in order. */
  ghost predicate AccountsHeld(kind: Kind, events: seq<Event>, n: nat)
    requires n <= |events|
  {
    var m := Run(kind, events[..n]);
    forall s: nat :: s < |m.orders| ==> Accounts(kind, m, s)
  }

  lemma AccountsAreSends(kind: Kind, events: seq<Event>, n: nat)
    requires n <= |events|
    ensures AccountsHeld(kind, events, n) <==> SendsOk(kind, Run(kind, events[..n]))
  {
    hide OutcomeOk, SendsAreCounted, Story, Run;
    EveryRunKeepsOutcomes(kind, events[..n]);
    var m := Run(kind, events[..n]);
    assert AccountsHeld(kind, events, n) ==>
        forall s: nat :: s < |m.orders| ==> Accounts(kind, m, s) && SendsAreCounted(kind, Story(m.log, s), m.cmds, s);
  }

  /**
   * In any run, at whatever times: the accounts of every command were in order after every event so far, if and only
   * if no tick sent an entry again that had an earlier live entry with its id.
   */
  lemma {:induction false} AccountsHoldExactlyWhen(kind: Kind, events: seq<Event>)
    ensures (forall n :: 0 <= n <= |events| ==> AccountsHeld(kind, events, n)) <==> NoneStrays(kind, events)
  {
    hide AccountsHeld, StraysIn, SendsOk, Run;
    if events == [] {
      NothingToAccountFor(kind);
    } else {
      var last := |events| - 1;
      var before := events[..last];
      AccountsHoldExactlyWhen(kind, before);
      forall n | 0 <= n <= last ensures AccountsHeld(kind, events, n) <==> AccountsHeld(kind, before, n) {
        SameBefore(kind, events, last, n);
      }
      forall n | 0 <= n < last ensures StraysIn(kind, events, n) <==> StraysIn(kind, before, n) {
        SameBefore(kind, events, last, n);
      }
      assert events[..|events|] == events;
      AccountsAreSends(kind, events, last);
      AccountsAreSends(kind, events, |events|);
      if AccountsHeld(kind, events, last) {
        EventCountsExactlyWhen(kind, events);
      }
      assert AccountsHeld(kind, events, last) <==> AccountsHeld(kind, before, last);
    }
  }

  lemma NothingToAccountFor(kind: Kind)
    ensures AccountsHeld(kind, [], 0)
  {
    assert Run(kind, [][..0]) == EMPTY;
  }

  lemma SameBefore(kind: Kind, events: seq<Event>, last: nat, n: nat)
    requires n <= last <= |events|
    ensures AccountsHeld(kind, events, n) <==> AccountsHeld(kind, events[..last], n)
    ensures n < last ==> (StraysIn(kind, events, n) <==> StraysIn(kind, events[..last], n))
  {
    assert events[..last][..n] == events[..n];
  }

  /**
   * Over every run, exactly one outcome for every command ever submitted: it is inflight, answered or given up, with
   * the notices that follow from it.  If no resend ever strayed, and so in particular inside the sequence window,
   * its transmissions are counted as well.
   */
  lemma ExactlyOneOutcome(kind: Kind, events: seq<Event>, serial: nat)
    requires serial < |Submitted(events)|
    ensures Run(kind, events).orders == Submitted(events)
    ensures var m := Run(kind, events);
            OutcomeOk(kind, Story(m.log, serial), m.orders[serial], serial, Live(m.cmds, serial))
    ensures NoneStrays(kind, events) || StaysInWindow(kind, events) ==> Accounts(kind, Run(kind, events), serial)
  {
    hide OutcomeOk, SendsAreCounted, Story, Run;
    OrdersAreSubmissions(kind, events);
    EveryRunKeepsOutcomes(kind, events);
    AccountsHoldExactlyWhen(kind, events);
    if StaysInWindow(kind, events) {
      WindowMeansNoneStrays(kind, events);
    }
    assert events[..|events|] == events;
    assert NoneStrays(kind, events) ==> AccountsHeld(kind, events, |events|);
  }

  /**
   * In every run, an AECP command submitted with notification, whose frame is a command, is notified exactly once
   * when it has left the table and never before.
   */
  lemma AecpNotifiesOnce(events: seq<Event>, serial: nat)
    requires serial < |Submitted(events)|
    requires Submitted(events)[serial].notificationFlag == CMD_WITH_NOTIFICATION
    requires !Notifies(Aecp, Submitted(events)[serial].frame.msgType)
    ensures var m := Run(Aecp, events);
            Count(Aecp, Story(m.log, serial), Notices) == if Live(m.cmds, serial) then 0 else 1
  {
    ExactlyOneOutcome(Aecp, events, serial);
  }

  // ------------------------------------------------------------------------------------- the sequence window

  /** Inside the window a response with the sequence id of a live command answers that command and no other. */
  lemma ResponseAnswersItsCommand(kind: Kind, events: seq<Event>, i: nat, response: Frame)
    requires StaysInWindow(kind, events) && i < |Run(kind, events).cmds|
    requires response.seqId == Run(kind, events).cmds[i].serial % TWO_16 && Admits(kind, response)
    ensures var m := Run(kind, events);
            Receive(kind, m, response).cmds == RemoveAt(m.cmds, i)
    ensures var m := Run(kind, events);
            forall s: nat :: Story(Receive(kind, m, response).log, s) ==
              Story(m.log, s) + if s == m.cmds[i].serial then Settle(kind, m.cmds[i], response) else []
  {
    hide Run, StaysInWindow, InWindow, Settle, Story, FindSeqId, RemoveAt;
    var m := Run(kind, events);
    EveryRunKeepsIds(kind, events);
    IdsAreSerialsModulo(m);
    EndsInWindow(kind, events);
    assert m.cmds[i].seqId == response.seqId;
    assert FindSeqId(m.cmds, response.seqId) == i;
    AboutOne(kind, m.cmds[i], response, 0);
    StoriesAfter(m.log, Settle(kind, m.cmds[i], response), m.cmds[i].serial);
    assert forall s: nat :: Story(m.log, s) + [] == Story(m.log, s);
  }

  /** In every run, inside the window or not, an answer goes astray exactly when an earlier entry has its id. */
  lemma AnswersItsCommandExactlyWhen(kind: Kind, events: seq<Event>, i: nat, response: Frame)
    requires i < |Run(kind, events).cmds| && response.seqId == Run(kind, events).cmds[i].serial % TWO_16
    requires Admits(kind, response)
    ensures var cmds := Run(kind, events).cmds;
            (Receive(kind, Run(kind, events), response).cmds == RemoveAt(cmds, i)) <==>
            (forall j :: 0 <= j < i ==> (cmds[i].serial - cmds[j].serial) % TWO_16 != 0)
  {
    hide Run, Receive;
    EveryRunKeepsIds(kind, events);
    var m := Run(kind, events);
    IdsAreSerialsModulo(m);
    assert m.cmds[i].seqId == response.seqId;
    hide IdsOk;
    ResponseRemovesItself(kind, m, i, response);
  }

  /** In every run inside the window, the next tick is a sweep and the commands drain as promised. */
  lemma RunsAreReadyToSweep(kind: Kind, events: seq<Event>)
    requires StaysInWindow(kind, events)
    ensures DistinctIds(Run(kind, events).cmds) && SentOnceOrTwice(Run(kind, events).cmds)
  {
    hide Run, StaysInWindow, InWindow, Story, OutcomeOk, Count;
    var m := Run(kind, events);
    EveryRunKeepsIds(kind, events);
    IdsAreSerialsModulo(m);
    EndsInWindow(kind, events);
    OrdersAreSubmissions(kind, events);
    forall i | 0 <= i < |m.cmds| ensures 1 <= m.cmds[i].startTimerCnt <= 2 {
      ExactlyOneOutcome(kind, events, m.cmds[i].serial);
    }
  }
}
