/**
 * What the notices of a run say: which output each one follows, and what it carries.  It is said of the log alone, with
 * the message types of IEEE 1722.1-2013 by number.
 */
module CommandNotices {
  import opened Basics
  import opened Commands
  import opened CommandStories
  import opened CommandTurns
  import opened CommandOutcomes

  /** AEM_RESPONSE and ADDRESS_ACCESS_RESPONSE; or the responses about talkers, and those about listeners. */
  predicate IsNotifiedType(kind: Kind, msgType: uint32) {
    match kind
    case Aecp => msgType == 1 || msgType == 3
    case Acmp => msgType == 5 || msgType == 13 || msgType == 7 || msgType == 9 || msgType == 11
  }

  /** AECP takes responses of two types only, ACMP of any. */
  predicate IsTakenType(kind: Kind, msgType: uint32) {
    kind == Aecp ==> msgType == 1 || msgType == 3
  }

  /** The frame submitted as command `s`, with its sequence id. */
  function SentFrame(orders: seq<Order>, s: nat): Frame
    requires s < |orders|
  {
    orders[s].frame.(seqId := s % 0x1_0000)
  }

  /** A response as it is notified: with its own status, and the id that the command was submitted with. */
  function ResponseNotice(kind: Kind, orders: seq<Order>, s: nat, frame: Frame): seq<Output>
    requires s < |orders|
  {
    if orders[s].notificationFlag == 1 && IsNotifiedType(kind, frame.msgType)
    then [Posted(s, RESPONSE_RECEIVED, frame, frame.status, orders[s].notificationId)]
    else []
  }

  /** The notice that belongs behind an output. */
  function NoticeFor(kind: Kind, orders: seq<Order>, o: Output): seq<Output>
    requires o.serial < |orders|
  {
    match o
    case Transmitted(s, frame, _) => ResponseNotice(kind, orders, s, frame)
    case Answered(s, response) => ResponseNotice(kind, orders, s, response)
    case Expired(s, _) =>
      [Posted(s, if kind == Aecp then COMMAND_TIMEOUT else RESPONSE_RECEIVED, SentFrame(orders, s), 0xffff_ffff,
              orders[s].notificationId)]
    case Posted(_, _, _, _, _) => []
  }

  /** Output `k` is a notice that belongs behind the one before it, or has behind it exactly what belongs there. */
  ghost predicate IsNoticed(kind: Kind, log: seq<Output>, orders: seq<Order>, k: nat) {
    && k < |log| && log[k].serial < |orders|
    && (log[k].Transmitted? ==> log[k].frame == SentFrame(orders, log[k].serial))
    && (if log[k].Posted? then
          k > 0 && log[k - 1].serial < |orders| && NoticeFor(kind, orders, log[k - 1]) == [log[k]]
        else
          NoticeFor(kind, orders, log[k]) == if k + 1 < |log| && log[k + 1].Posted? then [log[k + 1]] else [])
  }

  ghost predicate AllNoticed(kind: Kind, log: seq<Output>, orders: seq<Order>) {
    forall k :: 0 <= k < |log| ==> IsNoticed(kind, log, orders, k)
  }

  lemma NoticedInTurn(kind: Kind, a: seq<Output>, b: seq<Output>, orders: seq<Order>)
    requires AllNoticed(kind, a, orders) && AllNoticed(kind, b, orders)
    ensures AllNoticed(kind, a + b, orders)
  {
    hide NoticeFor, SentFrame;
    var log := a + b;
    assert b != [] ==> IsNoticed(kind, b, orders, 0) && log[|a|] == b[0];
    forall k | 0 <= k < |log| ensures IsNoticed(kind, log, orders, k) {
      if k < |a| {
        assert IsNoticed(kind, a, orders, k) && log[k] == a[k];
      } else {
        assert IsNoticed(kind, b, orders, k - |a|) && log[k] == b[k - |a|];
      }
    }
  }

  lemma MoreOrders(kind: Kind, log: seq<Output>, orders: seq<Order>, order: Order)
    requires AllNoticed(kind, log, orders)
    ensures AllNoticed(kind, log, orders + [order])
  {
    forall k | 0 <= k < |log| ensures IsNoticed(kind, log, orders + [order], k) {
      assert IsNoticed(kind, log, orders, k);
    }
  }

  /** The outputs of one step for one command. */
  ghost predicate IsBurst(kind: Kind, orders: seq<Order>, outs: seq<Output>) {
    && |outs| > 0 && !outs[0].Posted? && outs[0].serial < |orders|
    && (outs[0].Transmitted? ==> outs[0].frame == SentFrame(orders, outs[0].serial))
    && outs == [outs[0]] + NoticeFor(kind, orders, outs[0])
  }

  lemma BurstsAreNoticed(kind: Kind, orders: seq<Order>, outs: seq<Output>)
    requires IsBurst(kind, orders, outs)
    ensures AllNoticed(kind, outs, orders)
  {
  }

  lemma EntriesGiveBursts(kind: Kind, e: Inflight, orders: seq<Order>, response: Frame, now: nat)
    requires IsEntryOf(e, orders)
    ensures IsBurst(kind, orders, Launch(kind, e, now))
    ensures Launch(kind, e, now)[0] == Transmitted(e.serial, e.frame, now)
    ensures IsBurst(kind, orders, GiveUp(kind, e, now)) && GiveUp(kind, e, now)[0] == Expired(e.serial, now)
    ensures IsBurst(kind, orders, Settle(kind, e, response))
    ensures Settle(kind, e, response)[0] == Answered(e.serial, response)
  {
  }

  // ------------------------------------------------------------------------------------------------ all runs

  /** Both the log and the part of it that concerns one command. */
  ghost predicate NoticesOk(kind: Kind, m: Machine) {
    && AllNoticed(kind, m.log, m.orders)
    && forall s: nat :: AllNoticed(kind, Story(m.log, s), m.orders)
  }

  lemma NoticesAfter(kind: Kind, m: Machine, outs: seq<Output>, serial: nat)
    requires NoticesOk(kind, m) && IsBurst(kind, m.orders, outs) && forall o :: o in outs ==> o.serial == serial
    ensures AllNoticed(kind, m.log + outs, m.orders)
    ensures forall s: nat :: AllNoticed(kind, Story(m.log + outs, s), m.orders)
  {
    hide Story, IsBurst, AllNoticed;
    BurstsAreNoticed(kind, m.orders, outs);
    NoticedInTurn(kind, m.log, outs, m.orders);
    StoriesAfter(m.log, outs, serial);
    forall s: nat ensures AllNoticed(kind, Story(m.log + outs, s), m.orders) {
      NoticedInTurn(kind, Story(m.log, s), outs, m.orders);
    }
  }

  lemma SendIsNoticed(kind: Kind, m: Machine, order: Order, now: nat)
    requires RecordsOk(m) && NoticesOk(kind, m)
    ensures NoticesOk(kind, Send(kind, m, order, now))
  {
    var m', e := Send(kind, m, order, now), NewEntry(kind, order, m.nextSeqId, |m.orders|, now);
    RecordsAfterSend(kind, m, order, now);
    assert m'.cmds[|m.cmds|] == e && IsEntryOf(e, m'.orders);
    hide RecordsOk, NewEntry, Launch, Story, AllNoticed, IsBurst, IsEntryOf;
    MoreOrders(kind, m.log, m.orders, order);
    forall s: nat { MoreOrders(kind, Story(m.log, s), m.orders, order); }
    EntriesGiveBursts(kind, e, m'.orders, e.frame, now);
    AboutOne(kind, e, e.frame, now);
    NoticesAfter(kind, m.(orders := m'.orders), Launch(kind, e, now), e.serial);
  }

  lemma ReceiveIsNoticed(kind: Kind, m: Machine, response: Frame)
    requires RecordsOk(m) && NoticesOk(kind, m)
    ensures NoticesOk(kind, Receive(kind, m, response))
  {
    var j := FindSeqId(m.cmds, response.seqId);
    if Admits(kind, response) && j < |m.cmds| {
      var e := m.cmds[j];
      assert IsEntryOf(e, m.orders);
      hide RecordsOk, Settle, Story, AllNoticed, IsBurst, IsEntryOf;
      EntriesGiveBursts(kind, e, m.orders, response, 0);
      AboutOne(kind, e, response, 0);
      NoticesAfter(kind, m, Settle(kind, e, response), e.serial);
    }
  }

  lemma TurnIsNoticed(kind: Kind, m: Machine, i: nat, now: nat)
    requires RecordsOk(m) && NoticesOk(kind, m) && i < |m.cmds|
    ensures NoticesOk(kind, Turn(kind, m, i, now))
  {
    var e := m.cmds[i];
    assert IsEntryOf(e, m.orders);
    TurnCases(kind, m, i, now);
    hide RecordsOk, Turn, Restarted, Launch, GiveUp, Settle, Story, AllNoticed, IsBurst, IsEntryOf, IsExpired;
    EntriesGiveBursts(kind, e, m.orders, e.frame, now);
    AboutOne(kind, e, e.frame, now);
    NoticesAfter(kind, m, Launch(kind, e, now), e.serial);
    NoticesAfter(kind, m, GiveUp(kind, e, now), e.serial);
  }

  lemma {:induction false} TickIsNoticed(kind: Kind, m: Machine, i: nat, now: nat)
    requires RecordsOk(m) && NoticesOk(kind, m)
    ensures NoticesOk(kind, TickFrom(kind, m, i, now))
    decreases |m.cmds| - i
  {
    hide RecordsOk, NoticesOk, Turn;
    if i < |m.cmds| {
      TurnKeepsRecords(kind, m, i, now);
      TurnIsNoticed(kind, m, i, now);
      TickIsNoticed(kind, Turn(kind, m, i, now), i + 1, now);
    }
  }

  /**
   * In every run each notice stands right behind the output it belongs to, and each output that calls for a notice has
   * it: in the log, and in what concerns any one command.
   */
  lemma {:induction false} EveryRunIsNoticed(kind: Kind, events: seq<Event>)
    ensures var log, orders := Run(kind, events).log, Submitted(events);
            && AllNoticed(kind, log, orders)
            && forall s: nat :: AllNoticed(kind, Story(log, s), orders)
  {
    hide RecordsOk, AllNoticed, Send, Receive, TickFrom, Submitted;
    OrdersAreSubmissions(kind, events);
    if events == [] {
      NothingIsNoticed(kind);
    } else {
      var n := |events| - 1;
      var before := Run(kind, events[..n]);
      OrdersAreSubmissions(kind, events[..n]);
      EveryRunIsNoticed(kind, events[..n]);
      EveryRunKeepsRecords(kind, events[..n]);
      match events[n]
      case SendCommand(order, now) => SendIsNoticed(kind, before, order, now);
      case ReceiveResponse(response, _) => ReceiveIsNoticed(kind, before, response);
      case TimerTick(now) => TickIsNoticed(kind, before, 0, now);
    }
  }

  lemma NothingIsNoticed(kind: Kind)
    ensures NoticesOk(kind, EMPTY)
  {
  }

  // --------------------------------------------------------------------------------- what an event puts in the log

  /** The first live command whose number a sequence id stands for, or the end of the table. */
  function FirstNamed(cmds: seq<Inflight>, seqId: uint16): (j: nat)
    ensures j <= |cmds|
    ensures j < |cmds| ==> cmds[j].serial % 0x1_0000 == seqId
    ensures forall i :: 0 <= i < j ==> cmds[i].serial % 0x1_0000 != seqId
  {
    FindFirst(cmds, (e: Inflight) => e.serial % 0x1_0000 == seqId)
  }

  /** What a tick may output: transmissions and expiries of that moment, and notices. */
  predicate IsOfTick(o: Output, now: nat) {
    (o.Transmitted? && o.at == now) || (o.Expired? && o.at == now) || o.Posted?
  }

  ghost predicate GrowsInTick(log: seq<Output>, log': seq<Output>, now: nat) {
    log <= log' && forall k :: |log| <= k < |log'| ==> IsOfTick(log'[k], now)
  }

  lemma {:induction false} TickOutputs(kind: Kind, m: Machine, i: nat, now: nat)
    requires IdsOk(m)
    ensures GrowsInTick(m.log, TickFrom(kind, m, i, now).log, now)
    decreases |m.cmds| - i
  {
    hide IdsOk, Turn, Restarted, IsExpired;
    if i < |m.cmds| {
      var next := Turn(kind, m, i, now);
      TurnKeepsIds(kind, m, i, now);
      TurnCases(kind, m, i, now);
      assert GrowsInTick(m.log, next.log, now);
      hide Launch, GiveUp;
      TickOutputs(kind, next, i + 1, now);
      assert forall k :: |m.log| <= k < |next.log| ==> TickFrom(kind, m, i, now).log[k] == next.log[k];
    }
  }

  /** The log grows by one output and the notice that belongs behind it. */
  ghost predicate Grows(kind: Kind, log: seq<Output>, log': seq<Output>, orders: seq<Order>, o: Output) {
    o.serial < |orders| && log' == log + [o] + NoticeFor(kind, orders, o)
  }

  ghost predicate GrowsBySend(kind: Kind, m: Machine, order: Order, now: nat, log': seq<Output>) {
    var orders := m.orders + [order];
    Grows(kind, m.log, log', orders, Transmitted(|m.orders|, SentFrame(orders, |m.orders|), now))
  }

  ghost predicate GrowsByResponse(kind: Kind, m: Machine, response: Frame, log': seq<Output>) {
    var j := FirstNamed(m.cmds, response.seqId);
    if IsTakenType(kind, response.msgType) && j < |m.cmds|
    then Grows(kind, m.log, log', m.orders, Answered(m.cmds[j].serial, response))
    else log' == m.log
  }

  /**
   * What an event of a run adds to the log.  A send transmits the submitted frame under the next number; a response
   * of a type that is taken answers the first live command that its id names, and one that names none, or is of
   * another type, adds nothing; a tick transmits and gives up at its own time.  Each time with the notice that belongs
   * behind.
   */
  lemma EventsAddToTheLog(kind: Kind, events: seq<Event>, n: nat)
    requires n < |events|
    ensures var m, log' := Run(kind, events[..n]), Run(kind, events[..n + 1]).log;
            && m.orders == Submitted(events[..n])
            && (events[n].SendCommand? ==> GrowsBySend(kind, m, events[n].order, events[n].now, log'))
            && (events[n].ReceiveResponse? ==> GrowsByResponse(kind, m, events[n].response, log'))
            && (events[n].TimerTick? ==> GrowsInTick(m.log, log', events[n].now))
  {
    var m := Run(kind, events[..n]);
    assert events[..n + 1][..n] == events[..n];
    OrdersAreSubmissions(kind, events[..n]);
    EveryRunKeepsRecords(kind, events[..n]);
    hide NoticeFor, GrowsBySend, GrowsByResponse, GrowsInTick, RecordsOk, Send, Receive, TickFrom;
    assert RecordsOk(m) ==> IdsOk(m) by {
      RecordsHaveIds(m);
    }
    match events[n]
    case SendCommand(order, now) => SendAdds(kind, m, order, now);
    case ReceiveResponse(response, _) => ReceiveAdds(kind, m, response);
    case TimerTick(now) => TickOutputs(kind, m, 0, now);
  }

  lemma RecordsHaveIds(m: Machine)
    ensures RecordsOk(m) ==> IdsOk(m)
  {
  }

  lemma SendAdds(kind: Kind, m: Machine, order: Order, now: nat)
    requires RecordsOk(m)
    ensures GrowsBySend(kind, m, order, now, Send(kind, m, order, now).log)
  {
    var m', e := Send(kind, m, order, now), NewEntry(kind, order, m.nextSeqId, |m.orders|, now);
    RecordsAfterSend(kind, m, order, now);
    assert m'.cmds[|m.cmds|] == e && IsEntryOf(e, m'.orders);
    hide RecordsOk, NewEntry, Launch;
    EntriesGiveBursts(kind, e, m'.orders, e.frame, now);
    InSteps(m.log, Launch(kind, e, now)[0], NoticeFor(kind, m'.orders, Launch(kind, e, now)[0]));
  }

  lemma InSteps(log: seq<Output>, o: Output, rest: seq<Output>)
    ensures log + ([o] + rest) == log + [o] + rest
  {
  }

  lemma ReceiveAdds(kind: Kind, m: Machine, response: Frame)
    requires RecordsOk(m)
    ensures GrowsByResponse(kind, m, response, Receive(kind, m, response).log)
  {
    var j := FirstNamed(m.cmds, response.seqId);
    NamedIsFound(m, response.seqId);
    if Admits(kind, response) && j < |m.cmds| {
      var e := m.cmds[j];
      assert IsEntryOf(e, m.orders);
      hide RecordsOk, Settle;
      EntriesGiveBursts(kind, e, m.orders, response, 0);
      InSteps(m.log, Answered(e.serial, response), NoticeFor(kind, m.orders, Answered(e.serial, response)));
    }
  }

  lemma NamedIsFound(m: Machine, seqId: uint16)
    requires RecordsOk(m)
    ensures FirstNamed(m.cmds, seqId) == FindSeqId(m.cmds, seqId)
  {
    var j, k := FirstNamed(m.cmds, seqId), FindSeqId(m.cmds, seqId);
    assert forall i :: 0 <= i < |m.cmds| ==> m.cmds[i].seqId == m.cmds[i].serial % 0x1_0000;
  }
}
