/**
 * What goes wrong outside the sequence window.  A command that shares its sequence id with an earlier live one is
 * transmitted again at every tick: each resend restarts the timer of the earlier command instead of its own.
 */
module CommandsBeyondWindow {
  import opened Basics
  import opened Timers
  import opened Commands
  import opened CommandStories
  import opened CommandTicks
  import opened CommandTurns
  import opened CommandOutcomes
  import opened CommandTimes

  // -------------------------------------------------------------------------------------- any table, one tick

  lemma {:induction false} TurnsUpTo(kind: Kind, m: Machine, p: nat, i: nat, now: nat)
    requires IdsOk(m) && IsShadowed(m, i) && ResendsAt(m, i, now) && p <= i
    requires forall q :: p <= q < i ==> !(IsExpired(m.cmds[q], now) && m.cmds[q].Retried())
    ensures var m', e := TickFrom(kind, m, p, now), m.cmds[i];
            && i < |m'.cmds| && m'.cmds[i] == e.Polled(now)
            && Story(m'.log, e.serial) == Story(m.log, e.serial) + Launch(kind, e, now)
    decreases i - p
  {
    hide IdsOk, IsShadowed, StateTimeout, Launch, IsExpired;
    ShadowedIsThere(m, i);
    var next := Turn(kind, m, p, now);
    assert TickFrom(kind, m, p, now) == TickFrom(kind, next, p + 1, now);
    hide PollAt, Turn, TickFrom;
    if p < i {
      OtherTurn(kind, m, p, i, now);
      OtherStory(kind, m, p, i, now);
      TurnsUpTo(kind, next, p + 1, i, now);
    } else {
      OwnTurn(kind, m, i, now);
      LaterTurns(kind, next, i + 1, i, now);
    }
  }

  /**
   * For every table: a tick transmits an expired command that was sent once and has the id of an earlier live one,
   * and leaves it as it was, so that the next tick does the same; provided no entry before it is given up in that
   * tick, which would make the tick skip an entry.
   */
  lemma ShadowedIsSentAtEveryTick(kind: Kind, m: Machine, i: nat, now: nat)
    requires IdsOk(m) && IsShadowed(m, i) && ResendsAt(m, i, now)
    requires forall q :: 0 <= q < i ==> !(IsExpired(m.cmds[q], now) && m.cmds[q].Retried())
    ensures var m', e := Tick(kind, m, now), m.cmds[i];
            && i < |m'.cmds| && m'.cmds[i] == e.Polled(now)
            && Story(m'.log, e.serial) == Story(m.log, e.serial) + Launch(kind, e, now)
  {
    TurnsUpTo(kind, m, 0, i, now);
  }

  // ------------------------------------------------------------------------------------------ runs that do it

  /** A first command, and `n` others that are answered at once. */
  function FirstAndAnswered(first: Order, other: Order, n: nat): seq<Event> {
    if n == 0 then [SendCommand(first, 0)]
    else FirstAndAnswered(first, other, n - 1) +
         [SendCommand(other, 0), ReceiveResponse(Frame(AEM_RESPONSE, n % TWO_16, 0, 0), 0)]
  }

  lemma RunOfOneMore(kind: Kind, events: seq<Event>, event: Event)
    ensures Run(kind, events + [event]) == Step(kind, Run(kind, events), event)
  {
    assert (events + [event])[..|events|] == events;
  }

  /** Only the first command is left, and nothing was heard of the one after the last. */
  ghost predicate OnlyFirst(kind: Kind, m: Machine, first: Order, n: nat) {
    && m.nextSeqId == (n + 1) % TWO_16 && |m.orders| == n + 1
    && m.cmds == [NewEntry(kind, first, 0, 0, 0)] && Story(m.log, TWO_16) == []
  }

  lemma {:induction false} OnlyTheFirstIsLeft(kind: Kind, first: Order, other: Order, n: nat)
    requires n < TWO_16
    ensures OnlyFirst(kind, Run(kind, FirstAndAnswered(first, other, n)), first, n)
  {
    hide OnlyFirst;
    if n == 0 {
      var event := SendCommand(first, 0);
      assert FirstAndAnswered(first, other, n) == [] + [event] && Run(kind, []) == EMPTY;
      hide FirstAndAnswered, Run;
      RunOfOneMore(kind, [], event);
      FirstIsSent(kind, first);
    } else {
      var before, event := FirstAndAnswered(first, other, n - 1), SendCommand(other, 0);
      var answer := ReceiveResponse(Frame(AEM_RESPONSE, n % TWO_16, 0, 0), 0);
      OnlyTheFirstIsLeft(kind, first, other, n - 1);
      assert before + [event] + [answer] == FirstAndAnswered(first, other, n);
      hide FirstAndAnswered, Run;
      RunOfOneMore(kind, before, event);
      RunOfOneMore(kind, before + [event], answer);
      SentAndAnswered(kind, Run(kind, before), first, other, n);
    }
  }

  lemma FirstIsSent(kind: Kind, first: Order)
    ensures OnlyFirst(kind, Send(kind, EMPTY, first, 0), first, 0)
  {
    var e := NewEntry(kind, first, 0, 0, 0);
    NewEntryAt(kind, first, 0, 0);
    hide NewEntry, Launch, Story;
    AppendToOthers([], Launch(kind, e, 0), 0, TWO_16);
    EmptyStory(TWO_16);
    assert [] + [e] == [e];
  }

  lemma EmptyStory(s: nat)
    ensures Story([], s) == []
  {
  }

  lemma SentAndAnswered(kind: Kind, m: Machine, first: Order, other: Order, n: nat)
    requires 0 < n < TWO_16 && OnlyFirst(kind, m, first, n - 1)
    ensures OnlyFirst(kind, Receive(kind, Send(kind, m, other, 0), Frame(AEM_RESPONSE, n % TWO_16, 0, 0)), first, n)
  {
    hide NewEntry, Launch, Settle, Story, FindSeqId, RemoveAt;
    var response := Frame(AEM_RESPONSE, n, 0, 0);
    var kept, e := NewEntry(kind, first, 0, 0, 0), NewEntry(kind, other, n, n, 0);
    var sent := Send(kind, m, other, 0);
    NewEntryAt(kind, first, 0, 0);
    NewEntryAt(kind, other, n, n);
    assert sent.cmds == [kept, e] && sent.log == m.log + Launch(kind, e, 0);
    AboutOne(kind, e, response, 0);
    AppendToOthers(m.log, Launch(kind, e, 0), n, TWO_16);
    AppendToOthers(sent.log, Settle(kind, e, response), n, TWO_16);
    SecondIsRemoved(kept, e);
  }

  lemma SecondIsRemoved(kept: Inflight, e: Inflight)
    requires kept.seqId != e.seqId
    ensures FindSeqId([kept, e], e.seqId) == 1 && RemoveAt([kept, e], 1) == [kept]
  {
    var both := [kept, e];
    assert both[0] == kept && both[1] == e;
  }

  lemma NewEntryAt(kind: Kind, order: Order, seqId: uint16, serial: nat)
    ensures var e := NewEntry(kind, order, seqId, serial, 0);
            && e.serial == serial && e.seqId == seqId && e.startTimerCnt == 1 && e.firstSentAt == 0
            && e.timeoutMs == TimeoutFor(kind, order.frame)
            && e.timer == TimerValue(true, false, TimeoutFor(kind, order.frame), 0)
    ensures forall o :: o in Launch(kind, NewEntry(kind, order, seqId, serial, 0), 0) ==> o.serial == serial
  {
  }

  function Ticks(times: seq<nat>): seq<Event> {
    seq(|times|, i requires 0 <= i < |times| => TimerTick(times[i]))
  }

  /** 65537 sends, of which only the first and the last stay without an answer; then ticks. */
  function Lag(first: Order, last: Order, times: seq<nat>): seq<Event> {
    FirstAndAnswered(first, last, TWO_16 - 1) + [SendCommand(last, 0)] + Ticks(times)
  }

  /** The first tick comes after the last command's timeout, the others before the first command expires again. */
  ghost predicate Close(times: seq<nat>, firstMs: uint32, lastMs: uint32) {
    && (|times| > 0 ==> lastMs < times[0] < TWO_32)
    && forall i :: 0 < i < |times| ==> times[i - 1] <= times[i] <= times[i - 1] + firstMs
  }

  /** When the first command was last restarted. */
  function LatestOf(times: seq<nat>): nat {
    if times == [] then 0 else times[|times| - 1]
  }

  /** Two entries with one id, the later of which is sent again while the earlier is kept from expiring. */
  ghost predicate IsLagging(kind: Kind, m: Machine, first: Order, last: Order, ticks: nat, latest: nat) {
    var firstMs, lastMs := TimeoutFor(kind, first.frame), TimeoutFor(kind, last.frame);
    && IdsOk(m) && |m.cmds| == 2 && m.cmds[0].seqId == m.cmds[1].seqId
    && m.cmds[0].serial == 0 && m.cmds[0].firstSentAt == 0 && m.cmds[0].timeoutMs == firstMs
    && m.cmds[1].serial == TWO_16 && m.cmds[1].startTimerCnt == 1 && m.cmds[1].timeoutMs == lastMs
    && (if ticks == 0 then
          && m.cmds[0].startTimerCnt == 1 && m.cmds[0].timer == TimerValue(true, false, firstMs, 0)
          && m.cmds[1].timer == TimerValue(true, false, lastMs, 0)
        else
          && m.cmds[0].timer == TimerValue(true, false, firstMs, latest % TWO_32)
          && (ticks == 1 ==> m.cmds[0].Retried())
          && m.cmds[1].timer.elapsed)
    && Count(kind, Story(m.log, TWO_16), Transmissions) == ticks + 1
  }

  lemma LagBegins(kind: Kind, first: Order, last: Order)
    ensures IsLagging(kind, Run(kind, Lag(first, last, [])), first, last, 0, 0)
  {
    hide FirstAndAnswered, Run, OnlyFirst;
    var events, event := FirstAndAnswered(first, last, TWO_16 - 1), SendCommand(last, 0);
    OnlyTheFirstIsLeft(kind, first, last, TWO_16 - 1);
    RunOfOneMore(kind, events, event);
    assert Lag(first, last, []) == events + [event];
    EveryRunKeepsIds(kind, events + [event]);
    LastIsSent(kind, Run(kind, events), first, last);
  }

  lemma LastIsSent(kind: Kind, m: Machine, first: Order, last: Order)
    requires OnlyFirst(kind, m, first, TWO_16 - 1) && IdsOk(Send(kind, m, last, 0))
    ensures IsLagging(kind, Send(kind, m, last, 0), first, last, 0, 0)
  {
    var kept, e := NewEntry(kind, first, 0, 0, 0), NewEntry(kind, last, 0, TWO_16, 0);
    var m' := Send(kind, m, last, 0);
    NewEntryAt(kind, first, 0, 0);
    NewEntryAt(kind, last, 0, TWO_16);
    hide NewEntry, Launch, Story, IdsOk, TimeoutFor;
    assert m'.cmds == [kept, e] && m'.log == m.log + Launch(kind, e, 0);
    StoriesAfter(m.log, Launch(kind, e, 0), TWO_16);
    assert [] + Launch(kind, e, 0) == Launch(kind, e, 0);
    CountLaunch(kind, e, 0, Transmissions);
    hide Count, Send;
  }

  /** What one tick does to the two of them. */
  lemma TickOfTwo(kind: Kind, m: Machine, now: nat)
    requires IdsOk(m) && |m.cmds| == 2 && m.cmds[0].seqId == m.cmds[1].seqId && ResendsAt(m, 1, now)
    requires !(IsExpired(m.cmds[0], now) && m.cmds[0].Retried())
    ensures var m', a := Tick(kind, m, now), m.cmds[0];
            && |m'.cmds| == 2 && m'.cmds[1] == m.cmds[1].Polled(now) && SameCommand(a, m'.cmds[0])
            && m'.cmds[0].timer == TimerValue(true, false, a.timeoutMs, now % TWO_32)
            && (a.startTimerCnt == 1 ==> m'.cmds[0].Retried())
  {
    hide Turn, IdsOk;
    var one := Turn(kind, m, 0, now);
    FirstTurn(kind, m, now);
    SecondTurn(kind, one, now);
    TickTurns(kind, m, 0, now);
    TickTurns(kind, one, 1, now);
  }

  lemma TickTurns(kind: Kind, m: Machine, p: nat, now: nat)
    requires p < |m.cmds|
    ensures TickFrom(kind, m, p, now) == TickFrom(kind, Turn(kind, m, p, now), p + 1, now)
  {
  }

  lemma FirstTurn(kind: Kind, m: Machine, now: nat)
    requires IdsOk(m) && |m.cmds| == 2 && !(IsExpired(m.cmds[0], now) && m.cmds[0].Retried())
    ensures var one := Turn(kind, m, 0, now);
            && IdsOk(one) && |one.cmds| == 2 && one.cmds[1] == m.cmds[1] && SameCommand(m.cmds[0], one.cmds[0])
            && (m.cmds[0].startTimerCnt == 1 ==> 1 <= one.cmds[0].startTimerCnt <= 2)
  {
    TurnKeepsIds(kind, m, 0, now);
    TurnCases(kind, m, 0, now);
    hide Turn, Launch, GiveUp, IdsOk, IsExpired;
  }

  lemma SecondTurn(kind: Kind, m: Machine, now: nat)
    requires IdsOk(m) && |m.cmds| == 2 && m.cmds[0].seqId == m.cmds[1].seqId && ResendsAt(m, 1, now)
    ensures var two := Turn(kind, m, 1, now);
            two.cmds == [m.cmds[0].StartTimer(now), m.cmds[1].Polled(now)]
  {
    TurnCases(kind, m, 1, now);
    hide Turn, Launch, GiveUp, IdsOk;
    assert FindSeqId(m.cmds, m.cmds[1].seqId) == 0;
    assert Restarted(m.cmds, 1, now) == [m.cmds[0].StartTimer(now), m.cmds[1].Polled(now)];
  }

  /** When the next tick comes. */
  ghost predicate ComesNext(kind: Kind, first: Order, last: Order, ticks: nat, latest: nat, now: nat) {
    if ticks == 0 then TimeoutFor(kind, last.frame) < now < TWO_32
    else latest <= now <= latest + TimeoutFor(kind, first.frame)
  }

  lemma LagGoesOn(kind: Kind, m: Machine, first: Order, last: Order, ticks: nat, latest: nat, now: nat)
    requires IsLagging(kind, m, first, last, ticks, latest) && ComesNext(kind, first, last, ticks, latest, now)
    ensures IsExpired(m.cmds[1], now) && IsLagging(kind, Tick(kind, m, now), first, last, ticks + 1, now)
  {
    ExpiryOfTwo(kind, m, first, last, ticks, latest, now);
    TickKeepsIds(kind, m, 0, now);
    hide IsExpired, TimeoutFor, TickFrom, Launch, Story, Count, IdsOk;
    TickOfTwo(kind, m, now);
    assert IsShadowed(m, 1);
    ShadowedIsSentAtEveryTick(kind, m, 1, now);
    CountAppend(kind, Story(m.log, TWO_16), Launch(kind, m.cmds[1], now), Transmissions);
    CountLaunch(kind, m.cmds[1], now, Transmissions);
    hide Tick, IsShadowed;
  }

  lemma ExpiryOfTwo(kind: Kind, m: Machine, first: Order, last: Order, ticks: nat, latest: nat, now: nat)
    requires IsLagging(kind, m, first, last, ticks, latest) && ComesNext(kind, first, last, ticks, latest, now)
    ensures ResendsAt(m, 1, now) && m.cmds[1].Polled(now).timer.elapsed
    ensures !(IsExpired(m.cmds[0], now) && m.cmds[0].Retried())
  {
    hide IdsOk, Count, Story, TimeoutFor;
    if ticks > 0 {
      ElapsedMsIsDistance(latest, now);
    }
  }

  lemma {:induction false} LagLasts(kind: Kind, first: Order, last: Order, times: seq<nat>)
    requires Close(times, TimeoutFor(kind, first.frame), TimeoutFor(kind, last.frame))
    ensures IsLagging(kind, Run(kind, Lag(first, last, times)), first, last, |times|, LatestOf(times))
  {
    hide IsLagging, TimeoutFor;
    if times == [] {
      LagBegins(kind, first, last);
    } else {
      var n := |times| - 1;
      LagLasts(kind, first, last, times[..n]);
      LagOfOneMore(first, last, times);
      RunOfOneMore(kind, Lag(first, last, times[..n]), TimerTick(times[n]));
      hide Run, Lag;
      LagGoesOn(kind, Run(kind, Lag(first, last, times[..n])), first, last, n, LatestOf(times[..n]), times[n]);
    }
  }

  lemma LagOfOneMore(first: Order, last: Order, times: seq<nat>)
    requires times != []
    ensures Lag(first, last, times) ==
            Lag(first, last, times[..|times| - 1]) + [TimerTick(times[|times| - 1])]
  {
    hide FirstAndAnswered;
    assert Ticks(times) == Ticks(times[..|times| - 1]) + [TimerTick(times[|times| - 1])];
  }

  lemma {:induction false} AllAtTheStart(first: Order, other: Order, n: nat)
    ensures forall i :: 0 <= i < |FirstAndAnswered(first, other, n)| ==> FirstAndAnswered(first, other, n)[i].now == 0
  {
    if n > 0 {
      AllAtTheStart(first, other, n - 1);
    }
  }

  ghost predicate Increase(times: seq<nat>) {
    forall i, j :: 0 <= i <= j < |times| ==> times[i] <= times[j]
  }

  lemma {:induction false} CloseTimesIncrease(times: seq<nat>, firstMs: uint32, lastMs: uint32)
    requires Close(times, firstMs, lastMs)
    ensures Increase(times)
  {
    if times != [] {
      var n := |times| - 1;
      CloseTimesIncrease(times[..n], firstMs, lastMs);
      forall i, j | 0 <= i <= j <= n ensures times[i] <= times[j] {
        assert i < n ==> times[..n][i] <= times[..n][n - 1];
        assert j < n ==> times[..n][i] <= times[..n][j];
      }
    }
  }

  lemma LagIsMonotone(first: Order, last: Order, times: seq<nat>)
    requires Increase(times)
    ensures Monotone(Lag(first, last, times))
  {
    var before := FirstAndAnswered(first, last, TWO_16 - 1) + [SendCommand(last, 0)];
    AllAtTheStart(first, last, TWO_16 - 1);
    hide FirstAndAnswered;
    var events := Lag(first, last, times);
    forall i, j | 0 <= i <= j < |events| ensures events[i].now <= events[j].now {
      if i >= |before| {
        assert times[i - |before|] <= times[j - |before|];
      }
    }
  }

  /**
   * The window is needed.  In this run, 65537 sends of which the first and the last stay unanswered, the last command
   * has the id of the first.  At every tick it starts expired, is transmitted once more, and is neither counted as
   * resent nor given up: after k ticks it has been sent k + 1 times, and its accounts are wrong.
   */
  lemma BeyondTheWindowResendsMiss(kind: Kind, first: Order, last: Order, times: seq<nat>)
    requires Close(times, TimeoutFor(kind, first.frame), TimeoutFor(kind, last.frame))
    ensures var m := Run(kind, Lag(first, last, times));
            && |m.orders| == TWO_16 + 1 && |m.cmds| == 2 && m.cmds[1].serial == TWO_16
            && m.cmds[1].startTimerCnt == 1
            && Count(kind, Story(m.log, TWO_16), Transmissions) == |times| + 1
            && (times != [] ==> !Accounts(kind, m, TWO_16))
    ensures Monotone(Lag(first, last, times))
    ensures forall k :: 0 <= k < |times| ==> SomeExpired(Run(kind, Lag(first, last, times[..k])).cmds, times[k])
  {
    hide Run, Lag, Story, Count, IdsOk, OutcomeOk, TimeoutFor;
    LagLasts(kind, first, last, times);
    CloseTimesIncrease(times, TimeoutFor(kind, first.frame), TimeoutFor(kind, last.frame));
    LagIsMonotone(first, last, times);
    var m := Run(kind, Lag(first, last, times));
    OrdersOfLag(kind, first, last, times);
    forall k | 0 <= k < |times| ensures SomeExpired(Run(kind, Lag(first, last, times[..k])).cmds, times[k]) {
      LagLasts(kind, first, last, times[..k]);
      ExpiryOfTwo(kind, Run(kind, Lag(first, last, times[..k])), first, last, k, LatestOf(times[..k]), times[k]);
    }
    assert times != [] ==> m.cmds[1].serial == TWO_16 && m.cmds[1].startTimerCnt != |times| + 1;
  }

  lemma OrdersOfLag(kind: Kind, first: Order, last: Order, times: seq<nat>)
    ensures |Run(kind, Lag(first, last, times)).orders| == TWO_16 + 1
    decreases |times|
  {
    if times == [] {
      hide FirstAndAnswered, Run;
      var events := FirstAndAnswered(first, last, TWO_16 - 1);
      assert Lag(first, last, []) == events + [SendCommand(last, 0)];
      RunOfOneMore(kind, events, SendCommand(last, 0));
      OnlyTheFirstIsLeft(kind, first, last, TWO_16 - 1);
    } else {
      var n := |times| - 1;
      OrdersOfLag(kind, first, last, times[..n]);
      LagOfOneMore(first, last, times);
      hide Lag;
      RunOfOneMore(kind, Lag(first, last, times[..n]), TimerTick(times[n]));
      hide Run;
      TickKeepsOrders(kind, Run(kind, Lag(first, last, times[..n])), 0, times[n]);
    }
  }

  // -------------------------------------------------------------------------------------- given up early, or not

  /** One tick just after the timeout of the last command, and one just after the first has timed out from there. */
  function TwoTicks(firstMs: uint32, lastMs: uint32): seq<nat> {
    [lastMs + 1, lastMs + 1 + firstMs + 1]
  }

  /**
   * The other condition is needed as well.  In this run the resend of the last command restarts the first one, which
   * is then given up at the second tick; and that is before two of its own timeouts have passed if and only if its
   * timeout is longer than that of the command that was sent again.  So a CONNECT_RX command, which has 4500 ms, is
   * given up after 4702 ms when a GET_RX_STATE command, which has 200 ms, is sent with its id.
   */
  lemma GivenUpEarlyExactlyWhen(kind: Kind, first: Order, last: Order)
    ensures var firstMs, lastMs := TimeoutFor(kind, first.frame), TimeoutFor(kind, last.frame);
            var events := Lag(first, last, TwoTicks(firstMs, lastMs));
            var story := Story(Run(kind, events).log, 0);
            && Monotone(events)
            && |Submitted(events)| > 0 && TimeoutFor(kind, Submitted(events)[0].frame) == firstMs
            && |story| > 0 && story[0].Transmitted? && story[0].at == 0
            && exists k :: && 0 <= k < |story| && story[k] == Expired(0, firstMs + lastMs + 2)
                           && (story[k].at <= story[0].at + 2 * firstMs <==> firstMs > lastMs)
  {
    var firstMs, lastMs := TimeoutFor(kind, first.frame), TimeoutFor(kind, last.frame);
    var times := TwoTicks(firstMs, lastMs);
    TimeoutsAreApart(kind, first.frame, last.frame);
    hide Run, Lag, Story, TimeoutFor, IsExpired, TimesOk, Submitted, IdsOk, Count;
    var before, events := Lag(first, last, times[..1]), Lag(first, last, times);
    LagLasts(kind, first, last, times[..1]);
    LagIsMonotone(first, last, times[..1]);
    LagIsMonotone(first, last, times);
    EveryRunKeepsTimes(kind, false, before);
    OrdersAreSubmissions(kind, events);
    assert IsLagging(kind, Run(kind, before), first, last, 1, lastMs + 1);
    LagOfOneMore(first, last, times);
    RunOfOneMore(kind, before, TimerTick(times[1]));
    FirstIsGivenUp(kind, Run(kind, before), first, last, lastMs + 1, times[1]);
    FirstHasItsTimeout(kind, Run(kind, before), EndOf(before));
    ExpiryIsTold(kind, Run(kind, before), times[1]);
  }

  lemma TimeoutsAreApart(kind: Kind, first: Frame, last: Frame)
    ensures TimeoutFor(kind, first) > TimeoutFor(kind, last) ==> TimeoutFor(kind, first) >= TimeoutFor(kind, last) + 2
    ensures TimeoutFor(kind, first) + 1 < TWO_32 && TimeoutFor(kind, last) + 1 < TWO_32
  {
  }

  lemma FirstHasItsTimeout(kind: Kind, m: Machine, now: nat)
    requires TimesOk(kind, false, m, now) && |m.cmds| > 0
    ensures var e := m.cmds[0];
            && e.serial < |m.orders| && TimeoutFor(kind, m.orders[e.serial].frame) == e.timeoutMs
            && BeganAt(Story(m.log, e.serial), e.firstSentAt)
  {
    hide StoryTimed, Story, IdsOk;
    assert IsEntryOf(m.cmds[0], m.orders) && AgeOk(kind, false, m.cmds[0], now);
  }

  lemma FirstIsGivenUp(kind: Kind, m: Machine, first: Order, last: Order, latest: nat, now: nat)
    requires IsLagging(kind, m, first, last, 1, latest) && now == latest + TimeoutFor(kind, first.frame) + 1
    requires TimeoutFor(kind, first.frame) + 1 < TWO_32
    ensures Tick(kind, m, now) == m.(cmds := [m.cmds[1]], log := m.log + GiveUp(kind, m.cmds[0], now))
  {
    hide Story, Count, TimeoutFor, GiveUp;
    ElapsedMsIsDistance(latest, now);
    TurnCases(kind, m, 0, now);
    TickTurns(kind, m, 0, now);
    hide Turn;
    assert RemoveAt(m.cmds, 0) == [m.cmds[1]];
  }

  lemma ExpiryIsTold(kind: Kind, m: Machine, now: nat)
    requires |m.cmds| > 0 && m.cmds[0].serial == 0 && BeganAt(Story(m.log, 0), 0)
    ensures var story := Story(m.log + GiveUp(kind, m.cmds[0], now), 0);
            && |story| > 0 && story[0].Transmitted? && story[0].at == 0
            && |story| > |Story(m.log, 0)| && story[|Story(m.log, 0)|] == Expired(0, now)
  {
    var e := m.cmds[0];
    AboutOne(kind, e, e.frame, now);
    hide Story;
    StoriesAfter(m.log, GiveUp(kind, e, now), 0);
  }

  // ----------------------------------------------------------------------- exactly which commands can be cut short

  ghost predicate SubmitsOnly(events: seq<Event>, allowed: set<Order>) {
    forall i :: 0 <= i < |events| && events[i].SendCommand? ==> events[i].order in allowed
  }

  /** A command was given up before two of its timeouts had passed since its first transmission. */
  ghost predicate GivesUpEarly(kind: Kind, events: seq<Event>) {
    exists serial: nat, k: nat :: IsEarly(kind, events, serial, k)
  }

  ghost predicate IsEarly(kind: Kind, events: seq<Event>, serial: nat, k: nat) {
    var story := Story(Run(kind, events).log, serial);
    && serial < |Submitted(events)| && k < |story| && story[k].Expired? && story[0].Transmitted?
    && story[k].at <= story[0].at + 2 * TimeoutFor(kind, Submitted(events)[serial].frame)
  }

  ghost predicate OneTimeout(kind: Kind, allowed: set<Order>) {
    forall a, b :: a in allowed && b in allowed ==> TimeoutFor(kind, a.frame) == TimeoutFor(kind, b.frame)
  }

  ghost predicate SameTimeouts(cmds: seq<Inflight>) {
    forall i, j :: 0 <= i < |cmds| && 0 <= j < |cmds| ==> cmds[i].timeoutMs == cmds[j].timeoutMs
  }

  lemma {:induction false} SameTimeoutsNeverShorten(kind: Kind, m: Machine, i: nat, now: nat)
    requires IdsOk(m) && SameTimeouts(m.cmds)
    ensures !TickShortens(kind, m, i, now)
    decreases |m.cmds| - i
  {
    hide IdsOk, Turn, Launch, GiveUp, Restarted, SameCommands, ResendsAt, IsExpired;
    if i < |m.cmds| {
      var next := Turn(kind, m, i, now);
      TurnKeepsIds(kind, m, i, now);
      TurnCases(kind, m, i, now);
      TimeoutsAfterTurn(m.cmds, i, now);
      assert !ShortensAt(m, i, now);
      SameTimeoutsNeverShorten(kind, next, i + 1, now);
    }
  }

  lemma TimeoutsAfterTurn(cmds: seq<Inflight>, i: nat, now: nat)
    requires SameTimeouts(cmds) && i < |cmds|
    ensures SameTimeouts(cmds[i := cmds[i].Polled(now)]) && SameTimeouts(Restarted(cmds, i, now))
    ensures SameTimeouts(RemoveAt(cmds, i))
  {
    RestartedAreSame(cmds, i, now);
    hide Restarted;
    assert forall k :: 0 <= k < |cmds| ==> SameCommand(cmds[k], Restarted(cmds, i, now)[k]);
    var rest := RemoveAt(cmds, i);
    assert forall k :: 0 <= k < |rest| ==> rest[k] == cmds[if k < i then k else k + 1];
  }

  lemma {:induction false} SubmittedAreAllowed(events: seq<Event>, allowed: set<Order>)
    requires SubmitsOnly(events, allowed)
    ensures forall i :: 0 <= i < |Submitted(events)| ==> Submitted(events)[i] in allowed
  {
    if events != [] {
      SubmittedAreAllowed(events[..|events| - 1], allowed);
    }
  }

  lemma EntriesHaveOneTimeout(kind: Kind, events: seq<Event>, allowed: set<Order>)
    requires Monotone(events) && SubmitsOnly(events, allowed) && OneTimeout(kind, allowed)
    ensures IdsOk(Run(kind, events)) && SameTimeouts(Run(kind, events).cmds)
  {
    hide Run, Monotone, Submitted, IdsOk;
    var m := Run(kind, events);
    EveryRunKeepsTimes(kind, false, events);
    OrdersAreSubmissions(kind, events);
    SubmittedAreAllowed(events, allowed);
    forall i | 0 <= i < |m.cmds|
      ensures m.orders[m.cmds[i].serial] in allowed
      ensures m.cmds[i].timeoutMs == TimeoutFor(kind, m.orders[m.cmds[i].serial].frame)
    {
      assert IsEntryOf(m.cmds[i], m.orders) && AgeOk(kind, false, m.cmds[i], EndOf(events));
    }
  }

  lemma OneTimeoutIsNeverEarly(kind: Kind, events: seq<Event>, allowed: set<Order>)
    requires Monotone(events) && SubmitsOnly(events, allowed) && OneTimeout(kind, allowed)
    ensures !GivesUpEarly(kind, events)
  {
    hide Run, TickShortens, OneTimeout, IdsOk, SameTimeouts;
    forall n | 0 <= n < |events| ensures !ShortensIn(kind, events, n) {
      EntriesHaveOneTimeout(kind, events[..n], allowed);
      SameTimeoutsNeverShorten(kind, Run(kind, events[..n]), 0, events[n].now);
    }
    hide Story, Submitted, TimeoutFor;
    forall serial: nat, k: nat | IsEarly(kind, events, serial, k) ensures false {
      NeverGivenUpEarly(kind, events, serial, k);
    }
  }

  lemma {:induction false} LagSubmitsOnlyTwo(first: Order, last: Order, n: nat)
    ensures SubmitsOnly(FirstAndAnswered(first, last, n), {first, last})
  {
    if n > 0 {
      LagSubmitsOnlyTwo(first, last, n - 1);
    }
  }

  lemma LongerIsGivenUpEarly(kind: Kind, first: Order, last: Order)
    requires TimeoutFor(kind, first.frame) > TimeoutFor(kind, last.frame)
    ensures var events := Lag(first, last, TwoTicks(TimeoutFor(kind, first.frame), TimeoutFor(kind, last.frame)));
            Monotone(events) && SubmitsOnly(events, {first, last}) && GivesUpEarly(kind, events)
  {
    var firstMs, lastMs := TimeoutFor(kind, first.frame), TimeoutFor(kind, last.frame);
    var events := Lag(first, last, TwoTicks(firstMs, lastMs));
    LagSubmitsOnlyTwo(first, last, TWO_16 - 1);
    hide FirstAndAnswered, Run, Story, TimeoutFor;
    GivenUpEarlyExactlyWhen(kind, first, last);
    var k :| 0 <= k < |Story(Run(kind, events).log, 0)| && Story(Run(kind, events).log, 0)[k].Expired? &&
             Story(Run(kind, events).log, 0)[k].at <= Story(Run(kind, events).log, 0)[0].at + 2 * firstMs;
    assert IsEarly(kind, events, 0, k);
  }

  /**
   * Exactly when no command is ever cut short: no run with a monotone clock that submits only commands of a set gives
   * one of them up early if and only if all of them have the same timeout, as all AECP commands do.
   */
  lemma NoneIsCutShortExactlyWhen(kind: Kind, allowed: set<Order>)
    ensures (forall events :: Monotone(events) && SubmitsOnly(events, allowed) ==> !GivesUpEarly(kind, events)) <==>
            OneTimeout(kind, allowed)
  {
    hide Monotone, GivesUpEarly, Lag;
    if OneTimeout(kind, allowed) {
      forall events | Monotone(events) && SubmitsOnly(events, allowed) ensures !GivesUpEarly(kind, events) {
        OneTimeoutIsNeverEarly(kind, events, allowed);
      }
    } else {
      var a, b :| a in allowed && b in allowed && TimeoutFor(kind, a.frame) > TimeoutFor(kind, b.frame);
      hide TimeoutFor;
      LongerIsGivenUpEarly(kind, a, b);
      assert SubmitsOnly(Lag(a, b, TwoTicks(TimeoutFor(kind, a.frame), TimeoutFor(kind, b.frame))), allowed);
    }
  }
}
