/**
 * How long a command is kept before it is given up, over every run whose clock is monotone, inside the sequence window
 * or not.  A resend that goes astray can restart the timer of another command; since that one was sent no later, it
 * cannot be given up before the timeout of the command that was sent again has passed as well.
 */
module CommandTimes {
  import opened Basics
  import opened Timers
  import opened Commands
  import opened CommandStories
  import opened CommandTurns
  import opened CommandOutcomes

  /** The least timeout that a command of a kind has. */
  function ShortestTimeoutMs(kind: Kind): uint32 {
    match kind
    case Aecp => AVDECC_MSG_TIMEOUT_MS
    case Acmp => 200
  }

  // ---------------------------------------------------------------------- resends that restart a longer command

  /** The turn of entry `i` sends it again and restarts another command, whose timeout is longer. */
  ghost predicate ShortensAt(m: Machine, i: nat, now: nat)
    requires i < |m.cmds|
  {
    var f := FindSeqId(m.cmds, m.cmds[i].seqId);
    ResendsAt(m, i, now) && f < |m.cmds| && m.cmds[f].timeoutMs > m.cmds[i].timeoutMs
  }

  ghost predicate TickShortens(kind: Kind, m: Machine, i: nat, now: nat)
    decreases |m.cmds| - i
  {
    i < |m.cmds| && (ShortensAt(m, i, now) || TickShortens(kind, Turn(kind, m, i, now), i + 1, now))
  }

  ghost predicate ShortensIn(kind: Kind, events: seq<Event>, n: nat) {
    n < |events| && events[n].TimerTick? && TickShortens(kind, Run(kind, events[..n]), 0, events[n].now)
  }

  /** No tick of the run restarted a command whose timeout is longer than that of the one sent again. */
  ghost predicate NoneShortens(kind: Kind, events: seq<Event>) {
    forall n :: 0 <= n < |events| ==> !ShortensIn(kind, events, n)
  }

  lemma {:induction false} ShorteningTicksStray(kind: Kind, m: Machine, i: nat, now: nat)
    requires TickShortens(kind, m, i, now)
    ensures TickStrays(kind, m, i, now)
    decreases |m.cmds| - i
  {
    hide Turn;
    if ShortensAt(m, i, now) {
      assert FindSeqId(m.cmds, m.cmds[i].seqId) < i;
      assert IsShadowed(m, i);
    } else {
      ShorteningTicksStray(kind, Turn(kind, m, i, now), i + 1, now);
    }
  }

  /** Only a resend that strays can restart a longer command. */
  lemma NoneStraysMeansNoneShortens(kind: Kind, events: seq<Event>)
    requires NoneStrays(kind, events)
    ensures NoneShortens(kind, events)
  {
    hide TickStrays, TickShortens;
    forall n | 0 <= n < |events| ensures !ShortensIn(kind, events, n) {
      assert !StraysIn(kind, events, n);
      if ShortensIn(kind, events, n) {
        ShorteningTicksStray(kind, Run(kind, events[..n]), 0, events[n].now);
      }
    }
  }

  // ------------------------------------------------------------------------------------------- the invariant

  /** What lies at least between the first and the last transmission of a command that was restarted. */
  function Margin(kind: Kind, strict: bool, timeoutMs: uint32): uint32 {
    if strict then timeoutMs else ShortestTimeoutMs(kind)
  }

  ghost predicate AgeOk(kind: Kind, strict: bool, e: Inflight, now: nat) {
    && e.timeoutMs == TimeoutFor(kind, e.frame)
    && e.timer.running && e.timer.count == e.timeoutMs && e.timer.startTime == e.lastSentAt % TWO_32
    && e.firstSentAt <= e.lastSentAt <= now
    && (e.timer.elapsed ==> now > e.lastSentAt + e.timeoutMs)
    && (e.Retried() ==> e.lastSentAt > e.firstSentAt + Margin(kind, strict, e.timeoutMs))
  }

  ghost predicate AgesOk(kind: Kind, strict: bool, cmds: seq<Inflight>, now: nat) {
    && (forall i :: 0 <= i < |cmds| ==> AgeOk(kind, strict, cmds[i], now))
    && (forall i, j :: 0 <= i < j < |cmds| ==> cmds[i].firstSentAt <= cmds[j].firstSentAt)
  }

  /** A story starts with the first transmission, and what ends it by an expiry comes late. */
  ghost predicate StoryTimed(kind: Kind, strict: bool, story: seq<Output>, serial: nat, frame: Frame) {
    var timeoutMs := TimeoutFor(kind, frame);
    && |story| > 0 && story[0].Transmitted? && story[0].frame == frame.(seqId := serial % TWO_16)
    && forall k :: 0 <= k < |story| && story[k].Expired? ==>
         story[k].at > story[0].at + timeoutMs + Margin(kind, strict, timeoutMs)
  }

  ghost predicate StoriesTimed(kind: Kind, strict: bool, m: Machine) {
    && (forall s: nat :: s < |m.orders| ==> StoryTimed(kind, strict, Story(m.log, s), s, m.orders[s].frame))
    && (forall i :: 0 <= i < |m.cmds| ==> BeganAt(Story(m.log, m.cmds[i].serial), m.cmds[i].firstSentAt))
  }

  ghost predicate BeganAt(story: seq<Output>, at: nat) {
    |story| > 0 && story[0].Transmitted? && story[0].at == at
  }

  ghost predicate TimesOk(kind: Kind, strict: bool, m: Machine, now: nat) {
    RecordsOk(m) && AgesOk(kind, strict, m.cmds, now) && StoriesTimed(kind, strict, m)
  }

  lemma TimesStay(kind: Kind, strict: bool, m: Machine, now: nat, later: nat)
    requires TimesOk(kind, strict, m, now) && now <= later
    ensures TimesOk(kind, strict, m, later)
  {
    hide RecordsOk, StoriesTimed;
  }

  // --------------------------------------------------------------------------------------- stories grow in time

  /** Outputs about one command keep the stories timed when those of an entry left in the table start as before. */
  lemma StoriesAfterOutputs(kind: Kind, strict: bool, m: Machine, cmds: seq<Inflight>, serial: nat, outs: seq<Output>)
    requires StoriesTimed(kind, strict, m) && serial < |m.orders|
    requires forall o :: o in outs ==> o.serial == serial
    requires StoryTimed(kind, strict, Story(m.log, serial) + outs, serial, m.orders[serial].frame)
    requires forall k :: 0 <= k < |cmds| ==> IsFrom(m.cmds, cmds[k])
    ensures StoriesTimed(kind, strict, m.(cmds := cmds, log := m.log + outs))
  {
    hide Story, StoryTimed;
    StoriesAfter(m.log, outs, serial);
    forall k | 0 <= k < |cmds| ensures BeganAt(Story(m.log + outs, cmds[k].serial), cmds[k].firstSentAt) {
      assert IsFrom(m.cmds, cmds[k]);
    }
  }

  /** `e` is an entry of `cmds`, or one that differs from it in its timer only. */
  ghost predicate IsFrom(cmds: seq<Inflight>, e: Inflight) {
    exists i :: 0 <= i < |cmds| && cmds[i].serial == e.serial && cmds[i].firstSentAt == e.firstSentAt
  }

  lemma SameAreFrom(cmds: seq<Inflight>, cmds': seq<Inflight>)
    requires SameCommands(cmds, cmds')
    ensures forall k :: 0 <= k < |cmds'| ==> IsFrom(cmds, cmds'[k])
  {
    forall k | 0 <= k < |cmds'| ensures IsFrom(cmds, cmds'[k]) {
      assert SameCommand(cmds[k], cmds'[k]);
    }
  }

  lemma RestIsFrom(cmds: seq<Inflight>, i: nat)
    requires i < |cmds|
    ensures forall k :: 0 <= k < |cmds| - 1 ==> IsFrom(cmds, RemoveAt(cmds, i)[k])
  {
    var rest := RemoveAt(cmds, i);
    forall k | 0 <= k < |rest| ensures IsFrom(cmds, rest[k]) {
      assert rest[k] == cmds[if k < i then k else k + 1];
    }
  }

  lemma AgesOfRest(kind: Kind, strict: bool, cmds: seq<Inflight>, i: nat, now: nat)
    requires AgesOk(kind, strict, cmds, now) && i < |cmds|
    ensures AgesOk(kind, strict, RemoveAt(cmds, i), now)
  {
    hide AgeOk;
    var rest := RemoveAt(cmds, i);
    assert forall k :: 0 <= k < |rest| ==> rest[k] == cmds[if k < i then k else k + 1];
  }

  lemma MoreOfAStory(kind: Kind, strict: bool, story: seq<Output>, outs: seq<Output>, serial: nat, frame: Frame)
    requires StoryTimed(kind, strict, story, serial, frame)
    requires forall o :: o in outs && o.Expired? ==>
               o.at > story[0].at + TimeoutFor(kind, frame) + Margin(kind, strict, TimeoutFor(kind, frame))
    ensures StoryTimed(kind, strict, story + outs, serial, frame)
  {
    hide TimeoutFor, Margin;
    var all := story + outs;
    forall k | 0 <= k < |all| && all[k].Expired?
      ensures all[k].at > all[0].at + TimeoutFor(kind, frame) + Margin(kind, strict, TimeoutFor(kind, frame))
    {
      assert k >= |story| ==> all[k] in outs;
    }
  }

  lemma EndsOfStories(kind: Kind, e: Inflight, response: Frame, now: nat)
    ensures forall o :: o in Launch(kind, e, now) || o in Settle(kind, e, response) ==> !o.Expired?
    ensures forall o :: o in GiveUp(kind, e, now) && o.Expired? ==> o.at == now
  {
  }

  // ------------------------------------------------------------------------------------------ sends and answers

  lemma NewEntryAge(kind: Kind, strict: bool, order: Order, seqId: uint16, serial: nat, now: nat)
    ensures var e := NewEntry(kind, order, seqId, serial, now);
            && AgeOk(kind, strict, e, now) && e.firstSentAt == now && e.serial == serial
            && e.frame == order.frame.(seqId := seqId)
    ensures var story := Launch(kind, NewEntry(kind, order, seqId, serial, now), now);
            seqId == serial % TWO_16 ==> StoryTimed(kind, strict, story, serial, order.frame) && BeganAt(story, now)
  {
  }

  lemma AgesOfOneMore(kind: Kind, strict: bool, cmds: seq<Inflight>, e: Inflight, now: nat)
    requires AgesOk(kind, strict, cmds, now) && AgeOk(kind, strict, e, now) && e.firstSentAt == now
    ensures AgesOk(kind, strict, cmds + [e], now)
  {
    assert forall i :: 0 <= i < |cmds| ==> cmds[i].firstSentAt <= now;
    hide AgeOk;
  }

  lemma StoriesOfOneMore(kind: Kind, strict: bool, m: Machine, order: Order, e: Inflight, outs: seq<Output>, id: uint16)
    requires StoriesTimed(kind, strict, m) && e.serial == |m.orders| && Story(m.log, |m.orders|) == []
    requires forall i :: 0 <= i < |m.cmds| ==> m.cmds[i].serial < |m.orders|
    requires forall o :: o in outs ==> o.serial == |m.orders|
    requires StoryTimed(kind, strict, outs, |m.orders|, order.frame) && BeganAt(outs, e.firstSentAt)
    ensures StoriesTimed(kind, strict, Machine(id, m.cmds + [e], m.orders + [order], m.log + outs))
  {
    hide Story, StoryTimed, BeganAt;
    StoriesAfter(m.log, outs, |m.orders|);
    assert [] + outs == outs;
    var cmds := m.cmds + [e];
    forall i | 0 <= i < |cmds| ensures BeganAt(Story(m.log + outs, cmds[i].serial), cmds[i].firstSentAt) {
      if i < |m.cmds| {
        assert cmds[i] == m.cmds[i] && BeganAt(Story(m.log, m.cmds[i].serial), m.cmds[i].firstSentAt);
      }
    }
  }

  lemma SendKeepsTimes(kind: Kind, strict: bool, m: Machine, order: Order, now: nat)
    requires TimesOk(kind, strict, m, now)
    ensures TimesOk(kind, strict, Send(kind, m, order, now), now)
  {
    var m', e := Send(kind, m, order, now), NewEntry(kind, order, m.nextSeqId, |m.orders|, now);
    assert m.nextSeqId == |m.orders| % TWO_16 && forall i :: 0 <= i < |m.cmds| ==> m.cmds[i].serial < |m.orders|;
    hide RecordsOk, NewEntry, Launch, AgesOk, Story, StoriesTimed, AgeOk;
    RecordsAfterSend(kind, m, order, now);
    NewEntryAge(kind, strict, order, m.nextSeqId, |m.orders|, now);
    AboutOne(kind, e, e.frame, now);
    AgesOfOneMore(kind, strict, m.cmds, e, now);
    StoriesOfOneMore(kind, strict, m, order, e, Launch(kind, e, now), m'.nextSeqId);
  }

  lemma ReceiveKeepsTimes(kind: Kind, strict: bool, m: Machine, response: Frame, now: nat)
    requires TimesOk(kind, strict, m, now)
    ensures TimesOk(kind, strict, Receive(kind, m, response), now)
  {
    RecordsAfterReceive(kind, m, response);
    var j := FindSeqId(m.cmds, response.seqId);
    if Admits(kind, response) && j < |m.cmds| {
      var e := m.cmds[j];
      assert e.serial < |m.orders|;
      assert Receive(kind, m, response) ==
        m.(cmds := RemoveAt(m.cmds, j), log := m.log + Settle(kind, e, response));
      hide RecordsOk, Receive, Settle, Story, StoryTimed, AgesOk, Launch, GiveUp;
      AboutOne(kind, e, response, now);
      EndsOfStories(kind, e, response, now);
      AgesOfRest(kind, strict, m.cmds, j, now);
      RestIsFrom(m.cmds, j);
      MoreOfAStory(kind, strict, Story(m.log, e.serial), Settle(kind, e, response), e.serial, m.orders[e.serial].frame);
      StoriesAfterOutputs(kind, strict, m, RemoveAt(m.cmds, j), e.serial, Settle(kind, e, response));
    }
  }

  // -------------------------------------------------------------------------------------------------- one turn

  lemma PolledAge(kind: Kind, strict: bool, e: Inflight, now: nat)
    requires AgeOk(kind, strict, e, now)
    ensures AgeOk(kind, strict, e.Polled(now), now)
    ensures IsExpired(e, now) ==> now > e.lastSentAt + e.timeoutMs
  {
    ElapsedMsIsDistance(e.lastSentAt, now);
  }

  lemma TimeoutsAreNoShorter(kind: Kind, frame: Frame)
    ensures TimeoutFor(kind, frame) >= ShortestTimeoutMs(kind)
  {
  }

  /** An entry restarted by the expiry of one that was first sent no earlier. */
  lemma RestartedAge(kind: Kind, strict: bool, f: Inflight, e: Inflight, now: nat)
    requires AgeOk(kind, strict, f, now) && AgeOk(kind, strict, e, now)
    requires f.firstSentAt <= e.firstSentAt && now > e.lastSentAt + e.timeoutMs
    requires strict ==> f.timeoutMs <= e.timeoutMs
    ensures AgeOk(kind, strict, f.StartTimer(now), now)
  {
    TimeoutsAreNoShorter(kind, e.frame);
  }

  lemma AgesAfterResend(kind: Kind, strict: bool, m: Machine, i: nat, now: nat)
    requires AgesOk(kind, strict, m.cmds, now) && i < |m.cmds| && ResendsAt(m, i, now)
    requires strict ==> !ShortensAt(m, i, now)
    requires FindSeqId(m.cmds, m.cmds[i].seqId) <= i
    ensures AgesOk(kind, strict, Restarted(m.cmds, i, now), now)
  {
    var f := FindSeqId(m.cmds, m.cmds[i].seqId);
    var polled := m.cmds[i := m.cmds[i].Polled(now)];
    PolledAge(kind, strict, m.cmds[i], now);
    RestartedAge(kind, strict, polled[f], m.cmds[i], now);
    assert Restarted(m.cmds, i, now) == polled[f := polled[f].StartTimer(now)];
    hide AgeOk, FindSeqId, IsExpired, ShortensAt;
  }

  lemma AgesAfterPoll(kind: Kind, strict: bool, cmds: seq<Inflight>, i: nat, now: nat)
    requires AgesOk(kind, strict, cmds, now) && i < |cmds|
    ensures AgesOk(kind, strict, cmds[i := cmds[i].Polled(now)], now)
  {
    PolledAge(kind, strict, cmds[i], now);
    hide AgeOk;
  }

  /** An entry that is given up has been kept for long enough. */
  lemma GivenUpLate(kind: Kind, strict: bool, m: Machine, i: nat, now: nat)
    requires TimesOk(kind, strict, m, now) && i < |m.cmds| && IsExpired(m.cmds[i], now) && m.cmds[i].Retried()
    ensures var e := m.cmds[i];
            && e.serial < |m.orders|
            && StoryTimed(kind, strict, Story(m.log, e.serial) + GiveUp(kind, e, now), e.serial,
                          m.orders[e.serial].frame)
  {
    var e := m.cmds[i];
    assert IsEntryOf(e, m.orders) && AgeOk(kind, strict, e, now);
    PolledAge(kind, strict, e, now);
    assert TimeoutFor(kind, m.orders[e.serial].frame) == e.timeoutMs;
    EndsOfStories(kind, e, e.frame, now);
    hide RecordsOk, Story, GiveUp, Launch, Settle, TimeoutFor, IsExpired;
    assert BeganAt(Story(m.log, e.serial), e.firstSentAt);
    MoreOfAStory(kind, strict, Story(m.log, e.serial), GiveUp(kind, e, now), e.serial, m.orders[e.serial].frame);
  }

  lemma EntryIsTimed(kind: Kind, strict: bool, m: Machine, i: nat, now: nat)
    requires TimesOk(kind, strict, m, now) && i < |m.cmds|
    ensures var e := m.cmds[i];
            && e.serial < |m.orders|
            && StoryTimed(kind, strict, Story(m.log, e.serial), e.serial, m.orders[e.serial].frame)
  {
    hide Story, StoryTimed;
  }

  lemma TurnKeepsTimes(kind: Kind, strict: bool, m: Machine, i: nat, now: nat)
    requires TimesOk(kind, strict, m, now) && i < |m.cmds| && (strict ==> !ShortensAt(m, i, now))
    ensures TimesOk(kind, strict, Turn(kind, m, i, now), now)
  {
    hide IdsOk, IsEntryOf, Turn, Restarted, SameCommands, Launch, Settle, GiveUp, Story, StoryTimed, AgesOk, IsExpired,
      IsFrom, ShortensAt, StoriesTimed;
    var e := m.cmds[i];
    EntryIsTimed(kind, strict, m, i, now);
    TurnKeepsRecords(kind, m, i, now);
    TurnCases(kind, m, i, now);
    AboutOne(kind, e, e.frame, now);
    EndsOfStories(kind, e, e.frame, now);
    RestartedAreSame(m.cmds, i, now);
    if !IsExpired(e, now) {
      AgesAfterPoll(kind, strict, m.cmds, i, now);
      SameAreFrom(m.cmds, m.cmds[i := e.Polled(now)]);
      assert m.log + [] == m.log && Story(m.log, e.serial) + [] == Story(m.log, e.serial);
      StoriesAfterOutputs(kind, strict, m, m.cmds[i := e.Polled(now)], e.serial, []);
    } else if e.Retried() {
      AgesOfRest(kind, strict, m.cmds, i, now);
      RestIsFrom(m.cmds, i);
      GivenUpLate(kind, strict, m, i, now);
      StoriesAfterOutputs(kind, strict, m, RemoveAt(m.cmds, i), e.serial, GiveUp(kind, e, now));
    } else {
      AgesAfterResend(kind, strict, m, i, now);
      SameAreFrom(m.cmds, Restarted(m.cmds, i, now));
      MoreOfAStory(kind, strict, Story(m.log, e.serial), Launch(kind, e, now), e.serial, m.orders[e.serial].frame);
      StoriesAfterOutputs(kind, strict, m, Restarted(m.cmds, i, now), e.serial, Launch(kind, e, now));
    }
  }

  // ---------------------------------------------------------------------------------------------------- all runs

  lemma {:induction false} TickKeepsTimes(kind: Kind, strict: bool, m: Machine, i: nat, now: nat)
    requires TimesOk(kind, strict, m, now) && (strict ==> !TickShortens(kind, m, i, now))
    ensures TimesOk(kind, strict, TickFrom(kind, m, i, now), now)
    decreases |m.cmds| - i
  {
    hide TimesOk, Turn, ShortensAt;
    if i < |m.cmds| {
      TurnKeepsTimes(kind, strict, m, i, now);
      TickKeepsTimes(kind, strict, Turn(kind, m, i, now), i + 1, now);
    }
  }

  lemma EmptyIsTimed(kind: Kind, strict: bool)
    ensures TimesOk(kind, strict, EMPTY, 0)
  {
  }

  lemma PrefixShortens(kind: Kind, events: seq<Event>, last: nat)
    requires last <= |events| && NoneShortens(kind, events)
    ensures NoneShortens(kind, events[..last])
  {
    hide TickShortens, Run;
    forall n | 0 <= n < last ensures !ShortensIn(kind, events[..last], n) {
      assert events[..last][..n] == events[..n] && !ShortensIn(kind, events, n);
    }
  }

  lemma {:induction false} EveryRunKeepsTimes(kind: Kind, strict: bool, events: seq<Event>)
    requires Monotone(events) && (strict ==> NoneShortens(kind, events))
    ensures TimesOk(kind, strict, Run(kind, events), EndOf(events))
  {
    hide TimesOk, Send, Receive, TickFrom, TickShortens;
    if events == [] {
      EmptyIsTimed(kind, strict);
    } else {
      var n := |events| - 1;
      var before := Run(kind, events[..n]);
      if strict {
        PrefixShortens(kind, events, n);
        assert !ShortensIn(kind, events, n);
      }
      EveryRunKeepsTimes(kind, strict, events[..n]);
      TimesStay(kind, strict, before, EndOf(events[..n]), events[n].now);
      match events[n]
      case SendCommand(order, now) => SendKeepsTimes(kind, strict, before, order, now);
      case ReceiveResponse(response, now) => ReceiveKeepsTimes(kind, strict, before, response, now);
      case TimerTick(now) => TickKeepsTimes(kind, strict, before, 0, now);
    }
  }

  /**
   * In every run with a monotone clock, whatever its 32-bit reading does: a command is given up only after its own
   * timeout and the shortest timeout there is have passed since its first transmission, which for AECP is after two
   * full timeouts, more than 500 ms.  For ACMP two full timeouts have passed as well unless a resend restarted a
   * command with a longer timeout than its own, which only a resend that strays can do.
   */
  lemma NeverGivenUpEarly(kind: Kind, events: seq<Event>, serial: nat, k: nat)
    requires Monotone(events) && serial < |Submitted(events)|
    requires var story := Story(Run(kind, events).log, serial); k < |story| && story[k].Expired?
    ensures var story := Story(Run(kind, events).log, serial);
            var timeoutMs := TimeoutFor(kind, Submitted(events)[serial].frame);
            && story[0].Transmitted?
            && story[k].at > story[0].at + timeoutMs + ShortestTimeoutMs(kind)
            && (kind == Aecp ==> story[k].at > story[0].at + 500)
            && (kind == Aecp || NoneShortens(kind, events) || NoneStrays(kind, events) ==>
                  story[k].at > story[0].at + 2 * timeoutMs)
  {
    hide Run, Story, NoneShortens, NoneStrays, Monotone, Submitted;
    OrdersAreSubmissions(kind, events);
    EveryRunKeepsTimes(kind, false, events);
    var m := Run(kind, events);
    assert StoryTimed(kind, false, Story(m.log, serial), serial, m.orders[serial].frame);
    if NoneStrays(kind, events) {
      NoneStraysMeansNoneShortens(kind, events);
    }
    if NoneShortens(kind, events) {
      EveryRunKeepsTimes(kind, true, events);
      assert StoryTimed(kind, true, Story(m.log, serial), serial, m.orders[serial].frame);
    }
  }
}
