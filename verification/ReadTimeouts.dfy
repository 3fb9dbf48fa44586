/**
 * When a read is given up.  Every read on the wire was sent by the latest event that sent any, because a batch is sent
 * only when the wire is empty; so the time of that event decides for all of them.
 */
module ReadTimeouts {
  import opened Timers
  import opened EntityModel
  import opened Enumeration
  import opened EnumerationRuns

  ghost predicate Monotone(events: seq<Event>) {
    forall i, j :: 0 <= i <= j < |events| ==> events[i].now <= events[j].now
  }

  /** Event `i` put reads on the wire. */
  predicate Sends(states: seq<Station>, i: nat) {
    i + 1 < |states| && |states[i].sent| < |states[i + 1].sent|
  }

  /** The latest event before event `n` that put reads on the wire, or 0. */
  function LastSend(states: seq<Station>, n: nat): (i: nat)
    ensures i < n || i == 0
    ensures forall j :: i < j < n ==> !Sends(states, j)
  {
    if n == 0 then 0 else if Sends(states, n - 1) then n - 1 else LastSend(states, n - 1)
  }

  /** Every timer on the wire was started at this time, for 750 ms, and has not been seen to fire. */
  ghost predicate RunSince(reqs: seq<Request>, at: nat) {
    forall i :: 0 <= i < |reqs| ==> reqs[i].timer == TimerValue(true, false, 750, at % 0x1_0000_0000)
  }

  /** Whatever is on the wire is among the reads from number `from` on. */
  ghost predicate SentFrom(s: Station, from: nat) {
    from <= |s.sent| && forall i :: 0 <= i < |s.inflight| ==> s.inflight[i].key in s.sent[from..]
  }

  lemma SomeRunSince(reqs: seq<Request>, some: seq<Request>, at: nat)
    requires RunSince(reqs, at) && forall b :: b in some ==> b in reqs
    ensures RunSince(some, at)
  {
    forall i | 0 <= i < |some| ensures some[i].timer == TimerValue(true, false, 750, at % 0x1_0000_0000) {
      assert some[i] in reqs;
    }
  }

  lemma SubmitKeepsTimers(s: Station, at: nat, from: nat, now: nat)
    requires RunSince(s.inflight, at) && SentFrom(s, from)
    ensures var s' := SubmitPending(s, now);
            && s.sent <= s'.sent && s'.timedOut == s.timedOut
            && (if |s'.sent| > |s.sent| then s.inflight == [] && RunSince(s'.inflight, now) && SentFrom(s', |s.sent|)
                else RunSince(s'.inflight, at) && SentFrom(s', from))
  {
    if s.inflight == [] && s.pending != [] {
      var n := TypeRun(s.pending, s.pending[0].key.descType);
      var s' := SubmitPending(s, now);
      hide TypeRun;
      assert s'.sent[|s.sent|..] == Keys(s.pending[..n]);
      forall i | 0 <= i < |s'.inflight| ensures s'.inflight[i].key in s'.sent[|s.sent|..] {
        assert s'.inflight[i].key == Keys(s.pending[..n])[i];
      }
    }
  }

  lemma ReceiveKeepsTimers(s: Station, r: Response, at: nat, from: nat)
    requires RunSince(s.inflight, at) && SentFrom(s, from)
    ensures var s' := UpdateInflight(s, r);
            && s'.sent == s.sent && s'.timedOut == s.timedOut
            && RunSince(s'.inflight, at) && SentFrom(s', from)
  {
    hide Without, Matching;
    var index := DescIndexFromFrame(r.key);
    if index.Some? {
      var left := Without(s.inflight, Key(r.key.descType, index.value));
      WithoutMembers(s.inflight, Key(r.key.descType, index.value));
      SomeRunSince(s.inflight, left, at);
      assert forall i :: 0 <= i < |left| ==> left[i] in s.inflight;
    }
  }

  /** More than 750 ms have passed, as the 32-bit clock counts. */
  predicate IsDue(at: nat, now: nat) {
    (now - at) % 0x1_0000_0000 > 750
  }

  lemma OneTimer(b: Request, at: nat, now: nat)
    requires b.timer == TimerValue(true, false, 750, at % 0x1_0000_0000) && at <= now
    ensures b.timer.Polled(now).elapsed <==> IsDue(at, now)
  {
    ElapsedMsIsDistance(at, now);
  }

  lemma OneMorePolled(front: seq<Request>, last: Request, now: nat)
    ensures var elapsed, reqs := last.timer.Polled(now).elapsed, front + [last];
            && Unexpired(reqs, now) == (if elapsed then Unexpired(front, now) else Unexpired(front, now) + [last])
            && ExpiredKeys(reqs, now) ==
                 if elapsed then ExpiredKeys(front, now) + [last.key] else ExpiredKeys(front, now)
  {
    hide TimerValue.Polled;
    assert (front + [last])[..|front|] == front;
  }

  /** Asking timers that were all started together gives all or none. */
  lemma {:induction false} AllOrNone(reqs: seq<Request>, at: nat, now: nat)
    requires RunSince(reqs, at) && at <= now
    ensures if IsDue(at, now) then Unexpired(reqs, now) == [] && ExpiredKeys(reqs, now) == Keys(reqs)
            else Unexpired(reqs, now) == reqs && ExpiredKeys(reqs, now) == []
  {
    if reqs != [] {
      hide TimerValue.Polled, IsDue, Keys, Unexpired, ExpiredKeys;
      var front, last := reqs[..|reqs| - 1], reqs[|reqs| - 1];
      assert reqs == front + [last];
      AllOrNone(front, at, now);
      OneTimer(last, at, now);
      OneMorePolled(front, last, now);
      KeysOfOneMore(front, last);
    }
  }

  lemma StepKeepsTimers(s: Station, event: Event, at: nat, from: nat)
    requires Enabled(s, event) && RunSince(s.inflight, at) && SentFrom(s, from) && at <= event.now
    ensures var s' := Next(s, event);
            && s.sent <= s'.sent
            && (if |s'.sent| > |s.sent| then RunSince(s'.inflight, event.now) && SentFrom(s', |s.sent|)
                else RunSince(s'.inflight, at) && SentFrom(s', from))
            && s'.timedOut == s.timedOut +
                 if event.TimerTick? && IsDue(at, event.now) then Keys(s.inflight) else []
  {
    hide Keep, NextReads, UpdateInflight, SubmitPending, Unexpired, ExpiredKeys, IsDue, Keys;
    assert s.timedOut + [] == s.timedOut;
    match event
    case TimerTick(now) =>
      AllOrNone(s.inflight, at, now);
      var left := UpdateTimeouts(s, now);
      SubmitKeepsTimers(left, at, from, now);
    case Arrival(r, now) =>
      if r.parsed {
        var kept := if StoresDescriptor(s, r) then Keep(s, r) else s;
        KeepTouchesNoTimer(s, r);
        var queued := if StoresDescriptor(s, r) then Queue(kept, NextReads(kept, r.key)) else kept;
        ReceiveKeepsTimers(queued, r, at, from);
        SubmitKeepsTimers(UpdateInflight(queued, r), at, from, now);
      }
  }

  lemma KeepTouchesNoTimer(s: Station, r: Response)
    ensures var s' := Keep(s, r);
            s'.inflight == s.inflight && s'.sent == s.sent && s'.timedOut == s.timedOut
  {
    hide StoreIn;
  }

  lemma {:induction false} RunsSinceTheLastSend(states: seq<Station>, events: seq<Event>, n: nat)
    requires IsRun(states, events) && Monotone(events) && 0 < n < |states|
    ensures var s, i := states[n], LastSend(states, n);
            && s.sent == states[i + 1].sent && SentFrom(s, |states[i].sent|) && RunSince(s.inflight, events[i].now)
  {
    hide Enabled, Next, Keys, IsDue;
    if n > 1 {
      var i := LastSend(states, n - 1);
      RunsSinceTheLastSend(states, events, n - 1);
      StepKeepsTimers(states[n - 1], events[n - 1], events[i].now, |states[i].sent|);
    } else {
      StepKeepsTimers(states[0], events[0], events[0].now, 0);
    }
  }

  /** In every run the reads on the wire are some of those that the latest event to send any has sent. */
  lemma ReadsAreOfTheLastSend(states: seq<Station>, events: seq<Event>, n: nat)
    requires IsRun(states, events) && Monotone(events) && n < |states| && states[n].inflight != []
    ensures var s, i := states[n], LastSend(states, n);
            && i < n && Sends(states, i) && (forall j :: i < j < n ==> !Sends(states, j))
            && states[i + 1].sent == s.sent
            && forall k :: k in Keys(s.inflight) ==> k in s.sent[|states[i].sent|..]
  {
    RunsSinceTheLastSend(states, events, n);
    assert states[n].inflight[0].key in states[n].sent[|states[LastSend(states, n)].sent|..];
  }

  /**
   * In every run with a monotone clock, exactly the ticks give reads up, and a tick gives up either every read on the
   * wire or none: all of them if and only if more than 750 ms have passed since they were sent, as the 32-bit clock
   * counts.  So none is given up within 750 ms, and none outlives a tick that comes after that and before 2^32 ms.
   */
  lemma TimesOutExactlyWhen(states: seq<Station>, events: seq<Event>, n: nat)
    requires IsRun(states, events) && Monotone(events) && n < |events|
    ensures var s, s', sentAt, now := states[n], states[n + 1], events[LastSend(states, n)].now, events[n].now;
            && sentAt <= now
            && s'.timedOut == s.timedOut +
                 (if events[n].TimerTick? && IsDue(sentAt, now) then Keys(s.inflight) else [])
            && (s'.timedOut != s.timedOut ==> events[n].TimerTick? && now > sentAt + 750)
            && (events[n].TimerTick? && 750 < now - sentAt < 0x1_0000_0000 ==>
                  s'.timedOut == s.timedOut + Keys(s.inflight))
  {
    hide Enabled, Next, Monotone, Keys, IsDue, LastSend;
    TimedOutBy(states, events, n);
    DueMeansLate(events[LastSend(states, n)].now, events[n].now);
    hide IsRun;
  }

  lemma TimersAt(states: seq<Station>, events: seq<Event>, n: nat)
    requires IsRun(states, events) && Monotone(events) && n < |events|
    ensures var s, i := states[n], LastSend(states, n);
            && SentFrom(s, |states[i].sent|) && RunSince(s.inflight, events[i].now) && events[i].now <= events[n].now
    ensures Enabled(states[n], events[n]) && states[n + 1] == Next(states[n], events[n])
  {
    hide Enabled, Next, Keys, IsDue;
    if n > 0 {
      RunsSinceTheLastSend(states, events, n);
    }
  }

  lemma TimedOutBy(states: seq<Station>, events: seq<Event>, n: nat)
    requires IsRun(states, events) && Monotone(events) && n < |events|
    ensures var s, s', sentAt, now := states[n], states[n + 1], events[LastSend(states, n)].now, events[n].now;
            && sentAt <= now
            && s'.timedOut == s.timedOut +
                 (if events[n].TimerTick? && IsDue(sentAt, now) then Keys(s.inflight) else [])
            && (!(events[n].TimerTick? && IsDue(sentAt, now)) ==> s'.timedOut == s.timedOut)
  {
    hide Enabled, Next, Keys, IsDue, Monotone, LastSend, RunSince, SentFrom;
    TimersAt(states, events, n);
    hide IsRun;
    var i := LastSend(states, n);
    StepKeepsTimers(states[n], events[n], events[i].now, |states[i].sent|);
    assert states[n].timedOut + [] == states[n].timedOut;
  }

  lemma DueMeansLate(at: nat, now: nat)
    ensures at <= now && IsDue(at, now) ==> now > at + 750
    ensures 750 < now - at < 0x1_0000_0000 ==> IsDue(at, now)
  {
  }
}
