/**
 * What one tick does to the inflight vector.  The source erases from the vector while indexing it, so the entry
 * after an erased one is not looked at in that tick.  The reference below says position by position what
 * happens; the indexed loop is proved to do exactly that.
 */
module CommandTicks {
  import opened Commands

  datatype Action = Waits | Resends | Erased | Skipped

  /** What one tick does to the entry at position `p` of the vector it started with. */
  function ActionAt(cmds: seq<Inflight>, p: nat, now: nat): Action
    requires p < |cmds|
  {
    if p > 0 && ActionAt(cmds, p - 1, now) == Erased then Skipped
    else if !IsExpired(cmds[p], now) then Waits
    else if cmds[p].Retried() then Erased
    else Resends
  }

  /** What is left of one entry. */
  function Outcome(e: Inflight, action: Action, now: nat): seq<Inflight> {
    match action
    case Waits => [e.Polled(now)]
    case Resends => [e.Polled(now).StartTimer(now)]
    case Erased => []
    case Skipped => [e]
  }

  function OutcomeLog(kind: Kind, e: Inflight, action: Action, now: nat): seq<Output> {
    match action
    case Resends => Launch(kind, e, now)
    case Erased => GiveUp(kind, e, now)
    case _ => []
  }

  /** What a tick leaves of the first `p` entries. */
  function Swept(cmds: seq<Inflight>, p: nat, now: nat): seq<Inflight>
    requires p <= |cmds|
  {
    if p == 0 then [] else Swept(cmds, p - 1, now) + Outcome(cmds[p - 1], ActionAt(cmds, p - 1, now), now)
  }

  /** What a tick outputs for the first `p` entries. */
  function SweptLog(kind: Kind, cmds: seq<Inflight>, p: nat, now: nat): seq<Output>
    requires p <= |cmds|
  {
    if p == 0 then []
    else SweptLog(kind, cmds, p - 1, now) + OutcomeLog(kind, cmds[p - 1], ActionAt(cmds, p - 1, now), now)
  }

  /** The machine `m` once a tick is done with its first `p` entries. */
  function SweptTo(kind: Kind, m: Machine, p: nat, now: nat): Machine
    requires p <= |m.cmds|
  {
    m.(cmds := Swept(m.cmds, p, now) + m.cmds[p..], log := m.log + SweptLog(kind, m.cmds, p, now))
  }

  /** Every frame carries the id of its entry, and no two entries have the same id. */
  ghost predicate DistinctIds(cmds: seq<Inflight>) {
    && (forall i :: 0 <= i < |cmds| ==> cmds[i].frame.seqId == cmds[i].seqId)
    && (forall i, j :: 0 <= i < j < |cmds| ==> cmds[i].seqId != cmds[j].seqId)
  }

  /** The loop of `tick`, which erases from the vector it indexes, does exactly what the reference says. */
  lemma TickIsASweep(kind: Kind, m: Machine, now: nat)
    requires DistinctIds(m.cmds)
    ensures Tick(kind, m, now) ==
            m.(cmds := Swept(m.cmds, |m.cmds|, now), log := m.log + SweptLog(kind, m.cmds, |m.cmds|, now))
    ensures DistinctIds(Tick(kind, m, now).cmds)
  {
    assert SweptTo(kind, m, 0, now) == m;
    assert SweptTo(kind, m, |m.cmds|, now).cmds == Swept(m.cmds, |m.cmds|, now);
    SweepFrom(kind, m, 0, now);
  }

  /** The machine once the entry at position `i` is replaced by what is left of it. */
  ghost function After(m: Machine, i: nat, left: seq<Inflight>, outs: seq<Output>): Machine
    requires i < |m.cmds|
  {
    m.(cmds := m.cmds[..i] + left + m.cmds[i + 1..], log := m.log + outs)
  }

  lemma PassOver(kind: Kind, m: Machine, i: nat, now: nat)
    requires i < |m.cmds| && !IsExpired(m.cmds[i], now)
    ensures TickFrom(kind, m, i, now) == TickFrom(kind, After(m, i, [m.cmds[i].Polled(now)], []), i + 1, now)
  {
    assert After(m, i, [m.cmds[i].Polled(now)], []) == PollAt(m, i, now);
  }

  lemma ActOn(kind: Kind, m: Machine, i: nat, now: nat)
    requires DistinctIds(m.cmds) && i < |m.cmds| && IsExpired(m.cmds[i], now)
    ensures var e := m.cmds[i];
            var action := if e.Retried() then Erased else Resends;
            TickFrom(kind, m, i, now) ==
            TickFrom(kind, After(m, i, Outcome(e, action, now), OutcomeLog(kind, e, action, now)), i + 1, now)
  {
    var e, polled := m.cmds[i], PollAt(m, i, now);
    if e.Retried() {
      assert After(m, i, [], GiveUp(kind, e, now)) == StateTimeout(kind, polled, i, now);
    } else {
      assert FindSeqId(polled.cmds, e.frame.seqId) == i;
      assert After(m, i, [e.Polled(now).StartTimer(now)], Launch(kind, e, now)) == StateTimeout(kind, polled, i, now);
    }
  }

  /** Ids stay distinct whatever happens to one entry. */
  lemma IdsStayDistinct(m: Machine, i: nat, left: seq<Inflight>, outs: seq<Output>)
    requires DistinctIds(m.cmds) && i < |m.cmds| && |left| <= 1
    requires left != [] ==> left[0].frame == m.cmds[i].frame && left[0].seqId == m.cmds[i].seqId
    ensures DistinctIds(After(m, i, left, outs).cmds)
  {
    var cmds' := After(m, i, left, outs).cmds;
    var shift := 1 - |left|;
    assert forall k :: 0 <= k < |cmds'| ==>
      cmds'[k].seqId == m.cmds[if k < i then k else k + shift].seqId &&
      cmds'[k].frame == m.cmds[if k < i then k else k + shift].frame;
  }

  lemma NextToSweep(kind: Kind, m: Machine, p: nat, now: nat)
    requires p < |m.cmds|
    ensures var mid, i := SweptTo(kind, m, p, now), |Swept(m.cmds, p, now)|;
            i < |mid.cmds| && mid.cmds[i] == m.cmds[p]
  {
    hide Swept;
  }

  lemma OutcomeKeepsIds(e: Inflight, action: Action, now: nat)
    ensures var left := Outcome(e, action, now);
            |left| <= 1 && (left != [] ==> left[0].frame == e.frame && left[0].seqId == e.seqId)
  {
  }

  lemma ActionWhenNotSkipped(cmds: seq<Inflight>, p: nat, now: nat)
    requires p < |cmds| && (0 < p ==> ActionAt(cmds, p - 1, now) != Erased)
    ensures ActionAt(cmds, p, now) ==
            if !IsExpired(cmds[p], now) then Waits else if cmds[p].Retried() then Erased else Resends
  {
  }

  /** One turn of the loop, at the position `p` of the vector the tick started with. */
  lemma SweepOne(kind: Kind, m: Machine, p: nat, now: nat)
    requires p < |m.cmds| && DistinctIds(SweptTo(kind, m, p, now).cmds)
    requires 0 < p ==> ActionAt(m.cmds, p - 1, now) != Erased
    ensures DistinctIds(SweptTo(kind, m, p + 1, now).cmds)
    ensures var i := |Swept(m.cmds, p, now)|;
            TickFrom(kind, SweptTo(kind, m, p, now), i, now) == TickFrom(kind, SweptTo(kind, m, p + 1, now), i + 1, now)
  {
    var mid, i := SweptTo(kind, m, p, now), |Swept(m.cmds, p, now)|;
    var e, action := m.cmds[p], ActionAt(m.cmds, p, now);
    ActionWhenNotSkipped(m.cmds, p, now);
    NextToSweep(kind, m, p, now);
    OutcomeKeepsIds(e, action, now);
    hide TickFrom, DistinctIds, ActionAt, Swept, IsExpired, SweptTo;
    if action == Waits {
      PassOver(kind, mid, i, now);
    } else {
      ActOn(kind, mid, i, now);
    }
    IdsStayDistinct(mid, i, Outcome(e, action, now), OutcomeLog(kind, e, action, now));
    SweptOneMore(kind, m, p, now);
  }

  lemma SweptOneMore(kind: Kind, m: Machine, p: nat, now: nat)
    requires p < |m.cmds|
    ensures var mid, i := SweptTo(kind, m, p, now), |Swept(m.cmds, p, now)|;
            var e, action := m.cmds[p], ActionAt(m.cmds, p, now);
            After(mid, i, Outcome(e, action, now), OutcomeLog(kind, e, action, now)) == SweptTo(kind, m, p + 1, now)
  {
    var mid, i := SweptTo(kind, m, p, now), |Swept(m.cmds, p, now)|;
    hide ActionAt, Outcome, OutcomeLog, IsExpired;
    assert mid.cmds[..i] == Swept(m.cmds, p, now);
    assert mid.cmds[i..] == m.cmds[p..];
    assert mid.cmds[i + 1..] == m.cmds[p..][1..] == m.cmds[p + 1..];
  }

  /** The entry after an erased one is left as it was. */
  lemma SkipOver(kind: Kind, m: Machine, p: nat, now: nat)
    requires 0 < p < |m.cmds| && ActionAt(m.cmds, p - 1, now) == Erased
    ensures SweptTo(kind, m, p + 1, now) == SweptTo(kind, m, p, now)
    ensures |Swept(m.cmds, p + 1, now)| == |Swept(m.cmds, p - 1, now)| + 1
    ensures ActionAt(m.cmds, p, now) == Skipped
  {
    assert Swept(m.cmds, p, now) == Swept(m.cmds, p - 1, now);
    assert [m.cmds[p]] + m.cmds[p + 1..] == m.cmds[p..];
  }

  lemma SweepEnds(kind: Kind, m: Machine, i: nat, now: nat)
    requires i >= |Swept(m.cmds, |m.cmds|, now)|
    ensures TickFrom(kind, SweptTo(kind, m, |m.cmds|, now), i, now) == SweptTo(kind, m, |m.cmds|, now)
  {
    assert SweptTo(kind, m, |m.cmds|, now).cmds == Swept(m.cmds, |m.cmds|, now);
  }

  lemma {:induction false} SweepFrom(kind: Kind, m: Machine, p: nat, now: nat)
    requires p <= |m.cmds| && DistinctIds(SweptTo(kind, m, p, now).cmds)
    requires 0 < p < |m.cmds| ==> ActionAt(m.cmds, p - 1, now) != Erased
    ensures TickFrom(kind, SweptTo(kind, m, p, now), |Swept(m.cmds, p, now)|, now) == SweptTo(kind, m, |m.cmds|, now)
    ensures DistinctIds(SweptTo(kind, m, |m.cmds|, now).cmds)
    decreases |m.cmds| - p
  {
    hide TickFrom, SweptTo, DistinctIds, IsExpired;
    var i := |Swept(m.cmds, p, now)|;
    if p == |m.cmds| {
      SweepEnds(kind, m, i, now);
    } else {
      SweepOne(kind, m, p, now);
      if ActionAt(m.cmds, p, now) != Erased {
        assert |Swept(m.cmds, p + 1, now)| == i + 1;
        SweepFrom(kind, m, p + 1, now);
      } else if p + 1 < |m.cmds| {
        SkipOver(kind, m, p + 1, now);
        SweepFrom(kind, m, p + 2, now);
      } else {
        SweepEnds(kind, m, i + 1, now);
      }
    }
  }

  // ------------------------------------------------------------------------------------------ progress

  /** A tick changes nothing but expired entries, and passes over one only after erasing the entry before it. */
  lemma TickTouchesOnlyExpired(cmds: seq<Inflight>, p: nat, now: nat)
    requires p < |cmds|
    ensures var action := ActionAt(cmds, p, now);
            && (action == Resends || action == Erased ==> IsExpired(cmds[p], now))
            && (action == Waits || action == Skipped ==> Outcome(cmds[p], action, now) == [cmds[p]])
            && (action == Skipped <==> p > 0 && ActionAt(cmds, p - 1, now) == Erased)
  {
  }

  predicate Acts(cmds: seq<Inflight>, p: nat, now: nat)
    requires p < |cmds|
  {
    ActionAt(cmds, p, now) in {Resends, Erased}
  }

  ghost predicate SomeExpired(cmds: seq<Inflight>, now: nat) {
    exists p :: 0 <= p < |cmds| && IsExpired(cmds[p], now)
  }

  /** An expired entry is acted on, or else the entry just before it is: no tick stalls. */
  lemma ExpiredEntryMovesTheTick(cmds: seq<Inflight>, p: nat, now: nat)
    requires p < |cmds| && IsExpired(cmds[p], now)
    ensures Acts(cmds, p, now) || (p > 0 && Acts(cmds, p - 1, now))
  {
  }

  /** Sends left before every entry is given up: two for a fresh entry, one for a resent one. */
  function Work(cmds: seq<Inflight>): int {
    if cmds == [] then 0 else Work(cmds[..|cmds| - 1]) + 3 - cmds[|cmds| - 1].startTimerCnt
  }

  function Acted(cmds: seq<Inflight>, p: nat, now: nat): nat
    requires p <= |cmds|
  {
    if p == 0 then 0 else Acted(cmds, p - 1, now) + if Acts(cmds, p - 1, now) then 1 else 0
  }

  ghost predicate SentOnceOrTwice(cmds: seq<Inflight>) {
    forall i :: 0 <= i < |cmds| ==> 1 <= cmds[i].startTimerCnt <= 2
  }

  /** Every action of a tick is worth exactly one unit of the work that was left. */
  lemma {:induction false} SweepDoesTheWork(cmds: seq<Inflight>, p: nat, now: nat)
    requires SentOnceOrTwice(cmds) && p <= |cmds|
    ensures Work(Swept(cmds, p, now)) == Work(cmds[..p]) - Acted(cmds, p, now)
  {
    hide Work;
    if p == 0 {
      assert Swept(cmds, p, now) == cmds[..p] == [];
    } else {
      var e, action := cmds[p - 1], ActionAt(cmds, p - 1, now);
      SweepDoesTheWork(cmds, p - 1, now);
      WorkOfOneMore(Swept(cmds, p - 1, now), Outcome(e, action, now));
      WorkOfOneMore(cmds[..p - 1], [e]);
      assert cmds[..p] == cmds[..p - 1] + [e];
    }
  }

  lemma {:induction false} SweepKeepsCounts(cmds: seq<Inflight>, p: nat, now: nat)
    requires SentOnceOrTwice(cmds) && p <= |cmds|
    ensures SentOnceOrTwice(Swept(cmds, p, now))
    ensures forall q :: 0 <= q < p && Acts(cmds, q, now) ==> Acted(cmds, p, now) > 0
  {
    if p > 0 {
      SweepKeepsCounts(cmds, p - 1, now);
    }
  }

  lemma WorkOfOneMore(cmds: seq<Inflight>, left: seq<Inflight>)
    requires |left| <= 1
    ensures Work(cmds + left) == Work(cmds) + if left == [] then 0 else 3 - left[0].startTimerCnt
  {
    if left == [] {
      assert cmds + left == cmds;
    } else {
      assert (cmds + left)[..|cmds|] == cmds;
    }
  }

  lemma {:induction false} WorkIsAtMostTwicePerCommand(cmds: seq<Inflight>)
    requires SentOnceOrTwice(cmds)
    ensures |cmds| <= Work(cmds) <= 2 * |cmds|
  {
    if cmds != [] {
      WorkIsAtMostTwicePerCommand(cmds[..|cmds| - 1]);
    }
  }

  function TickAll(kind: Kind, m: Machine, times: seq<nat>): Machine
    decreases |times|
  {
    if times == [] then m else TickAll(kind, Tick(kind, m, times[0]), times[1..])
  }

  /** How many of the ticks start with an expired entry in the table. */
  ghost function BusyTicks(kind: Kind, m: Machine, times: seq<nat>): nat
    decreases |times|
  {
    if times == [] then 0
    else (if SomeExpired(m.cmds, times[0]) then 1 else 0) + BusyTicks(kind, Tick(kind, m, times[0]), times[1..])
  }

  lemma TickDoesTheWork(kind: Kind, m: Machine, now: nat)
    requires DistinctIds(m.cmds) && SentOnceOrTwice(m.cmds)
    ensures var m' := Tick(kind, m, now);
            && DistinctIds(m'.cmds) && SentOnceOrTwice(m'.cmds)
            && Work(m'.cmds) <= Work(m.cmds) - (if SomeExpired(m.cmds, now) then 1 else 0)
  {
    TickIsASweep(kind, m, now);
    SweepDoesTheWork(m.cmds, |m.cmds|, now);
    SweepKeepsCounts(m.cmds, |m.cmds|, now);
    assert m.cmds[..|m.cmds|] == m.cmds;
    if SomeExpired(m.cmds, now) {
      var p :| 0 <= p < |m.cmds| && IsExpired(m.cmds[p], now);
      ExpiredEntryMovesTheTick(m.cmds, p, now);
    }
  }

  /**
   * Although a tick can pass over expired entries, n commands drain in at most 2n ticks that start with an
   * expired entry, at whatever times the ticks come.
   */
  lemma {:induction false} TicksDrainTheTable(kind: Kind, m: Machine, times: seq<nat>)
    requires DistinctIds(m.cmds) && SentOnceOrTwice(m.cmds)
    ensures BusyTicks(kind, m, times) <= Work(m.cmds) - |TickAll(kind, m, times).cmds|
    ensures BusyTicks(kind, m, times) <= 2 * |m.cmds|
    ensures BusyTicks(kind, m, times) == 2 * |m.cmds| ==> TickAll(kind, m, times).cmds == []
    decreases |times|
  {
    WorkIsAtMostTwicePerCommand(m.cmds);
    if times != [] {
      TickDoesTheWork(kind, m, times[0]);
      TicksDrainTheTable(kind, Tick(kind, m, times[0]), times[1..]);
    }
  }
}
