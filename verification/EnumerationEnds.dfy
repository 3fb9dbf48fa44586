/**
 * Enumeration ends, whatever the device contains, in whatever order it answers, and whatever the lookups find, if it
 * answers no read more than a given number of times.  An answer is worth the most that any descriptor of its type can
 * lead to; a CONFIGURATION leads nowhere once one is stored, which is what keeps a device from sending the reads in
 * circles.
 */
module EnumerationEnds {
  import opened Basics
  import opened EntityModel
  import opened Enumeration
  import opened EnumerationRuns
  import opened DeviceRuns

  /**
   * What is counted: each read costs 1, and each answer `perAnswer`; a read is answered at most `copies` times.  The
   * AECP machine transmits a read at most twice, so two answers have to be reckoned with.
   */
  datatype Tariff = Tariff(copies: nat, perAnswer: nat)

  /** `n` times `x`, by repeated addition. */
  function Scaled(n: nat, x: nat): nat {
    if n == 0 then 0 else x + Scaled(n - 1, x)
  }

  lemma {:induction false} ScaledSum(n: nat, a: nat, b: nat)
    ensures Scaled(n, a + b) == Scaled(n, a) + Scaled(n, b)
  {
    if n > 0 {
      ScaledSum(n - 1, a, b);
    }
  }

  function Larger(a: nat, b: nat): nat {
    if a < b then b else a
  }

  /** What `n` reads cost when they lead to no others: themselves and their answers. */
  function LeafLoad(t: Tariff, n: nat): nat {
    n + Scaled(t.copies, Scaled(t.perAnswer, n))
  }

  /** The most that the first `n` descriptors of a type can cost, if their reads lead to no others. */
  function MostLeaves(dev: Device, t: Tariff, descType: DescType, n: nat): nat
    requires n <= TWO_16
  {
    if n == 0 then 0
    else Larger(MostLeaves(dev, t, descType, n - 1), LeafLoad(t, |FoundReads(dev, descType, n - 1)|))
  }

  function PortAnswer(dev: Device, t: Tariff, descType: DescType): nat {
    t.perAnswer + MostLeaves(dev, t, descType, TWO_16)
  }

  function PortSum(dev: Device, t: Tariff, keys: seq<Key>): nat {
    if keys == [] then 0 else PortSum(dev, t, keys[..|keys| - 1]) + PortAnswer(dev, t, keys[|keys| - 1].descType)
  }

  /** The most that the first `n` audio units can cost. */
  function MostPorts(dev: Device, t: Tariff, n: nat): nat
    requires n <= TWO_16
  {
    if n == 0 then 0
    else
      var found := FoundReads(dev, AudioUnit, n - 1);
      Larger(MostPorts(dev, t, n - 1), |found| + Scaled(t.copies, PortSum(dev, t, found)))
  }

  /**
   * What one answer of a type can cost once a configuration is stored: itself, the most reads that a descriptor of the
   * type leads to, and their answers.
   */
  function Price(dev: Device, t: Tariff, descType: DescType): nat {
    match descType
    case Configuration => t.perAnswer
    case AudioUnit => t.perAnswer + MostPorts(dev, t, TWO_16)
    case _ => PortAnswer(dev, t, descType)
  }

  function Answer(dev: Device, t: Tariff, key: Key): nat {
    Price(dev, t, key.descType)
  }

  function AnswerSum(dev: Device, t: Tariff, keys: seq<Key>): nat {
    if keys == [] then 0 else AnswerSum(dev, t, keys[..|keys| - 1]) + Answer(dev, t, keys[|keys| - 1])
  }

  /** The replies heard before event `n`, the first one included. */
  function Heard(events: seq<DeviceEvent>, n: nat): (heard: seq<Key>)
    requires n <= |events|
    ensures |heard| > 0
  {
    if n == 0 then [ENTITY] else Heard(events, n - 1) + if events[n - 1].Reply? then [events[n - 1].key] else []
  }

  function Times(copies: nat, keys: seq<Key>): seq<Key> {
    if copies == 0 then [] else keys + Times(copies - 1, keys)
  }

  /** Before event `n` no read that was sent has been answered more than `copies` times. */
  ghost predicate HeardAtMost(copies: nat, s: Station, events: seq<DeviceEvent>, n: nat) {
    n <= |events| && multiset(Heard(events, n)) <= multiset(Times(copies, Asked(s)))
  }

  /** The same at every event up to event `n`. */
  ghost predicate AnswersAtMost(copies: nat, states: seq<Station>, events: seq<DeviceEvent>, n: nat)
    requires n <= |events| && n < |states|
  {
    forall k :: 0 <= k <= n ==> HeardAtMost(copies, states[k], events, k)
  }

  function Settled(s: Station): nat {
    |s.answered| + |s.refused| + |s.timedOut|
  }

  /** What the first CONFIGURATION can lead to, as long as it is not stored. */
  function ConfigurationCost(dev: Device, t: Tariff): nat {
    |Children(dev, CONFIGURATION)| + Scaled(t.copies, AnswerSum(dev, t, Children(dev, CONFIGURATION)))
  }

  /** The reads that are not settled, the answers that can still come, and everything those can lead to. */
  function Remaining(dev: Device, t: Tariff, s: Station, heard: seq<Key>): int {
    |s.queued| - Settled(s)
    + Scaled(t.copies, AnswerSum(dev, t, [ENTITY] + s.queued)) - AnswerSum(dev, t, heard)
    + if s.configs == [] then ConfigurationCost(dev, t) else 0
  }

  /** What can remain once ENTITY was answered for the first time. */
  function CostOfEntity(dev: Device, t: Tariff): int {
    1 + Scaled(t.copies, AnswerSum(dev, t, [ENTITY, CONFIGURATION])) - Answer(dev, t, ENTITY) +
        ConfigurationCost(dev, t)
  }

  // -------------------------------------------------------------------------------------------- sums

  lemma {:induction false} AnswerAppend(dev: Device, t: Tariff, a: seq<Key>, b: seq<Key>)
    ensures AnswerSum(dev, t, a + b) == AnswerSum(dev, t, a) + AnswerSum(dev, t, b)
  {
    hide Answer;
    if b == [] {
      assert a + b == a;
    } else {
      assert (a + b)[..|a + b| - 1] == a + b[..|b| - 1];
      AnswerAppend(dev, t, a, b[..|b| - 1]);
    }
  }

  lemma AnswerOfOne(dev: Device, t: Tariff, k: Key)
    ensures AnswerSum(dev, t, [k]) == Answer(dev, t, k)
  {
    hide Answer;
    assert [k][..0] == [];
  }

  lemma {:induction false} AnswerTimes(dev: Device, t: Tariff, copies: nat, keys: seq<Key>)
    ensures AnswerSum(dev, t, Times(copies, keys)) == Scaled(copies, AnswerSum(dev, t, keys))
  {
    if copies > 0 {
      AnswerTimes(dev, t, copies - 1, keys);
      AnswerAppend(dev, t, keys, Times(copies - 1, keys));
      hide AnswerSum;
    }
  }

  lemma AnswerWithout(dev: Device, t: Tariff, keys: seq<Key>, i: nat)
    requires i < |keys|
    ensures AnswerSum(dev, t, RemoveAt(keys, i)) == AnswerSum(dev, t, keys) - Answer(dev, t, keys[i])
    ensures multiset(RemoveAt(keys, i)) == multiset(keys) - multiset{keys[i]}
  {
    assert keys == keys[..i] + ([keys[i]] + keys[i + 1..]);
    AnswerAppend(dev, t, keys[..i], [keys[i]] + keys[i + 1..]);
    AnswerAppend(dev, t, [keys[i]], keys[i + 1..]);
    AnswerAppend(dev, t, keys[..i], keys[i + 1..]);
    AnswerOfOne(dev, t, keys[i]);
  }

  /** Fewer answers cost less, whatever their order. */
  lemma {:induction false} AnswersWithin(dev: Device, t: Tariff, few: seq<Key>, many: seq<Key>)
    requires multiset(few) <= multiset(many)
    ensures AnswerSum(dev, t, few) <= AnswerSum(dev, t, many)
    decreases |few|
  {
    if few != [] {
      var front, last := few[..|few| - 1], few[|few| - 1];
      assert few == front + [last];
      assert last in multiset(few) && last in multiset(many);
      var i :| 0 <= i < |many| && many[i] == last;
      AnswerWithout(dev, t, many, i);
      hide Answer;
      AnswersWithin(dev, t, front, RemoveAt(many, i));
    }
  }

  // ------------------------------------------------------------------------------------- the cost of children

  /** Descriptors of these types lead to no reads. */
  predicate IsLeaf(t: DescType) {
    t !in {Entity, Configuration, AudioUnit, Locale, StreamPortInput, StreamPortOutput}
  }

  lemma {:induction false} ScaledOne(n: nat)
    ensures Scaled(n, 1) == n && Scaled(n, 0) == 0
  {
    if n > 0 {
      ScaledOne(n - 1);
    }
  }

  lemma {:induction false} LeafTypesReadNothing(dev: Device, t: Tariff, descType: DescType, n: nat)
    requires IsLeaf(descType) && n <= TWO_16
    ensures MostLeaves(dev, t, descType, n) == 0
  {
    if n > 0 {
      LeafTypesReadNothing(dev, t, descType, n - 1);
      assert FoundReads(dev, descType, n - 1) == [];
      hide Scaled;
      ScaledOne(t.perAnswer);
      ScaledOne(t.copies);
    }
  }

  lemma LeafAnswer(dev: Device, t: Tariff, key: Key)
    requires IsLeaf(key.descType) || key.descType == Configuration
    ensures Answer(dev, t, key) == t.perAnswer
  {
    hide MostLeaves, MostPorts;
    if IsLeaf(key.descType) {
      LeafTypesReadNothing(dev, t, key.descType, TWO_16);
    }
  }

  lemma {:induction false} LeavesCostTheirAnswers(dev: Device, t: Tariff, keys: seq<Key>)
    requires forall k :: k in keys ==> IsLeaf(k.descType) || k.descType == Configuration
    ensures AnswerSum(dev, t, keys) == Scaled(t.perAnswer, |keys|)
  {
    hide Answer;
    if keys == [] {
      ScaledOne(t.perAnswer);
    } else {
      var n := |keys| - 1;
      LeavesCostTheirAnswers(dev, t, keys[..n]);
      LeafAnswer(dev, t, keys[n]);
      hide Scaled;
      ScaledSum(t.perAnswer, n, 1);
      ScaledOne(t.perAnswer);
    }
  }

  lemma {:induction false} PortSumIsAnswerSum(dev: Device, t: Tariff, keys: seq<Key>)
    requires forall k :: k in keys ==> k.descType != Configuration && k.descType != AudioUnit
    ensures PortSum(dev, t, keys) == AnswerSum(dev, t, keys)
  {
    hide PortAnswer, MostPorts;
    if keys != [] {
      PortSumIsAnswerSum(dev, t, keys[..|keys| - 1]);
      assert keys[|keys| - 1] in keys;
    }
  }

  lemma {:induction false} MostLeavesIsMost(dev: Device, t: Tariff, descType: DescType, n: nat, x: uint16)
    requires x < n <= TWO_16
    ensures MostLeaves(dev, t, descType, n) >= LeafLoad(t, |FoundReads(dev, descType, x)|)
  {
    hide LeafLoad, FoundReads;
    if x < n - 1 {
      MostLeavesIsMost(dev, t, descType, n - 1, x);
    }
  }

  lemma {:induction false} MostPortsIsMost(dev: Device, t: Tariff, n: nat, x: uint16)
    requires x < n <= TWO_16
    ensures var found := FoundReads(dev, AudioUnit, x);
            MostPorts(dev, t, n) >= |found| + Scaled(t.copies, PortSum(dev, t, found))
  {
    hide Scaled, PortSum, FoundReads;
    if x < n - 1 {
      MostPortsIsMost(dev, t, n - 1, x);
    }
  }

  /** An answer pays for itself, for the reads of any descriptor of its type, and for all of their answers. */
  lemma AnswerCoversReads(dev: Device, t: Tariff, key: Key, x: uint16)
    requires key.descType != Configuration
    ensures var found := FoundReads(dev, key.descType, x);
            t.perAnswer + |found| + Scaled(t.copies, AnswerSum(dev, t, found)) <= Answer(dev, t, key)
  {
    hide Scaled, AnswerSum, PortSum, MostPorts, MostLeaves;
    var found := FoundReads(dev, key.descType, x);
    if key.descType == AudioUnit {
      PortSumIsAnswerSum(dev, t, found);
      MostPortsIsMost(dev, t, TWO_16, x);
    } else {
      LeavesCostTheirAnswers(dev, t, found);
      MostLeavesIsMost(dev, t, key.descType, TWO_16, x);
    }
  }

  lemma AnswerCostsItself(dev: Device, t: Tariff, key: Key)
    ensures Answer(dev, t, key) >= t.perAnswer
  {
    hide MostPorts, MostLeaves;
  }

  // ---------------------------------------------------------------------------------------------- every event

  /** What a reply leads to is paid for by the reply. */
  lemma ReplyPays(dev: Device, t: Tariff, s: Station, heard: seq<Key>, key: Key, ok: bool, now: nat)
    requires Faithful(dev, s) && Possible(dev, s, Reply(key, ok, now))
    ensures var s' := Process(s, ReplyFor(dev, key, ok), now);
            && Remaining(dev, t, s', heard + [key]) + Settled(s') + t.perAnswer <=
                 Remaining(dev, t, s, heard) + Settled(s)
            && Settled(s') == Settled(s) + |Done(s.inflight, key)|
  {
    assert key in Asked(s) && LookupsDefined(s, ReplyFor(dev, key, ok));
    hide Faithful, Possible, LookupsDefined, Process, Remaining;
    var s', more := Process(s, ReplyFor(dev, key, ok), now), NewReads(dev, s, key, ok);
    ReplyEffect(dev, s, key, ok, now);
    WhatReplyLeadsTo(dev, t, s, key, ok);
    hide AnswerSum, Answer, NewReads, Kept, ConfigurationCost, Scaled, Outstanding, Rest, Done, Asked;
    RemainingAfterReply(dev, t, s, s', heard, key, more);
  }

  lemma RemainingAfterReply(dev: Device, t: Tariff, s: Station, s': Station, heard: seq<Key>, key: Key, more: seq<Key>)
    requires s'.queued == s.queued + more && (s.configs != [] ==> s'.configs != [])
    requires var bonus := if s.configs == [] && s'.configs != [] then ConfigurationCost(dev, t) else 0;
             |more| + Scaled(t.copies, AnswerSum(dev, t, more)) + t.perAnswer <= Answer(dev, t, key) + bonus
    ensures Remaining(dev, t, s', heard + [key]) + Settled(s') + t.perAnswer <= Remaining(dev, t, s, heard) + Settled(s)
  {
    hide AnswerSum, Answer, ConfigurationCost, Scaled, Settled;
    AnswerAppend(dev, t, heard, [key]);
    AnswerOfOne(dev, t, key);
    AppendInSteps([ENTITY], s.queued, more);
    AnswerAppend(dev, t, [ENTITY] + s.queued, more);
    ScaledSum(t.copies, AnswerSum(dev, t, [ENTITY] + s.queued), AnswerSum(dev, t, more));
  }

  lemma WhatReplyLeadsTo(dev: Device, t: Tariff, s: Station, key: Key, ok: bool)
    requires Faithful(dev, s) && key in Asked(s) && LookupsDefined(s, ReplyFor(dev, key, ok))
    ensures var more, kept := NewReads(dev, s, key, ok), Kept(dev, s, key, ok);
            var bonus := if s.configs == [] && kept.configs != [] then ConfigurationCost(dev, t) else 0;
            && |more| + Scaled(t.copies, AnswerSum(dev, t, more)) + t.perAnswer <= Answer(dev, t, key) + bonus
            && (s.configs != [] ==> kept.configs != [])
  {
    hide AnswerSum, Answer, Scaled, Asked, LookupsDefined;
    var more := NewReads(dev, s, key, ok);
    NothingCostsNothing(dev, t);
    AnswerCostsItself(dev, t, key);
    if s.configs != [] {
      StaysConfigured(dev, s, key, ok);
    }
    if key.descType == Configuration {
      FirstConfigurationReads(dev, s, key, ok);
    } else if more != [] {
      DeducesSomeReads(dev, s, key, ok);
      var x: uint16 :| more == FoundReads(dev, key.descType, x);
      AnswerCoversReads(dev, t, key, x);
    }
    hide NewReads, Faithful;
  }

  lemma NothingCostsNothing(dev: Device, t: Tariff)
    ensures Scaled(t.copies, AnswerSum(dev, t, [])) == 0
  {
    ScaledOne(t.copies);
  }

  lemma FirstConfigurationReads(dev: Device, s: Station, key: Key, ok: bool)
    requires Faithful(dev, s) && key in Asked(s) && key.descType == Configuration
    requires LookupsDefined(s, ReplyFor(dev, key, ok))
    ensures NewReads(dev, s, key, ok) == [] ||
            (NewReads(dev, s, key, ok) == Children(dev, CONFIGURATION) && s.configs == [] &&
             Kept(dev, s, key, ok).configs != [])
  {
    if s.configs == [] {
      AskedAtFirst(dev, s, key);
      DeducesChildren(dev, s, key, ok);
      hide Children;
    }
  }

  lemma TickPays(dev: Device, t: Tariff, s: Station, heard: seq<Key>, now: nat)
    requires Faithful(dev, s)
    ensures var s' := Tick(s, now);
            && Remaining(dev, t, s', heard) + Settled(s') == Remaining(dev, t, s, heard) + Settled(s)
            && Settled(s') == Settled(s) + |ExpiredKeys(s.inflight, now)|
  {
    TickEffect(s, now);
    hide Tick, AnswerSum, ConfigurationCost, Scaled, Outstanding;
  }

  /**
   * An event settles no fewer reads than before, and what remains falls by the reads it settles and, for a reply, by
   * the price of the answer; a tick settles the reads that time out.
   */
  ghost predicate Pays(dev: Device, t: Tariff, s: Station, heard: seq<Key>, event: DeviceEvent, s': Station,
                       heard': seq<Key>) {
    && Settled(s') >= Settled(s)
    && Remaining(dev, t, s', heard') <=
       Remaining(dev, t, s, heard) - (Settled(s') - Settled(s)) - (if event.Reply? then t.perAnswer else 0)
    && (event.TickAt? ==> Settled(s') - Settled(s) == |ExpiredKeys(s.inflight, event.now)|)
  }

  lemma EventPays(dev: Device, t: Tariff, s: Station, heard: seq<Key>, event: DeviceEvent)
    requires Faithful(dev, s) && Possible(dev, s, event)
    ensures Pays(dev, t, s, heard, event, After(dev, s, event), heard + if event.Reply? then [event.key] else [])
  {
    hide Faithful, LookupsDefined, Process, Tick, Remaining, Settled;
    match event
    case Reply(key, ok, now) => ReplyPays(dev, t, s, heard, key, ok, now);
    case TickAt(now) =>
      TickPays(dev, t, s, heard, now);
      assert heard + [] == heard;
  }

  lemma BeginCosts(dev: Device, t: Tariff, now: nat)
    requires At(dev, ENTITY).currentConfiguration == 0
    ensures var s := Begin(dev, now); Remaining(dev, t, s, [ENTITY]) == CostOfEntity(dev, t) && Settled(s) == 0
  {
    BeginEffect(dev, now);
    AnswerOfOne(dev, t, ENTITY);
    assert [ENTITY] + [CONFIGURATION] == [ENTITY, CONFIGURATION];
    hide Begin, Answer, AnswerSum, ConfigurationCost, Scaled;
  }

  /** Answers that can still come cannot cost less than nothing, so what remains covers every unsettled read. */
  lemma RemainingCoversTheLists(dev: Device, t: Tariff, s: Station, events: seq<DeviceEvent>, n: nat)
    requires Faithful(dev, s) && Conserved(s) && n <= |events| && HeardAtMost(t.copies, s, events, n)
    ensures Remaining(dev, t, s, Heard(events, n)) >= |Outstanding(s)|
    ensures |s.queued| == Settled(s) + |Outstanding(s)|
  {
    hide AnswerSum, ConfigurationCost, Heard, Times, Scaled, Conserved, Outstanding, Answer, Settled, RightContents;
    AnswersWithin(dev, t, Heard(events, n), Times(t.copies, Asked(s)));
    AnswerTimes(dev, t, t.copies, Asked(s));
    AppendInSteps([ENTITY], s.sent, Keys(s.pending));
    AnswerAppend(dev, t, Asked(s), Keys(s.pending));
    hide Faithful, Asked, HeardAtMost;
    ScaledSum(t.copies, AnswerSum(dev, t, Asked(s)), AnswerSum(dev, t, Keys(s.pending)));
    UnsettledAreOutstanding(s);
  }

  lemma UnsettledAreOutstanding(s: Station)
    requires Conserved(s)
    ensures |s.queued| == Settled(s) + |Outstanding(s)|
  {
    assert |s.sent| == |multiset(s.sent)| == |s.inflight| + Settled(s) by {
      assert |multiset(Keys(s.inflight))| == |s.inflight| && |multiset(s.answered)| == |s.answered|;
      assert |multiset(s.refused)| == |s.refused| && |multiset(s.timedOut)| == |s.timedOut|;
    }
  }

  /** Event `n - 1` of a run. */
  lemma StepPays(dev: Device, t: Tariff, states: seq<Station>, events: seq<DeviceEvent>, n: nat)
    requires At(dev, ENTITY).currentConfiguration == 0
    requires IsDeviceRun(dev, states, events) && 0 < n < |states|
    ensures Pays(dev, t, states[n - 1], Heard(events, n - 1), events[n - 1], states[n], Heard(events, n))
  {
    hide Possible, LookupsDefined, After, Pays, Faithful, Happens;
    RunStep(dev, states, events, n - 1);
    EventPays(dev, t, states[n - 1], Heard(events, n - 1), events[n - 1]);
  }

  /**
   * For any finite device and any order of replies, refusals and timeouts: what remains falls by `perAnswer` at every
   * reply and by 1 for every read that is settled, and rises at no event; and if no read is answered more than
   * `copies` times, it never falls below the number of unsettled reads.
   */
  lemma EnumerationTerminates(dev: Device, t: Tariff, states: seq<Station>, events: seq<DeviceEvent>, n: nat)
    requires At(dev, ENTITY).currentConfiguration == 0
    requires IsDeviceRun(dev, states, events) && n < |states|
    ensures var remaining := Remaining(dev, t, states[n], Heard(events, n));
            && remaining + Settled(states[n]) + Scaled(t.perAnswer, |Heard(events, n)| - 1) <= CostOfEntity(dev, t)
            && (AnswersAtMost(t.copies, states, events, n) ==> remaining >= |Outstanding(states[n])|)
            && (n > 0 ==>
                  Pays(dev, t, states[n - 1], Heard(events, n - 1), events[n - 1], states[n], Heard(events, n)))
  {
    hide Remaining, Settled, Conserved, QuietWhenIdle, CostOfEntity, Faithful, Scaled, Outstanding, Heard;
    RemainingIsPaidFor(dev, t, states, events, n);
    if AnswersAtMost(t.copies, states, events, n) {
      assert HeardAtMost(t.copies, states[n], events, n);
      EveryRunIsFaithful(dev, states, events, n);
      RemainingCoversTheLists(dev, t, states[n], events, n);
    }
    if n > 0 {
      StepPays(dev, t, states, events, n);
    }
  }

  lemma {:induction false} RemainingIsPaidFor(
    dev: Device, t: Tariff, states: seq<Station>, events: seq<DeviceEvent>, n: nat)
    requires At(dev, ENTITY).currentConfiguration == 0
    requires IsDeviceRun(dev, states, events) && n < |states|
    ensures Remaining(dev, t, states[n], Heard(events, n)) + Settled(states[n]) +
            Scaled(t.perAnswer, |Heard(events, n)| - 1) <= CostOfEntity(dev, t)
  {
    hide Remaining, Settled, Begin, CostOfEntity, Scaled;
    if n == 0 {
      var now :| states[0] == Begin(dev, now);
      BeginCosts(dev, t, now);
      ScaledOne(t.perAnswer);
    } else {
      RemainingIsPaidFor(dev, t, states, events, n - 1);
      StepPays(dev, t, states, events, n);
      OneMoreAnswer(t.perAnswer, events, n);
    }
  }

  lemma OneMoreAnswer(perAnswer: nat, events: seq<DeviceEvent>, n: nat)
    requires 0 < n <= |events|
    ensures Scaled(perAnswer, |Heard(events, n)| - 1) ==
            Scaled(perAnswer, |Heard(events, n - 1)| - 1) + if events[n - 1].Reply? then perAnswer else 0
  {
    var before, now := |Heard(events, n - 1)| - 1, |Heard(events, n)| - 1;
    if events[n - 1].Reply? {
      hide Scaled;
      ScaledSum(perAnswer, before, 1);
      ScaledOne(perAnswer);
    }
  }

  lemma PaidFor(dev: Device, t: Tariff, states: seq<Station>, events: seq<DeviceEvent>, n: nat)
    requires At(dev, ENTITY).currentConfiguration == 0
    requires IsDeviceRun(dev, states, events) && n < |states| && AnswersAtMost(t.copies, states, events, n)
    ensures |states[n].queued| + Scaled(t.perAnswer, |Heard(events, n)| - 1) <= CostOfEntity(dev, t)
  {
    hide Remaining, CostOfEntity, Settled, Conserved, Faithful, Scaled, Outstanding, QuietWhenIdle, IsDeviceRun,
      AnswersAtMost, Heard;
    EnumerationTerminates(dev, t, states, events, n);
    EveryRunIsFaithful(dev, states, events, n);
    UnsettledAreOutstanding(states[n]);
  }

  /**
   * With at most `copies` answers to each read, the reads ever queued number at most the cost of ENTITY when answers
   * cost nothing; and when an answer costs 1, that cost bounds reads and answers together.
   */
  lemma ReadsAreBounded(dev: Device, copies: nat, states: seq<Station>, events: seq<DeviceEvent>, n: nat)
    requires At(dev, ENTITY).currentConfiguration == 0
    requires IsDeviceRun(dev, states, events) && n < |states| && AnswersAtMost(copies, states, events, n)
    ensures |states[n].queued| <= CostOfEntity(dev, Tariff(copies, 0))
    ensures |states[n].queued| + |Heard(events, n)| - 1 <= CostOfEntity(dev, Tariff(copies, 1))
  {
    hide CostOfEntity, AnswersAtMost, Heard;
    PaidFor(dev, Tariff(copies, 0), states, events, n);
    PaidFor(dev, Tariff(copies, 1), states, events, n);
    var answers := |Heard(events, n)| - 1;
    assert Scaled(1, answers) == answers + Scaled(0, answers);
  }
}
