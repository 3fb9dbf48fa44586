/**
 * What holds of the two read lists over every run of responses and ticks, whatever the responses contain:
 * conservation, order, batching and quiescence.
 */
module EnumerationRuns {
  import opened EntityModel
  import opened Enumeration

  datatype Event = Arrival(response: Response, now: nat) | TimerTick(now: nat)

  ghost predicate Enabled(s: Station, event: Event) {
    event.Arrival? ==> LookupsDefined(s, event.response)
  }

  ghost function Next(s: Station, event: Event): Station
    requires Enabled(s, event)
  {
    match event
    case Arrival(response, now) => Process(s, response, now)
    case TimerTick(now) => Tick(s, now)
  }

  ghost predicate IsRun(states: seq<Station>, events: seq<Event>) {
    && |states| == |events| + 1
    && states[0] == FRESH
    && forall i :: 0 <= i < |events| ==> Enabled(states[i], events[i]) && states[i + 1] == Next(states[i], events[i])
  }

  /** Every request that is not settled yet, in the order in which it will be. */
  function Outstanding(s: Station): seq<Key> {
    Keys(s.inflight) + Keys(s.pending)
  }

  ghost predicate OneType(reqs: seq<Request>) {
    forall i, j :: 0 <= i < j < |reqs| ==> reqs[i].key.descType == reqs[j].key.descType
  }

  /** Requests are sent in exactly the order queued, in batches of one type, and none is lost or made up. */
  ghost predicate Conserved(s: Station) {
    && s.queued == s.sent + Keys(s.pending)
    && multiset(s.sent) == multiset(Keys(s.inflight)) + multiset(s.answered) + multiset(s.refused) +
       multiset(s.timedOut)
    && OneType(s.inflight)
  }

  ghost predicate QuietWhenIdle(s: Station) {
    s.inflight == [] ==> s.pending == []
  }

  // -------------------------------------------------------------------------------------- the primitive steps

  lemma KeysAppend(a: seq<Request>, b: seq<Request>)
    ensures Keys(a + b) == Keys(a) + Keys(b)
  {
  }

  lemma KeysOfOneMore(reqs: seq<Request>, b: Request)
    ensures Keys(reqs + [b]) == Keys(reqs) + [b.key]
    ensures multiset(Keys(reqs + [b])) == multiset(Keys(reqs)) + multiset{b.key}
  {
    assert Keys(reqs + [b]) == Keys(reqs) + [b.key];
  }

  lemma OneMore(all: multiset<Key>, left: multiset<Key>, done: multiset<Key>, k: Key)
    requires all == left + done
    ensures all + multiset{k} == (left + multiset{k}) + done == left + (done + multiset{k})
  {
  }

  lemma MultisetOfOneMore(keys: seq<Key>, k: Key)
    ensures multiset(keys + [k]) == multiset(keys) + multiset{k}
  {
  }

  lemma {:induction false} WithoutSplits(reqs: seq<Request>, key: Key)
    ensures multiset(Keys(reqs)) == multiset(Keys(Without(reqs, key))) + multiset(Matching(reqs, key))
    ensures forall k :: k in Matching(reqs, key) ==> k == key
  {
    hide Keys;
    if reqs != [] {
      var front, last := reqs[..|reqs| - 1], reqs[|reqs| - 1];
      assert reqs == front + [last];
      WithoutSplits(front, key);
      assert Without(reqs, key) == if last.key == key then Without(front, key) else Without(front, key) + [last];
      assert Matching(reqs, key) == if last.key == key then Matching(front, key) + [last.key] else Matching(front, key);
      hide Without, Matching;
      KeysOfOneMore(front, last);
      OneMore(multiset(Keys(front)), multiset(Keys(Without(front, key))), multiset(Matching(front, key)), last.key);
      if last.key == key {
        MultisetOfOneMore(Matching(front, key), last.key);
      } else {
        KeysOfOneMore(Without(front, key), last);
      }
    }
  }

  lemma {:induction false} WithoutMembers(reqs: seq<Request>, key: Key)
    ensures forall b :: b in Without(reqs, key) <==> b in reqs && b.key != key
    ensures key in Keys(reqs) ==> |Matching(reqs, key)| > 0
  {
    if reqs != [] {
      var front, last := reqs[..|reqs| - 1], reqs[|reqs| - 1];
      WithoutMembers(front, key);
      assert reqs == front + [last];
      KeysOfOneMore(front, last);
    }
  }

  lemma {:induction false} UnexpiredSplits(reqs: seq<Request>, now: nat)
    ensures multiset(Keys(reqs)) == multiset(Keys(Unexpired(reqs, now))) + multiset(ExpiredKeys(reqs, now))
  {
    hide Keys;
    if reqs != [] {
      var front, last := reqs[..|reqs| - 1], reqs[|reqs| - 1];
      assert reqs == front + [last];
      UnexpiredSplits(front, now);
      KeysOfOneMore(front, last);
      OneMore(multiset(Keys(front)), multiset(Keys(Unexpired(front, now))), multiset(ExpiredKeys(front, now)),
          last.key);
      if last.timer.Polled(now).elapsed {
        assert Unexpired(reqs, now) == Unexpired(front, now);
        MultisetOfOneMore(ExpiredKeys(front, now), last.key);
      } else {
        assert ExpiredKeys(reqs, now) == ExpiredKeys(front, now);
        KeysOfOneMore(Unexpired(front, now), last);
      }
    }
  }

  lemma {:induction false} UnexpiredMembers(reqs: seq<Request>, now: nat)
    ensures forall b :: b in Unexpired(reqs, now) ==> b in reqs
  {
    if reqs != [] {
      UnexpiredMembers(reqs[..|reqs| - 1], now);
    }
  }

  lemma OneTypeOfSome(reqs: seq<Request>, some: seq<Request>)
    requires OneType(reqs) && forall b :: b in some ==> b in reqs
    ensures OneType(some)
  {
    forall i, j | 0 <= i < j < |some| ensures some[i].key.descType == some[j].key.descType {
      assert some[i] in reqs && some[j] in reqs;
    }
  }

  lemma QueueKeeps(s: Station, keys: seq<Key>)
    requires Conserved(s)
    ensures Conserved(Queue(s, keys))
    ensures Outstanding(Queue(s, keys)) == Outstanding(s) + keys
  {
    KeysAppend(s.pending, FreshRequests(keys));
    assert Keys(FreshRequests(keys)) == keys;
  }

  lemma UpdateInflightKeeps(s: Station, r: Response)
    requires Conserved(s)
    ensures Conserved(UpdateInflight(s, r))
  {
    hide Without, Matching, Keys;
    var index := DescIndexFromFrame(r.key);
    if index.Some? {
      var key := Key(r.key.descType, index.value);
      WithoutSplits(s.inflight, key);
      WithoutMembers(s.inflight, key);
      OneTypeOfSome(s.inflight, Without(s.inflight, key));
      assert s.answered + [] == s.answered && s.refused + [] == s.refused;
    }
  }

  /** The read that a response of this type and index answers, if its type is one that is known. */
  function AnsweredKey(key: Key): Key {
    if key.descType == Entity then Key(Entity, 0) else key
  }

  lemma {:induction false} MatchingAreCopies(reqs: seq<Request>, key: Key)
    ensures forall k :: multiset(Matching(reqs, key))[k] == if k == key then multiset(Keys(reqs))[key] else 0
    ensures key !in Keys(Without(reqs, key))
  {
    WithoutSplits(reqs, key);
    WithoutMembers(reqs, key);
    var left := Without(reqs, key);
    assert forall i :: 0 <= i < |left| ==> left[i] in left && Keys(left)[i] == left[i].key;
    hide Without, Matching;
    assert multiset(Keys(left))[key] == 0;
    forall k ensures multiset(Matching(reqs, key))[k] == if k == key then multiset(Keys(reqs))[key] else 0 {
      if k in Matching(reqs, key) {
        assert k == key;
      }
    }
  }

  /**
   * A response takes every copy of the read it answers off the wire and settles it, as answered if it was a success and
   * as refused otherwise, and settles nothing else; a response of an unknown type, or one that cannot be parsed,
   * settles nothing.
   */
  lemma ResponseSettlesItsReads(s: Station, r: Response, now: nat, k: Key)
    requires LookupsDefined(s, r)
    ensures var s' := Process(s, r, now);
            var settles := r.parsed && !r.key.descType.Unsupported? && k == AnsweredKey(r.key);
            var copies := if settles then multiset(Keys(s.inflight))[k] else 0;
            && multiset(s'.answered)[k] == multiset(s.answered)[k] + (if r.success then copies else 0)
            && multiset(s'.refused)[k] == multiset(s.refused)[k] + (if r.success then 0 else copies)
            && s'.timedOut == s.timedOut
  {
    hide UpdateInflight, SubmitPending, Keep, NextReads, Keys;
    if r.parsed {
      var stored := StoresDescriptor(s, r);
      var queued := if stored then Queue(Keep(s, r), NextReads(Keep(s, r), r.key)) else s;
      CompletedStaysInStore(s, r);
      InflightSettles(queued, r, k);
      CompletedStays(queued, r, now);
    }
  }

  lemma InflightSettles(s: Station, r: Response, k: Key)
    ensures var s' := UpdateInflight(s, r);
            var settles := !r.key.descType.Unsupported? && k == AnsweredKey(r.key);
            var copies := if settles then multiset(Keys(s.inflight))[k] else 0;
            && multiset(s'.answered)[k] == multiset(s.answered)[k] + (if r.success then copies else 0)
            && multiset(s'.refused)[k] == multiset(s.refused)[k] + (if r.success then 0 else copies)
  {
    hide Without, Matching, Keys;
    MatchingAreCopies(s.inflight, AnsweredKey(r.key));
  }

  /** Nothing is stored of a response that cannot be parsed, is no success, or whose descriptor is malformed. */
  lemma NothingOfItIsStored(s: Station, r: Response, now: nat)
    requires LookupsDefined(s, r)
    requires !r.parsed || !r.success || (!r.wellFormed && r.key.descType != Entity && r.key.descType != Configuration)
    ensures var s' := Process(s, r, now);
            && s'.entities == s.entities && s'.configs == s.configs && s'.store == s.store
            && (!r.parsed ==> s' == s)
  {
    hide UpdateInflight, SubmitPending, NextReads, StoreIn;
    if r.parsed {
      CompletedStays(if StoresDescriptor(s, r) then Queue(Keep(s, r), NextReads(Keep(s, r), r.key)) else s, r, now);
    }
  }

  lemma UpdateTimeoutsKeeps(s: Station, now: nat)
    requires Conserved(s)
    ensures Conserved(UpdateTimeouts(s, now))
  {
    UnexpiredSplits(s.inflight, now);
    UnexpiredMembers(s.inflight, now);
    OneTypeOfSome(s.inflight, Unexpired(s.inflight, now));
  }

  /** A batch is the longest run of requests of one type at the front; everything else stays as it was. */
  lemma SubmitMovesTheMaximalPrefix(s: Station, now: nat)
    ensures var s' := SubmitPending(s, now);
            && (s.inflight != [] || s.pending == [] ==> s' == s)
            && (s.inflight == [] ==>
                  && |s'.inflight| <= |s.pending|
                  && OneType(s'.inflight)
                  && s'.pending == s.pending[|s'.inflight|..]
                  && Keys(s'.inflight) == Keys(s.pending[..|s'.inflight|])
                  && s'.sent == s.sent + Keys(s'.inflight)
                  && (s.pending != [] ==> s'.inflight != [])
                  && (s'.pending != [] ==> s'.pending[0].key.descType != s'.inflight[0].key.descType))
  {
    if s.inflight == [] && s.pending != [] {
      var n := TypeRun(s.pending, s.pending[0].key.descType);
      hide TypeRun;
      assert Keys(StartAll(s.pending[..n], now)) == Keys(s.pending[..n]);
    }
  }

  /** Sending does not change what is outstanding, nor its order, and leaves nothing waiting behind an empty list. */
  lemma SubmitKeepsOutstanding(s: Station, now: nat)
    ensures Outstanding(SubmitPending(s, now)) == Outstanding(s)
    ensures QuietWhenIdle(SubmitPending(s, now))
  {
    SubmitMovesTheMaximalPrefix(s, now);
    var s' := SubmitPending(s, now);
    hide SubmitPending;
    if s.inflight == [] && s.pending != [] {
      var n := |s'.inflight|;
      assert s.pending == s.pending[..n] + s.pending[n..];
      KeysAppend(s.pending[..n], s.pending[n..]);
      assert Keys(s.inflight) == [];
      assert [] + Keys(s.pending) == Keys(s.pending);
    }
  }

  lemma BatchIsConserved(s: Station, s': Station, n: nat)
    requires Conserved(s) && s.inflight == [] && n <= |s.pending|
    requires s'.pending == s.pending[n..] && Keys(s'.inflight) == Keys(s.pending[..n]) && OneType(s'.inflight)
    requires s' == s.(inflight := s'.inflight, pending := s'.pending, sent := s.sent + Keys(s'.inflight))
    ensures Conserved(s')
  {
    KeysSplit(s.pending, n);
    AppendInSteps(s.sent, Keys(s.pending[..n]), Keys(s.pending[n..]));
    assert Keys(s.inflight) == [];
    hide OneType, Keys;
    CountBatch(s.sent, Keys(s'.inflight));
  }

  lemma KeysSplit(reqs: seq<Request>, n: nat)
    requires n <= |reqs|
    ensures Keys(reqs) == Keys(reqs[..n]) + Keys(reqs[n..])
  {
    assert reqs == reqs[..n] + reqs[n..];
    KeysAppend(reqs[..n], reqs[n..]);
  }

  lemma AppendInSteps(a: seq<Key>, b: seq<Key>, c: seq<Key>)
    ensures a + (b + c) == a + b + c
  {
  }

  lemma CountBatch(sent: seq<Key>, batch: seq<Key>)
    ensures multiset(sent + batch) == multiset(batch) + multiset(sent)
  {
  }

  lemma SubmitKeeps(s: Station, now: nat)
    requires Conserved(s)
    ensures Conserved(SubmitPending(s, now))
  {
    SubmitMovesTheMaximalPrefix(s, now);
    hide Conserved, OneType;
    var s' := SubmitPending(s, now);
    if s.inflight == [] && s.pending != [] {
      BatchIsConserved(s, s', |s'.inflight|);
    }
  }

  // ------------------------------------------------------------------------------------------------ all runs

  lemma NextKeeps(s: Station, event: Event)
    requires Conserved(s) && QuietWhenIdle(s) && Enabled(s, event)
    ensures Conserved(Next(s, event)) && QuietWhenIdle(Next(s, event))
  {
    hide Conserved, Outstanding, Keep, NextReads, UpdateInflight, UpdateTimeouts, SubmitPending, Queue;
    match event
    case TimerTick(now) =>
      UpdateTimeoutsKeeps(s, now);
      SubmitKeepsOutstanding(UpdateTimeouts(s, now), now);
      SubmitKeeps(UpdateTimeouts(s, now), now);
    case Arrival(r, now) =>
      if r.parsed {
        var kept := if StoresDescriptor(s, r) then Keep(s, r) else s;
        KeepKeeps(s, r);
        var queued := if StoresDescriptor(s, r) then Queue(kept, NextReads(kept, r.key)) else kept;
        if StoresDescriptor(s, r) {
          QueueKeeps(kept, NextReads(kept, r.key));
        }
        UpdateInflightKeeps(queued, r);
        SubmitKeepsOutstanding(UpdateInflight(queued, r), now);
        SubmitKeeps(UpdateInflight(queued, r), now);
        var done := SubmitPending(UpdateInflight(queued, r), now);
        KeepTouchesNoList(done, done.(completed := done.completed + 1));
      }
  }

  lemma KeepKeeps(s: Station, r: Response)
    requires Conserved(s)
    ensures Conserved(Keep(s, r))
    ensures Keep(s, r).pending == s.pending && Keep(s, r).inflight == s.inflight
  {
    KeepTouchesNoList(s, Keep(s, r));
  }

  /** Only the lists and their histories matter for conservation. */
  lemma KeepTouchesNoList(s: Station, s': Station)
    requires Conserved(s)
    requires s' == s.(entities := s'.entities, configs := s'.configs, currentConfig := s'.currentConfig,
                      store := s'.store, completed := s'.completed)
    ensures Conserved(s')
  {
  }

  /** In every reachable state requests are conserved, and an idle list means that nothing waits. */
  lemma {:induction false} EveryRunConserves(states: seq<Station>, events: seq<Event>, n: nat)
    requires IsRun(states, events) && n < |states|
    ensures Conserved(states[n]) && QuietWhenIdle(states[n])
  {
    if n > 0 {
      EveryRunConserves(states, events, n - 1);
      NextKeeps(states[n - 1], events[n - 1]);
    }
  }

  /**
   * READ_COMPLETED is posted only when every request queued so far has been answered, refused or given up; a
   * response that leaves the lists empty posts it, and a tick never does.
   */
  lemma CompletionMeansSettled(states: seq<Station>, events: seq<Event>, n: nat)
    requires IsRun(states, events) && n < |events|
    ensures var s, s', event := states[n], states[n + 1], events[n];
            && s'.completed == s.completed +
                 (if event.Arrival? && event.response.parsed && s'.HasConfig() && s'.inflight == [] then 1 else 0)
            && (s'.completed > s.completed ==>
                  s'.Quiet() && multiset(s'.queued) ==
                      multiset(s'.answered) + multiset(s'.refused) + multiset(s'.timedOut))
  {
    EveryRunConserves(states, events, n + 1);
    if states[n + 1].Quiet() {
      SettledWhenQuiet(states[n + 1]);
    }
    hide Conserved, Keep, NextReads, UpdateInflight, SubmitPending, UpdateTimeouts, Queue, LookupsDefined;
    CompletedUntouched(states[n], events[n]);
  }

  lemma SettledWhenQuiet(s: Station)
    requires Conserved(s) && s.Quiet()
    ensures multiset(s.queued) == multiset(s.answered) + multiset(s.refused) + multiset(s.timedOut)
  {
    assert Keys(s.inflight) == [] && Keys(s.pending) == [];
    assert s.queued == s.sent;
  }

  lemma CompletedUntouched(s: Station, event: Event)
    requires Enabled(s, event)
    ensures var s' := Next(s, event);
            s'.completed == s.completed +
              if event.Arrival? && event.response.parsed && s'.HasConfig() && s'.Quiet() then 1 else 0
  {
    hide Keep, NextReads, UpdateInflight, SubmitPending, UpdateTimeouts;
    match event
    case TimerTick(now) => CompletedStaysOnTick(s, now);
    case Arrival(r, now) =>
      CompletedStaysInStore(s, r);
      if r.parsed && StoresDescriptor(s, r) {
        CompletedStays(Queue(Keep(s, r), NextReads(Keep(s, r), r.key)), r, now);
      } else {
        CompletedStays(s, r, now);
      }
  }

  lemma CompletedStays(s: Station, r: Response, now: nat)
    ensures var s' := SubmitPending(UpdateInflight(s, r), now);
            && s'.completed == s.completed && s'.configs == s.configs && s'.currentConfig == s.currentConfig
            && s'.entities == s.entities && s'.store == s.store && s'.timedOut == s.timedOut
            && s'.answered == UpdateInflight(s, r).answered && s'.refused == UpdateInflight(s, r).refused
  {
    hide Without, Matching, StartAll, TypeRun;
  }

  lemma CompletedStaysInStore(s: Station, r: Response)
    ensures var s' := Keep(s, r);
            && s'.completed == s.completed && s'.inflight == s.inflight
            && s'.answered == s.answered && s'.refused == s.refused && s'.timedOut == s.timedOut
  {
    hide StoreIn;
  }

  lemma CompletedStaysOnTick(s: Station, now: nat)
    ensures Tick(s, now).completed == s.completed
  {
    hide Unexpired, ExpiredKeys, StartAll, TypeRun;
  }
}
