/**
 * What a station has stored, in terms of the responses it received: in every run, whatever they contain, the
 * descriptors at hand are determined by the responses alone.
 */
module StoredAnswers {
  import opened Basics
  import opened DescriptorStore
  import opened EntityModel
  import opened Enumeration
  import opened EnumerationRuns

  predicate IsAnswer(event: Event, t: DescType) {
    event.Arrival? && event.response.parsed && event.response.success && event.response.key.descType == t
  }

  /** The first ENTITY descriptor received. */
  function FirstEntity(events: seq<Event>): Option<Contents> {
    if events == [] then None
    else
      var before, last := FirstEntity(events[..|events| - 1]), events[|events| - 1];
      if before == None && IsAnswer(last, Entity) then Some(last.response.contents) else before
  }

  /** The first CONFIGURATION descriptor received after it. */
  function FirstConfiguration(events: seq<Event>): Option<Stored<Contents>> {
    if events == [] then None
    else
      var earlier, last := events[..|events| - 1], events[|events| - 1];
      if FirstConfiguration(earlier) == None && FirstEntity(earlier).Some? && IsAnswer(last, Configuration)
      then Some(Stored(last.response.key.index, last.response.contents))
      else FirstConfiguration(earlier)
  }

  /** The well-formed descriptors of another type received after that. */
  function Answers(events: seq<Event>, t: DescType): seq<Stored<Contents>> {
    if events == [] || t.Unsupported? || t == Entity || t == Configuration then []
    else
      var earlier, last := events[..|events| - 1], events[|events| - 1];
      Answers(earlier, t) +
      if FirstConfiguration(earlier).Some? && IsAnswer(last, t) && last.response.wellFormed
      then [Stored(last.response.key.index, last.response.contents)] else []
  }

  function AsSeq<T>(x: Option<T>): seq<T> {
    if x.Some? then [x.value] else []
  }

  /** Every stream port received is kept, in order; of the other types the last one of each index, by index. */
  ghost predicate Holds(v: seq<Stored<Contents>>, t: DescType, answers: seq<Stored<Contents>>) {
    if t == StreamPortInput || t == StreamPortOutput then v == answers else Represents(v, LastValues(answers))
  }

  ghost predicate HoldsAnswers(s: Station, events: seq<Event>) {
    && s.entities == AsSeq(FirstEntity(events))
    && (s.entities != [] ==> s.currentConfig == s.entities[0].currentConfiguration)
    && s.configs == AsSeq(FirstConfiguration(events))
    && (s.configs != [] ==> s.entities != [])
    && forall t :: Holds(Vec(s.store, t), t, Answers(events, t))
  }

  lemma OneMoreAnswer(events: seq<Event>, event: Event, t: DescType)
    ensures FirstEntity(events + [event]) ==
            if FirstEntity(events) == None && IsAnswer(event, Entity) then Some(event.response.contents)
            else FirstEntity(events)
    ensures FirstConfiguration(events + [event]) ==
            if FirstConfiguration(events) == None && FirstEntity(events).Some? && IsAnswer(event, Configuration)
            then Some(Stored(event.response.key.index, event.response.contents))
            else FirstConfiguration(events)
    ensures Answers(events + [event], t) == Answers(events, t) +
            if FirstConfiguration(events).Some? && IsAnswer(event, t) && event.response.wellFormed &&
               !t.Unsupported? && t != Entity && t != Configuration
            then [Stored(event.response.key.index, event.response.contents)] else []
  {
    assert (events + [event])[..|events|] == events;
  }

  /** Storing is all that changes what is stored. */
  lemma StoredByKeeping(s: Station, r: Response, now: nat)
    requires LookupsDefined(s, r)
    ensures var s', kept := Process(s, r, now), if r.parsed && StoresDescriptor(s, r) then Keep(s, r) else s;
            && s'.entities == kept.entities && s'.configs == kept.configs && s'.currentConfig == kept.currentConfig
            && s'.store == kept.store
  {
    hide UpdateInflight, SubmitPending, NextReads, StoreIn, Keep;
    if r.parsed {
      CompletedStays(if StoresDescriptor(s, r) then Queue(Keep(s, r), NextReads(Keep(s, r), r.key)) else s, r, now);
    }
  }

  lemma StoringHolds(store: Store, t: DescType, d: Stored<Contents>, u: DescType, answers: seq<Stored<Contents>>)
    requires Holds(Vec(store, u), u, answers)
    ensures Holds(Vec(StoreIn(store, t, d), u), u, answers + if u == t then [d] else [])
  {
    hide Put, Represents;
    if u == t {
      assert (answers + [d])[..|answers|] == answers;
      if u != StreamPortInput && u != StreamPortOutput {
        PutUpdatesTheMap(Vec(store, u), LastValues(answers), d);
      }
    } else {
      assert answers + [] == answers;
    }
  }

  /** The response is kept exactly when it counts as an answer. */
  lemma KeptWhenAnswer(s: Station, events: seq<Event>, r: Response, now: nat)
    requires s.entities == AsSeq(FirstEntity(events)) && s.configs == AsSeq(FirstConfiguration(events))
    requires s.configs != [] ==> s.entities != []
    ensures var kept, t := if r.parsed && StoresDescriptor(s, r) then Keep(s, r) else s, r.key.descType;
            kept.store == if FirstConfiguration(events).Some? && IsAnswer(Arrival(r, now), t) && r.wellFormed &&
                             !t.Unsupported? && t != Entity && t != Configuration
                          then StoreIn(s.store, t, Stored(r.key.index, r.contents)) else s.store
  {
    hide FirstEntity, FirstConfiguration, StoreIn;
  }

  lemma ArrivalVector(s: Station, events: seq<Event>, r: Response, now: nat, t: DescType)
    requires s.entities == AsSeq(FirstEntity(events)) && s.configs == AsSeq(FirstConfiguration(events))
    requires s.configs != [] ==> s.entities != []
    requires Holds(Vec(s.store, t), t, Answers(events, t))
    ensures var kept := if r.parsed && StoresDescriptor(s, r) then Keep(s, r) else s;
            Holds(Vec(kept.store, t), t, Answers(events + [Arrival(r, now)], t))
  {
    hide StoreIn, Holds, Answers, FirstEntity, FirstConfiguration, Vec, AsSeq, Keep, StoresDescriptor;
    KeptWhenAnswer(s, events, r, now);
    OneMoreAnswer(events, Arrival(r, now), t);
    assert Answers(events, t) + [] == Answers(events, t);
    StoringHolds(s.store, r.key.descType, Stored(r.key.index, r.contents), t, Answers(events, t));
  }

  lemma ArrivalHolds(s: Station, events: seq<Event>, r: Response, now: nat)
    requires LookupsDefined(s, r) && HoldsAnswers(s, events)
    ensures HoldsAnswers(Process(s, r, now), events + [Arrival(r, now)])
  {
    hide Process, StoreIn, Holds, Answers, FirstEntity, FirstConfiguration, LookupsDefined, Vec;
    StoredByKeeping(s, r, now);
    OneMoreAnswer(events, Arrival(r, now), r.key.descType);
    forall t ensures Holds(Vec(Process(s, r, now).store, t), t, Answers(events + [Arrival(r, now)], t)) {
      ArrivalVector(s, events, r, now, t);
    }
  }

  lemma TickHolds(s: Station, events: seq<Event>, now: nat)
    requires HoldsAnswers(s, events)
    ensures HoldsAnswers(Tick(s, now), events + [TimerTick(now)])
  {
    var s' := Tick(s, now);
    hide Unexpired, ExpiredKeys, StartAll, TypeRun, Holds, Answers, FirstEntity, FirstConfiguration;
    assert s'.store == s.store && s'.entities == s.entities && s'.configs == s.configs;
    OneMoreAnswer(events, TimerTick(now), Entity);
    hide Tick;
    forall t ensures Holds(Vec(s'.store, t), t, Answers(events + [TimerTick(now)], t)) {
      OneMoreAnswer(events, TimerTick(now), t);
      assert Answers(events, t) + [] == Answers(events, t);
    }
  }

  /**
   * In every run, whatever was received: the entity is the first ENTITY descriptor, the configuration the first
   * CONFIGURATION descriptor after it, and the vectors hold the well-formed descriptors received after that, of stream
   * ports all of them in order, of every other type the last one of each index, in the order of the indices.
   */
  lemma {:induction false} EveryRunHoldsItsAnswers(states: seq<Station>, events: seq<Event>, n: nat)
    requires IsRun(states, events) && n < |states|
    ensures HoldsAnswers(states[n], events[..n])
  {
    if n == 0 {
      NothingIsHeld();
      assert events[..0] == [];
    } else {
      EveryRunHoldsItsAnswers(states, events, n - 1);
      assert events[..n] == events[..n - 1] + [events[n - 1]];
      hide HoldsAnswers;
      match events[n - 1]
      case Arrival(r, now) => ArrivalHolds(states[n - 1], events[..n - 1], r, now);
      case TimerTick(now) => TickHolds(states[n - 1], events[..n - 1], now);
    }
  }

  lemma NothingIsHeld()
    ensures HoldsAnswers(FRESH, [])
  {
    assert LastValues<Contents>([]) == map[];
  }
}
