/** The end station of controller/lib/src/end_station_imp.cpp, as far as it enumerates descriptors. */
module EndStation {
  import opened Basics
  import opened Timers
  import opened DescriptorStore
  import opened EntityModel
  import opened Enumeration

  /** Erasing the first of what is left of a list, or moving it on. */
  lemma FirstOfTheRest<T>(done: seq<T>, rest: seq<T>)
    requires rest != []
    ensures (done + rest)[|done|] == rest[0]
    ensures RemoveAt(done + rest, |done|) == done + rest[1..]
    ensures done + rest == done + [rest[0]] + rest[1..]
  {
  }

  /** The list in the course of a loop that erases from it while walking over it: what stayed, and what is left. */
  lemma MatchingTurn(reqs: seq<Request>, p: nat, key: Key, list: seq<Request>)
    requires p < |reqs| && list == Without(reqs[..p], key) + reqs[p..]
    ensures var ii, stayed := |Without(reqs[..p], key)|, Without(reqs[..p + 1], key);
            && list[ii] == reqs[p]
            && (if list[ii].key == key then |stayed| == ii && RemoveAt(list, ii) == stayed + reqs[p + 1..]
                else |stayed| == ii + 1 && list == stayed + reqs[p + 1..])
    ensures Matching(reqs[..p + 1], key) == Matching(reqs[..p], key) + if reqs[p].key == key then [reqs[p].key] else []
  {
    assert reqs[..p + 1][..p] == reqs[..p];
    FirstOfTheRest(Without(reqs[..p], key), reqs[p..]);
  }

  lemma TimeoutTurn(reqs: seq<Request>, p: nat, now: nat, list: seq<Request>)
    requires p < |reqs| && list == Unexpired(reqs[..p], now) + reqs[p..]
    ensures var ii, stayed, polled := |Unexpired(reqs[..p], now)|, Unexpired(reqs[..p + 1], now),
            reqs[p].timer.Polled(now);
            && list[ii] == reqs[p]
            && (if polled.elapsed then |stayed| == ii && RemoveAt(list, ii) == stayed + reqs[p + 1..]
                else |stayed| == ii + 1 && list[ii := list[ii].(timer := polled)] == stayed + reqs[p + 1..])
    ensures ExpiredKeys(reqs[..p + 1], now) ==
            ExpiredKeys(reqs[..p], now) + if reqs[p].timer.Polled(now).elapsed then [reqs[p].key] else []
  {
    assert reqs[..p + 1][..p] == reqs[..p];
    FirstOfTheRest(Unexpired(reqs[..p], now), reqs[p..]);
  }

  class EndStationImp {
    var entityDescVec: seq<Contents>
    var configDescVec: seq<Stored<Contents>>
    var currentConfigDesc: uint16
    var descVecs: Store
    var backgroundReadPending: seq<Request>
    var backgroundReadInflight: seq<Request>

    ghost var queued: seq<Key>
    ghost var sent: seq<Key>
    ghost var answered: seq<Key>
    ghost var refused: seq<Key>
    ghost var timedOut: seq<Key>
    ghost var completed: nat

    ghost function State(): Station
      reads this
    {
      Station(entityDescVec, configDescVec, currentConfigDesc, descVecs, backgroundReadPending, backgroundReadInflight,
              queued, sent, answered, refused, timedOut, completed)
    }

    /** The vectors that are kept sorted are sorted. */
    ghost predicate Valid()
      reads this
    {
      forall t :: t != StreamPortInput && t != StreamPortOutput ==> Increasing(Vec(descVecs, t))
    }

    constructor ()
      ensures Valid() && State() == FRESH
    {
      entityDescVec, configDescVec, currentConfigDesc, descVecs := [], [], 0, map[];
      backgroundReadPending, backgroundReadInflight := [], [];
      queued, sent, answered, refused, timedOut, completed := [], [], [], [], [], 0;
    }

    /** The `store_*_desc` methods of the configuration. */
    method StoreDesc(t: DescType, d: Stored<Contents>)
      requires Valid()
      modifies this`descVecs
      ensures Valid() && descVecs == StoreIn(old(descVecs), t, d)
    {
      var vec := Vec(descVecs, t);
      if t == StreamPortInput || t == StreamPortOutput {
        vec := vec + [d];
      } else {
        vec := AddOrReplaceDescriptorAndSort(d, vec);
      }
      descVecs := descVecs[t := vec];
      assert forall u :: u != t ==> Vec(descVecs, u) == Vec(old(descVecs), u);
    }

    method QueueBackgroundReadRequest(descType: DescType, descBaseIndex: uint16, descCount: uint16)
      modifies this`backgroundReadPending, this`queued
      ensures State() == Queue(old(State()), BlockKeys(descType, Block(descBaseIndex, descCount)))
    {
      ghost var keys := BlockKeys(descType, Block(descBaseIndex, descCount));
      for i := 0 to descCount
        invariant backgroundReadPending == old(backgroundReadPending) + FreshRequests(keys[..i])
        invariant queued == old(queued) + keys[..i]
      {
        var key := Key(descType, (descBaseIndex + i) % TWO_16);
        backgroundReadPending := backgroundReadPending + [Request(key, IDLE)];
        queued := queued + [key];
        assert keys[..i + 1] == keys[..i] + [keys[i]];
      }
      assert keys[..descCount] == keys;
    }

    /** Queues what the received descriptor leads to. */
    method BackgroundReadDeduceNext(key: Key)
      requires State().HasCurrentConfig() && IsLookedUp(key.descType) ==>
                 LookupPosition(key) < |Vec(descVecs, key.descType)|
      modifies this`backgroundReadPending, this`queued
      ensures State() == Queue(old(State()), NextReads(old(State()), key))
    {
      ghost var was := State();
      var hasConfig := |entityDescVec| >= 1 && |configDescVec| >= 1 && currentConfigDesc < |configDescVec|;
      if key.descType != Entity && !hasConfig {
        assert Queue(was, []) == was;
        return;
      }
      match key.descType
      case Entity =>
        QueueBackgroundReadRequest(Configuration, 0, 1);
      case Configuration =>
        var counts := configDescVec[currentConfigDesc].contents.counts;
        for j := 0 to |counts|
          invariant State() == Queue(was, CountKeys(counts[..j]))
        {
          QueueBackgroundReadRequest(counts[j].descType, 0, counts[j].count);
          assert counts[..j + 1][..j] == counts[..j];
          QueueTwice(was, CountKeys(counts[..j]), BlockKeys(counts[j].descType, Block(0, counts[j].count)));
        }
        assert counts[..|counts|] == counts;
      case Locale =>
        QueueBackgroundReadRequest(Strings, 0, Vec(descVecs, Locale)[0].contents.strings.count);
      case AudioUnit =>
        var aud := Vec(descVecs, AudioUnit)[key.index].contents;
        QueueBlock(StreamPortInput, aud.streamInputPorts);
        QueueBlock(StreamPortOutput, aud.streamOutputPorts);
        QueueBlock(ExternalPortInput, aud.externalInputPorts);
        QueueBlock(ExternalPortOutput, aud.externalOutputPorts);
        QueueBlock(Control, aud.controls);
        ghost var ins, outs := BlockKeys(StreamPortInput, aud.streamInputPorts),
                             BlockKeys(StreamPortOutput, aud.streamOutputPorts);
        ghost var extIns := BlockKeys(ExternalPortInput, aud.externalInputPorts);
        ghost var extOuts := BlockKeys(ExternalPortOutput, aud.externalOutputPorts);
        QueueTwice(was, ins, outs);
        QueueTwice(was, ins + outs, extIns);
        QueueTwice(was, ins + outs + extIns, extOuts);
        QueueTwice(was, ins + outs + extIns + extOuts, BlockKeys(Control, aud.controls));
      case StreamPortInput =>
        QueueStreamPort(Vec(descVecs, StreamPortInput)[key.index].contents);
      case StreamPortOutput =>
        QueueStreamPort(Vec(descVecs, StreamPortOutput)[key.index].contents);
      case _ =>
        assert Queue(was, []) == was;
    }

    method QueueBlock(descType: DescType, block: Block)
      modifies this`backgroundReadPending, this`queued
      ensures State() == Queue(old(State()), BlockKeys(descType, block))
    {
      QueueBackgroundReadRequest(descType, block.base, block.count);
    }

    /** Controls, clusters and maps, the same for both directions. */
    method QueueStreamPort(port: Contents)
      modifies this`backgroundReadPending, this`queued
      ensures State() == Queue(old(State()),
                BlockKeys(Control, port.controls) + BlockKeys(AudioCluster, port.clusters) +
                BlockKeys(AudioMap, port.maps))
    {
      ghost var was := State();
      QueueBlock(Control, port.controls);
      QueueBlock(AudioCluster, port.clusters);
      QueueBlock(AudioMap, port.maps);
      QueueTwice(was, BlockKeys(Control, port.controls), BlockKeys(AudioCluster, port.clusters));
      QueueTwice(was, BlockKeys(Control, port.controls) + BlockKeys(AudioCluster, port.clusters),
                 BlockKeys(AudioMap, port.maps));
    }

    method BackgroundReadUpdateInflight(r: Response)
      modifies this`backgroundReadInflight, this`answered, this`refused
      ensures State() == UpdateInflight(old(State()), r)
    {
      var index := DescIndexFromFrame(r.key);
      ghost var done := [];
      if index.Some? {
        done := EraseMatching(Key(r.key.descType, index.value));
      }
      if r.success {
        answered := answered + done;
      } else {
        refused := refused + done;
      }
      assert old(answered) + [] == old(answered) && old(refused) + [] == old(refused);
    }

    lemma NothingWalked(reqs: seq<Request>, key: Key)
      ensures Without(reqs[..0], key) == [] && Matching(reqs[..0], key) == [] && reqs[0..] == reqs
    {
    }

    /** Erases from the list it walks over, moving on only past the requests that stay. */
    method EraseMatching(key: Key) returns (ghost done: seq<Key>)
      modifies this`backgroundReadInflight
      ensures backgroundReadInflight == Without(old(backgroundReadInflight), key)
      ensures done == Matching(old(backgroundReadInflight), key)
    {
      hide Without, Matching, RemoveAt;
      ghost var reqs, p := backgroundReadInflight, 0;
      NothingWalked(reqs, key);
      done := [];
      var ii := 0;
      while ii < |backgroundReadInflight|
        invariant 0 <= p <= |reqs| && ii == |Without(reqs[..p], key)|
        invariant backgroundReadInflight == Without(reqs[..p], key) + reqs[p..]
        invariant done == Matching(reqs[..p], key)
        decreases |reqs| - p
      {
        MatchingTurn(reqs, p, key, backgroundReadInflight);
        var b := backgroundReadInflight[ii];
        if b.key == key {
          backgroundReadInflight := RemoveAt(backgroundReadInflight, ii);
          done := done + [b.key];
        } else {
          ii := ii + 1;
        }
        p := p + 1;
      }
      assert reqs[..|reqs|] == reqs && reqs[p..] == [];
    }

    method BackgroundReadUpdateTimeouts(now: nat)
      modifies this`backgroundReadInflight, this`timedOut
      ensures State() == UpdateTimeouts(old(State()), now)
    {
      ghost var gone := EraseExpired(now);
      timedOut := timedOut + gone;
    }

    lemma NonePolled(reqs: seq<Request>, now: nat)
      ensures Unexpired(reqs[..0], now) == [] && ExpiredKeys(reqs[..0], now) == [] && reqs[0..] == reqs
    {
    }

    /** Asks the timer of each request on the wire; the loop moves on only past the requests that stay. */
    method EraseExpired(now: nat) returns (ghost gone: seq<Key>)
      modifies this`backgroundReadInflight
      ensures backgroundReadInflight == Unexpired(old(backgroundReadInflight), now)
      ensures gone == ExpiredKeys(old(backgroundReadInflight), now)
    {
      hide Unexpired, ExpiredKeys, RemoveAt;
      ghost var reqs, p := backgroundReadInflight, 0;
      NonePolled(reqs, now);
      gone := [];
      var ii := 0;
      while ii < |backgroundReadInflight|
        invariant 0 <= p <= |reqs| && ii == |Unexpired(reqs[..p], now)|
        invariant backgroundReadInflight == Unexpired(reqs[..p], now) + reqs[p..]
        invariant gone == ExpiredKeys(reqs[..p], now)
        decreases |reqs| - p
      {
        TimeoutTurn(reqs, p, now, backgroundReadInflight);
        var b := backgroundReadInflight[ii];
        var polled := b.(timer := b.timer.Polled(now));
        if polled.timer.elapsed {
          backgroundReadInflight := RemoveAt(backgroundReadInflight, ii);
          gone := gone + [b.key];
        } else {
          backgroundReadInflight := backgroundReadInflight[ii := polled];
          ii := ii + 1;
        }
        p := p + 1;
      }
      assert reqs[..|reqs|] == reqs && reqs[p..] == [];
    }

    method BackgroundReadSubmitPending(now: nat)
      modifies this`backgroundReadPending, this`backgroundReadInflight, this`sent
      ensures State() == SubmitPending(old(State()), now)
    {
      if backgroundReadInflight == [] && backgroundReadPending != [] {
        ghost var reqs := backgroundReadPending;
        var first := backgroundReadPending[0];
        ghost var n := TypeRun(reqs, first.key.descType);
        SendFirst(now);
        ghost var k := 1;
        if backgroundReadPending != [] {
          var next := backgroundReadPending[0];
          while next.key.descType == first.key.descType
            invariant 1 <= k <= n && k < |reqs|
            invariant backgroundReadPending == reqs[k..] && next == reqs[k]
            invariant backgroundReadInflight == StartAll(reqs[..k], now)
            invariant sent == old(sent) + Keys(reqs[..k])
            decreases |reqs| - k
          {
            assert reqs[..k + 1] == reqs[..k] + [reqs[k]];
            SendFirst(now);
            k := k + 1;
            if backgroundReadPending == [] {
              break;
            } else {
              next := backgroundReadPending[0];
            }
          }
        }
        assert k == n;
        assert reqs[n..] == backgroundReadPending;
      }
    }

    /** Moves the first pending request to the wire. */
    method SendFirst(now: nat)
      requires backgroundReadPending != []
      modifies this`backgroundReadPending, this`backgroundReadInflight, this`sent
      ensures var b := old(backgroundReadPending)[0];
              && backgroundReadPending == old(backgroundReadPending)[1..]
              && backgroundReadInflight ==
                   old(backgroundReadInflight) + [b.(timer := b.timer.Started(READ_TIMEOUT_MS, now))]
              && sent == old(sent) + [b.key]
    {
      var b := backgroundReadPending[0];
      backgroundReadPending := backgroundReadPending[1..];
      sent := sent + [b.key];
      b := b.(timer := b.timer.Started(READ_TIMEOUT_MS, now));
      backgroundReadInflight := backgroundReadInflight + [b];
    }

    /** The second switch on the descriptor type. */
    method KeepDescriptor(r: Response)
      requires Valid()
      modifies this`entityDescVec, this`currentConfigDesc, this`configDescVec, this`descVecs
      ensures Valid() && State() == Keep(old(State()), r)
    {
      match r.key.descType
      case Entity =>
        if |entityDescVec| == 0 {
          entityDescVec := [r.contents];
          currentConfigDesc := r.contents.currentConfiguration;
        }
      case Configuration => configDescVec := configDescVec + [Stored(r.key.index, r.contents)];
      case Unsupported(_) =>
      case _ =>
        if r.wellFormed {
          StoreDesc(r.key.descType, Stored(r.key.index, r.contents));
        }
    }

    /** The first switch on the descriptor type. */
    method ShouldStore(r: Response) returns (storeDescriptor: bool)
      ensures storeDescriptor == StoresDescriptor(State(), r)
    {
      storeDescriptor := false;
      if r.success {
        match r.key.descType
        case Entity => storeDescriptor := true;
        case Configuration => storeDescriptor := |entityDescVec| == 1 && |configDescVec| == 0;
        case _ => storeDescriptor := |entityDescVec| == 1 && |configDescVec| >= 1;
      }
    }

    /** Stores the descriptor if it is wanted, and queues the reads it leads to. */
    method StoreAndDeduce(r: Response)
      requires Valid() && r.parsed && LookupsDefined(State(), r)
      modifies this`entityDescVec, this`currentConfigDesc, this`configDescVec, this`descVecs,
               this`backgroundReadPending, this`queued
      ensures Valid()
      ensures State() == if StoresDescriptor(old(State()), r)
                         then Queue(Keep(old(State()), r), NextReads(Keep(old(State()), r), r.key)) else old(State())
    {
      hide Keep, NextReads, Queue, Vec, Increasing, StoresDescriptor;
      var storeDescriptor := ShouldStore(r);
      if storeDescriptor {
        KeepDescriptor(r);
        BackgroundReadDeduceNext(r.key);
      }
    }

    method ProcReadDescResp(r: Response, now: nat) returns (rc: int)
      requires Valid() && LookupsDefined(State(), r)
      modifies this
      ensures Valid() && State() == Process(old(State()), r, now)
      ensures rc == if r.parsed then 0 else -1
    {
      hide Keep, NextReads, Queue, UpdateInflight, SubmitPending, Vec, Increasing, StoresDescriptor, LookupsDefined;
      if !r.parsed {
        return -1;
      }
      StoreAndDeduce(r);
      BackgroundReadUpdateInflight(r);
      BackgroundReadSubmitPending(now);
      if |entityDescVec| >= 1 && |configDescVec| >= 1 {
        if backgroundReadInflight == [] && backgroundReadPending == [] {
          completed := completed + 1;
        }
      }
      rc := 0;
    }

    method BackgroundTick(now: nat)
      modifies this
      ensures State() == Tick(old(State()), now)
    {
      BackgroundReadUpdateTimeouts(now);
      BackgroundReadSubmitPending(now);
    }
  }

  lemma QueueTwice(s: Station, a: seq<Key>, b: seq<Key>)
    ensures Queue(Queue(s, a), b) == Queue(s, a + b)
  {
    assert FreshRequests(a + b) == FreshRequests(a) + FreshRequests(b);
    assert s.pending + FreshRequests(a) + FreshRequests(b) == s.pending + (FreshRequests(a) + FreshRequests(b));
    assert s.queued + a + b == s.queued + (a + b);
  }
}
