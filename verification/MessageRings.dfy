/**
 * The ring of 32 slots between the threads that post log messages or notifications and the thread that
 * dispatches them (controller/lib/src/log.cpp, notification.cpp and linux/log_imp.cpp).  Producers are
 * serialized; each of their posts has three steps, reserving an index, filling the slot, and signalling the
 * semaphore, and each turn of the dispatcher two, beginning a callback on a slot and, when it returns, advancing the
 * read index.  Steps of the two sides may alternate in any way.
 */
module MessageRings {
  import opened Basics

  const BUF_COUNT: nat := 32

  /** Each of the messages seen is the one that was meant, or the one 32 places later, which has been filled in. */
  ghost predicate IsGiven<M>(posted: seq<M>, filled: nat, seen: seq<M>, late: seq<bool>) {
    && |late| == |seen| <= filled <= |posted|
    && (forall j :: 0 <= j < |seen| && late[j] ==> j + BUF_COUNT < filled)
    && (forall j :: 0 <= j < |seen| ==> seen[j] == posted[if late[j] then j + BUF_COUNT else j])
  }

  /**
   * The history of a ring.  `posted` are the messages that were given an index; the first `filled` of them have been
   * written to their slots and the first `signalled` announced.  Callback j is given the slot of message j: `begun[j]`
   * is what that slot held when the callback began, and `ended[j]` what it held when the callback returned; `overrun`
   * and `spoiled` say whether the slot had been written over by then.
   */
  datatype Queue<M> = Queue(
    posted: seq<M>, filled: nat, signalled: nat,
    begun: seq<M>, overrun: seq<bool>, ended: seq<M>, spoiled: seq<bool>,
    missed: nat, attempts: nat, shutdown: bool, exited: bool)
  {
    /** The read index counts the callbacks that have returned. */
    predicate Full() {
      |posted| - |ended| > BUF_COUNT
    }

    predicate Idle() {
      signalled == filled == |posted|
    }

    predicate InCallback() {
      |begun| > |ended|
    }

    /** The value of the semaphore. */
    function Waiting(): int {
      signalled - |begun| + (if shutdown then 1 else 0) - (if exited then 1 else 0)
    }

    /** What every reachable ring satisfies; it says nothing about any slot. */
    ghost predicate Ok() {
      && |ended| <= |begun| <= |ended| + 1
      && |begun| <= signalled <= filled <= |posted| <= signalled + 1
      && |posted| <= |ended| + BUF_COUNT + 1
      && attempts == |posted| + missed
      && (shutdown ==> Idle())
      && (exited ==> shutdown && |begun| == |ended| == |posted|)
      && DeliveriesOk()
    }

    /** What callback j is given is message j, or message j + 32 once that was written over it. */
    ghost predicate DeliveriesOk() {
      && |ended| <= |begun| <= filled <= |posted|
      && IsGiven(posted, filled, begun, overrun)
      && IsGiven(posted, filled, ended, spoiled)
      && (forall j :: 0 <= j < |ended| && overrun[j] ==> spoiled[j])
      && (|begun| > |ended| && overrun[|ended|] ==> Overwritten())
    }

    /** The slot under the read index is written over when the message 32 places later is already there. */
    predicate Overwritten() {
      filled > |ended| + BUF_COUNT
    }

    /** What the slot under the read index holds. */
    function Read(): M
      requires |ended| < filled <= |posted|
    {
      if Overwritten() then posted[|ended| + BUF_COUNT] else posted[|ended|]
    }

    function Offered(m: M): Queue<M> {
      if Full() then this.(missed := missed + 1, attempts := attempts + 1)
      else this.(posted := posted + [m], attempts := attempts + 1)
    }

    function Filled(): Queue<M> {
      this.(filled := |posted|)
    }

    function Signalled(): Queue<M> {
      this.(signalled := filled)
    }

    /** A turn of the dispatcher begins: it calls back with the next slot, or leaves the loop when there is none. */
    function Begun(): Queue<M>
      requires Ok() && Waiting() > 0 && !InCallback()
    {
      if |ended| < |posted| then this.(begun := begun + [Read()], overrun := overrun + [Overwritten()])
      else this.(exited := true)
    }

    /** The callback returns, and the read index advances. */
    function Ended(): Queue<M>
      requires |ended| < filled <= |posted|
    {
      this.(ended := ended + [Read()], spoiled := spoiled + [Overwritten()])
    }
  }

  // ------------------------------------------------------------------------------------------------- runs

  datatype Event<M> = Offer(message: M) | Fill | Signal | Begin | End | Shutdown

  ghost predicate Enabled<M>(q: Queue<M>, event: Event<M>) {
    match event
    case Offer(_) => q.Idle() && !q.shutdown
    case Fill => q.filled < |q.posted|
    case Signal => q.signalled < q.filled
    case Begin => q.Waiting() > 0 && !q.exited && !q.InCallback()
    case End => q.InCallback()
    case Shutdown => q.Idle() && !q.shutdown
  }

  ghost function Next<M>(q: Queue<M>, event: Event<M>): Queue<M>
    requires q.Ok() && Enabled(q, event)
  {
    match event
    case Offer(m) => q.Offered(m)
    case Fill => q.Filled()
    case Signal => q.Signalled()
    case Begin => q.Begun()
    case End => q.Ended()
    case Shutdown => q.(shutdown := true)
  }

  function EmptyQueue<M>(): Queue<M> {
    Queue([], 0, 0, [], [], [], [], 0, 0, false, false)
  }

  /**
   * A run of producer and dispatcher steps in some interleaving.  Every state of a run is `Ok` (`EveryRunIsOk`), so
   * the premise of the last clause only makes `Next` well defined.
   */
  ghost predicate IsRun<M>(states: seq<Queue<M>>, events: seq<Event<M>>) {
    && |states| == |events| + 1
    && states[0] == EmptyQueue<M>()
    && forall i :: 0 <= i < |events| ==>
         Enabled(states[i], events[i]) && (states[i].Ok() ==> states[i + 1] == Next(states[i], events[i]))
  }

  lemma GivenAfterPost<M>(posted: seq<M>, m: M, filled: nat, seen: seq<M>, late: seq<bool>)
    ensures IsGiven(posted, filled, seen, late) ==> IsGiven(posted + [m], filled, seen, late)
  {
  }

  lemma OfferKeepsDeliveries<M>(q: Queue<M>, m: M)
    requires q.DeliveriesOk()
    ensures q.Offered(m).DeliveriesOk()
  {
    GivenAfterPost(q.posted, m, q.filled, q.begun, q.overrun);
    GivenAfterPost(q.posted, m, q.filled, q.ended, q.spoiled);
    hide IsGiven;
  }

  lemma FillKeepsDeliveries<M>(q: Queue<M>)
    ensures q.DeliveriesOk() ==> q.Filled().DeliveriesOk()
  {
  }

  /** Neither the semaphore nor the shutdown flag is part of what was delivered. */
  lemma SignalKeepsDeliveries<M>(q: Queue<M>)
    ensures q.DeliveriesOk() ==> q.Signalled().DeliveriesOk() && q.(shutdown := true).DeliveriesOk()
  {
  }

  lemma BeginKeepsDeliveries<M>(q: Queue<M>)
    requires q.Ok() && q.Waiting() > 0 && !q.InCallback()
    ensures q.Begun().DeliveriesOk()
  {
  }

  lemma EndKeepsDeliveries<M>(q: Queue<M>)
    requires q.Ok() && q.InCallback()
    ensures q.Ended().DeliveriesOk()
  {
  }

  lemma StepKeepsOk<M>(q: Queue<M>, event: Event<M>)
    requires q.Ok() && Enabled(q, event)
    ensures Next(q, event).Ok()
    ensures q.posted <= Next(q, event).posted && q.begun <= Next(q, event).begun && q.ended <= Next(q, event).ended
  {
    hide Queue.DeliveriesOk, Queue.Read;
    match event
    case Offer(m) => OfferKeepsDeliveries(q, m);
    case Fill => FillKeepsDeliveries(q);
    case Signal => SignalKeepsDeliveries(q);
    case Shutdown => SignalKeepsDeliveries(q);
    case Begin => BeginKeepsDeliveries(q);
    case End => EndKeepsDeliveries(q);
  }

  /** An attempt to post takes an index when at most 32 messages are between the indices; otherwise it is missed. */
  ghost predicate OfferIsTaken<M>(q: Queue<M>, m: M, next: Queue<M>) {
    && next.posted == q.posted + (if |q.posted| - |q.ended| <= 32 then [m] else [])
    && next.missed == q.missed + if |q.posted| - |q.ended| <= 32 then 0 else 1
  }

  /** A message comes from its place in the order, or from 32 places later. */
  ghost predicate IsFromItsSlot<M>(posted: seq<M>, seen: seq<M>) {
    forall j :: 0 <= j < |seen| ==>
      (j < |posted| && seen[j] == posted[j]) || (j + 32 < |posted| && seen[j] == posted[j + 32])
  }

  lemma OkInNumbers<M>(q: Queue<M>)
    requires q.Ok()
    ensures |q.posted| <= |q.ended| + 33 && IsFromItsSlot(q.posted, q.begun) && IsFromItsSlot(q.posted, q.ended)
  {
  }

  /**
   * In every interleaving: at most 33 messages wait, no callback is given a slot before it was filled, every attempt
   * is either posted or counted as missed, the latter exactly when more than 32 messages are waiting, and callback j is
   * given message j, unless message j + 32 was written over it before the callback began or while it ran.
   */
  lemma {:induction false} EveryRunIsOk<M>(states: seq<Queue<M>>, events: seq<Event<M>>, n: nat)
    requires IsRun(states, events) && n < |states|
    ensures states[n].Ok() && |states[n].posted| <= |states[n].ended| + 33
    ensures IsFromItsSlot(states[n].posted, states[n].begun) && IsFromItsSlot(states[n].posted, states[n].ended)
    ensures n < |events| ==> Enabled(states[n], events[n]) && states[n + 1] == Next(states[n], events[n])
    ensures n < |events| && events[n].Offer? ==> OfferIsTaken(states[n], events[n].message, states[n + 1])
  {
    if n > 0 {
      hide Next, Enabled, Queue.Ok;
      EveryRunIsOk(states, events, n - 1);
      StepKeepsOk(states[n - 1], events[n - 1]);
    }
    OkInNumbers(states[n]);
    if n < |events| && events[n].Offer? {
      assert states[n + 1] == states[n].Offered(events[n].message);
    }
  }

  /** Some message was written over before its callback returned, or is about to be seen so. */
  ghost predicate Disturbed<M>(q: Queue<M>) {
    true in q.overrun || true in q.spoiled || q.Overwritten()
  }

  /**
   * Callbacks see the messages first in, first out, and unchanged while they run, exactly when every message that was
   * written over happens to equal the one that replaced it; in particular when none was written over.
   */
  lemma FifoExactlyWhen<M>(q: Queue<M>)
    requires q.Ok()
    ensures q.begun <= q.posted && q.ended <= q.posted
       <==> forall j :: 0 <= j < |q.begun| && (q.overrun[j] || (j < |q.ended| && q.spoiled[j])) ==>
              q.posted[j] == q.posted[j + BUF_COUNT]
    ensures !Disturbed(q) ==> q.begun <= q.posted && q.ended <= q.posted
  {
    if forall j :: 0 <= j < |q.begun| && (q.overrun[j] || (j < |q.ended| && q.spoiled[j])) ==>
         q.posted[j] == q.posted[j + BUF_COUNT]
    {
      assert q.begun == q.posted[..|q.begun|];
      assert q.ended == q.posted[..|q.ended|];
    }
  }

  /** A slot is filled for a 33rd message. */
  ghost predicate FillsThirtyThird<M>(q: Queue<M>, event: Event<M>) {
    event.Fill? && |q.posted| - |q.ended| == 33
  }

  lemma StepDisturbsExactlyWhen<M>(q: Queue<M>, event: Event<M>)
    requires q.Ok() && Enabled(q, event)
    ensures Disturbed(Next(q, event)) <==> Disturbed(q) || FillsThirtyThird(q, event)
  {
    hide Queue.DeliveriesOk, Queue.Read;
    var next := Next(q, event);
    assert event.Begin? && next.overrun != q.overrun ==>
           (true in next.overrun <==> true in q.overrun || q.Overwritten());
    assert event.End? ==> (true in next.spoiled <==> true in q.spoiled || q.Overwritten());
  }

  ghost predicate ThirtyThirdFilledAt<M>(states: seq<Queue<M>>, events: seq<Event<M>>, i: nat) {
    i < |events| < |states| && FillsThirtyThird(states[i], events[i])
  }

  /**
   * In every run a message is written over exactly when a slot was filled while 33 messages were between the indices:
   * once everything posted was delivered, some callback ended on another message's slot if and only if that happened;
   * and if it never happened, callbacks have seen the messages first in, first out, and unchanged.
   */
  lemma {:induction false} DisturbedExactlyWhen<M>(states: seq<Queue<M>>, events: seq<Event<M>>, n: nat)
    requires IsRun(states, events) && n < |states|
    ensures Disturbed(states[n]) <==> exists i :: 0 <= i < n && ThirtyThirdFilledAt(states, events, i)
    ensures |states[n].ended| == |states[n].posted| ==>
              (true in states[n].spoiled <==> exists i :: 0 <= i < n && ThirtyThirdFilledAt(states, events, i))
    ensures (forall i :: 0 <= i < n ==> !ThirtyThirdFilledAt(states, events, i)) ==>
              states[n].begun <= states[n].posted && states[n].ended <= states[n].posted
  {
    hide Queue.Ok, Next, Enabled, FillsThirtyThird;
    EveryRunIsOk(states, events, n);
    if n == 0 {
      assert !Disturbed(EmptyQueue<M>());
    } else {
      hide Disturbed;
      DisturbedExactlyWhen(states, events, n - 1);
      EveryRunIsOk(states, events, n - 1);
      hide IsRun;
      StepDisturbsExactlyWhen(states[n - 1], events[n - 1]);
      assert ThirtyThirdFilledAt(states, events, n - 1) <==> FillsThirtyThird(states[n - 1], events[n - 1]);
    }
    hide IsRun, ThirtyThirdFilledAt, Disturbed;
    FifoExactlyWhen(states[n]);
    OverrunIsSpoiled(states[n]);
  }

  lemma OverrunIsSpoiled<M>(q: Queue<M>)
    requires q.Ok()
    ensures |q.ended| == |q.posted| ==> (Disturbed(q) <==> true in q.spoiled)
  {
    if true in q.overrun && |q.ended| == |q.posted| {
      var j :| 0 <= j < |q.overrun| && q.overrun[j];
      assert q.spoiled[j];
    }
  }

  /** The ring takes a 33rd message, and that one replaces the oldest. */
  lemma ThirtyThirdReplacesTheOldest<M>(q: Queue<M>, m: M)
    requires q.Ok() && q.Idle() && !q.exited && !q.InCallback() && |q.posted| == |q.ended| + 32
    ensures var q33 := q.Offered(m).Filled().Signalled();
            !q.Full() && q33.Ok() && q33.Begun().begun == q.begun + [m]
  {
    OfferKeepsDeliveries(q, m);
    assert q.Offered(m).posted[|q.ended| + BUF_COUNT] == m;
    FillKeepsDeliveries(q.Offered(m));
    hide Queue.DeliveriesOk;
    assert q.Offered(m).Filled().Signalled().DeliveriesOk() by {
      SignalKeepsDeliveries(q.Offered(m).Filled());
    }
  }

  /** When it comes while the oldest message is in its callback, the text changes under the callback. */
  lemma ThirtyThirdChangesARunningCallback<M>(q: Queue<M>, m: M)
    requires q.Ok() && q.Idle() && q.InCallback() && !q.shutdown && |q.posted| == |q.ended| + 32
    ensures var q33 := q.Offered(m).Filled();
            !q.Full() && q33.Ok() && q.begun[|q.ended|] == q.posted[|q.ended|] && q33.Ended().ended == q.ended + [m]
  {
    StepKeepsOk(q, Offer(m));
    StepKeepsOk(q.Offered(m), Fill);
    assert q.Offered(m).posted[|q.ended| + BUF_COUNT] == m;
  }

  /** The dispatcher leaves its loop only after the shutdown, when everything posted has been delivered. */
  lemma DispatcherOutlivesTheMessages<M>(states: seq<Queue<M>>, events: seq<Event<M>>, n: nat)
    requires IsRun(states, events) && n < |states|
    ensures states[n].exited ==> states[n].shutdown && |states[n].ended| == |states[n].posted|
    ensures !states[n].shutdown && states[n].Waiting() > 0 ==> |states[n].begun| < states[n].filled
  {
    EveryRunIsOk(states, events, n);
  }

  // ------------------------------------------------------------------------------------------ the ring itself

  class MessageRing<M(0)> {
    var readIndex: uint32
    var writeIndex: uint32
    var missed: uint32
    const buf: array<M>
    var waiting: nat

    ghost var q: Queue<M>

    ghost predicate Valid()
      reads this, buf
    {
      && buf.Length == BUF_COUNT
      && q.Ok()
      && writeIndex == |q.posted| % TWO_32
      && readIndex == |q.ended| % TWO_32
      && missed == q.missed % TWO_32
      && waiting == q.Waiting()
      && forall k :: 0 <= k < q.filled && k + BUF_COUNT >= q.filled ==> buf[k % BUF_COUNT] == q.posted[k]
    }

    constructor ()
      ensures Valid() && q == EmptyQueue()
      ensures fresh(buf)
    {
      readIndex, writeIndex, missed, waiting := 0, 0, 0, 0;
      buf := new M[BUF_COUNT];
      q := EmptyQueue();
    }

    /** The unsigned difference of the two indices is the number of messages between them. */
    lemma IndicesMeasureOccupancy()
      requires Valid()
      ensures (writeIndex - readIndex) % TWO_32 == |q.posted| - |q.ended|
    {
      var w, r := |q.posted|, |q.ended|;
      assert writeIndex - readIndex == (w - r) + (r / TWO_32 - w / TWO_32) * TWO_32;
    }

    /** The capacity check and the increment of the write index. */
    method Reserve(m: M) returns (accepted: bool, index: uint32)
      requires Valid() && q.Idle() && !q.shutdown
      modifies this
      ensures Valid() && q == old(q).Offered(m)
      ensures accepted == !old(q).Full()
      ensures accepted ==> index == |old(q).posted| % TWO_32
    {
      hide Queue.DeliveriesOk, Queue.Read;
      IndicesMeasureOccupancy();
      NextIndex(|q.posted|);
      NextIndex(q.missed);
      StepKeepsOk(q, Offer(m));
      index := writeIndex;
      if (writeIndex - readIndex) % TWO_32 > BUF_COUNT {
        missed := (missed + 1) % TWO_32;
        accepted := false;
      } else {
        writeIndex := (writeIndex + 1) % TWO_32;
        accepted := true;
      }
      q := q.Offered(m);
    }

    /** Writing the slot that was reserved. */
    method FillSlot(index: uint32, m: M)
      requires Valid() && q.filled < |q.posted|
      requires q.posted[q.filled] == m && index == q.filled % TWO_32
      modifies this`q, buf
      ensures Valid() && q == old(q).Filled()
    {
      SlotOf(q.filled);
      buf[index % BUF_COUNT] := m;
      ghost var last := q.filled;
      q := q.Filled();
      forall k | 0 <= k < q.filled && k + BUF_COUNT >= q.filled
        ensures buf[k % BUF_COUNT] == q.posted[k]
      {
        if k < last {
          DifferentSlots(k, last);
        }
      }
    }

    method SignalOne()
      requires Valid() && q.signalled < q.filled
      modifies this`waiting, this`q
      ensures Valid() && q == old(q).Signalled()
    {
      StepKeepsOk(q, Signal);
      hide Queue.DeliveriesOk, Queue.Read;
      waiting := waiting + 1;
      q := q.Signalled();
    }

    /** The three steps of one post, when no dispatcher step falls between them. */
    method Post(m: M)
      requires Valid() && q.Idle() && !q.shutdown
      modifies this, buf
      ensures Valid() && q.Idle()
      ensures q == if old(q).Full() then old(q).Offered(m) else old(q).Offered(m).Filled().Signalled()
    {
      var accepted, index := Reserve(m);
      if accepted {
        FillSlot(index, m);
        SignalOne();
      }
    }

    /** A turn of the dispatch loop, from `sem_wait` to the start of the callback. */
    method BeginDispatch() returns (message: Option<M>)
      requires Valid() && waiting > 0 && !q.exited && !q.InCallback()
      modifies this
      ensures Valid() && q == old(q).Begun()
      ensures message == if |old(q).ended| < |old(q).posted| then Some(old(q).Read()) else None
    {
      hide Queue.DeliveriesOk;
      IndicesMeasureOccupancy();
      StepKeepsOk(q, Begin);
      if |q.ended| < |q.posted| {
        SlotUnderTheReader();
      }
      waiting := waiting - 1;
      if (writeIndex - readIndex) % TWO_32 > 0 {
        message := Some(buf[readIndex % BUF_COUNT]);
      } else {
        message := None;
      }
      q := q.Begun();
    }

    /** The callback has returned; `message` is what the slot it was given holds by then. */
    method EndDispatch() returns (ghost message: M)
      requires Valid() && q.InCallback()
      modifies this
      ensures Valid() && q == old(q).Ended()
      ensures message == old(q).Read()
    {
      hide Queue.DeliveriesOk;
      NextIndex(|q.ended|);
      StepKeepsOk(q, End);
      SlotUnderTheReader();
      message := buf[readIndex % BUF_COUNT];
      readIndex := (readIndex + 1) % TWO_32;
      q := q.Ended();
    }

    /** A whole turn, when nothing is posted while the callback runs. */
    method DispatchOne() returns (message: Option<M>)
      requires Valid() && waiting > 0 && !q.exited && !q.InCallback()
      modifies this
      ensures Valid()
      ensures q == if |old(q).ended| < |old(q).posted| then old(q).Begun().Ended() else old(q).Begun()
      ensures message == if |old(q).ended| < |old(q).posted| then Some(old(q).Read()) else None
    {
      message := BeginDispatch();
      if message.Some? {
        ghost var _ := EndDispatch();
      }
    }

    /** The slot the dispatcher reads holds message j, or message j + 32 if that was filled in already. */
    lemma SlotUnderTheReader()
      requires Valid() && |q.ended| < q.filled
      ensures buf[readIndex % BUF_COUNT] == q.Read()
    {
      hide Queue.DeliveriesOk;
      SlotOf(|q.ended|);
      SlotAgain(|q.ended|);
      var k := if q.Overwritten() then |q.ended| + BUF_COUNT else |q.ended|;
      assert buf[k % BUF_COUNT] == q.posted[k];
    }

    /** The destructor's post to the semaphore, without data. */
    method ShutDown()
      requires Valid() && q.Idle() && !q.shutdown
      modifies this
      ensures Valid() && q == old(q).(shutdown := true)
    {
      waiting := waiting + 1;
      q := q.(shutdown := true);
    }
  }

  /** The index that wraps at 2^32 names the same slot as the unbounded one. */
  lemma SlotOf(k: nat)
    ensures (k % TWO_32) % BUF_COUNT == k % BUF_COUNT
  {
    assert k % TWO_32 == k - (k / TWO_32) * TWO_32;
    assert TWO_32 == BUF_COUNT * 0x800_0000;
  }

  lemma SlotAgain(k: nat)
    ensures (k + BUF_COUNT) % BUF_COUNT == k % BUF_COUNT
  {
  }

  lemma NextIndex(k: nat)
    ensures (k % TWO_32 + 1) % TWO_32 == (k + 1) % TWO_32
  {
  }

  lemma DifferentSlots(k: nat, last: nat)
    requires k < last < k + BUF_COUNT
    ensures k % BUF_COUNT != last % BUF_COUNT
  {
  }

  // ------------------------------------------------------------------------------------------ the two users

  datatype LogData = LogData(level: int, msg: string, timeStampMs: int)

  class Log {
    var logLevel: int
    const ring: MessageRing<LogData>

    constructor (level: int)
      ensures ring.Valid() && ring.q == EmptyQueue() && logLevel == level
      ensures fresh(ring) && fresh(ring.buf)
    {
      logLevel := level;
      ring := new MessageRing();
    }

    /** A message above the level does not reach the ring; any other is an attempt to post. */
    method PostLogMsg(level: int, msg: string)
      requires ring.Valid() && ring.q.Idle() && !ring.q.shutdown
      modifies ring, ring.buf
      ensures ring.Valid() && ring.q.Idle()
      ensures level > logLevel ==> ring.q == old(ring.q)
      ensures level <= logLevel ==>
                var was, now := old(ring.q), ring.q;
                && now.attempts == was.attempts + 1
                && now.missed == was.missed + (if was.Full() then 1 else 0)
                && now.posted == was.posted + (if was.Full() then [] else [LogData(level, msg, 0)])
                && now.begun == was.begun && now.ended == was.ended
    {
      if level <= logLevel {
        ring.Post(LogData(level, msg, 0));
      }
    }
  }

  datatype NotificationData = NotificationData(
    notificationType: int, entityId: nat, cmdType: uint16, descType: uint16, descIndex: uint16, cmdStatus: uint32,
    notificationId: nat)

  const TOTAL_NUM_OF_NOTIFICATIONS: int := 6

  class Notification {
    const ring: MessageRing<NotificationData>

    constructor ()
      ensures ring.Valid() && ring.q == EmptyQueue()
      ensures fresh(ring) && fresh(ring.buf)
    {
      ring := new MessageRing();
    }

    /** Here the capacity check comes first: on a full ring even a message of unknown type counts as missed. */
    method PostNotificationMsg(n: NotificationData)
      requires ring.Valid() && ring.q.Idle() && !ring.q.shutdown
      modifies ring, ring.buf
      ensures ring.Valid() && ring.q.Idle()
      ensures var known := 0 <= n.notificationType < 6;
              if old(ring.q).Full() then ring.q == old(ring.q).Offered(n)
              else if known then ring.q.missed == old(ring.q).missed && ring.q.posted == old(ring.q).posted + [n]
              else ring.q == old(ring.q)
    {
      ring.IndicesMeasureOccupancy();
      if (ring.writeIndex - ring.readIndex) % TWO_32 > BUF_COUNT ||
         0 <= n.notificationType < TOTAL_NUM_OF_NOTIFICATIONS
      {
        ring.Post(n);
      }
    }
  }
}
