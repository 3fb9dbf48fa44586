/**
 * The table of inflight commands kept by the AECP and by the ACMP controller state machine.  Both machines
 * run the same protocol and differ in three places only, which take the kind of machine as a parameter: the
 * response timeout, the messages that are notified, and the event posted when a command is given up.
 */
module Commands {
  import opened Basics
  import opened Timers

  const AVDECC_MSG_TIMEOUT_MS: uint32 := 250
  const CMD_WITH_NOTIFICATION: uint32 := 1
  const UINT_MAX: uint32 := 0xffff_ffff

  // AECP message types, Table 9.1 of IEEE 1722.1-2013.
  const AEM_RESPONSE: uint32 := 1
  const ADDRESS_ACCESS_RESPONSE: uint32 := 3

  // ACMP message types, Table 8.1 of IEEE 1722.1-2013.
  const CONNECT_TX_COMMAND: uint32 := 0
  const DISCONNECT_TX_COMMAND: uint32 := 2
  const GET_TX_STATE_COMMAND: uint32 := 4
  const GET_TX_STATE_RESPONSE: uint32 := 5
  const CONNECT_RX_COMMAND: uint32 := 6
  const CONNECT_RX_RESPONSE: uint32 := 7
  const DISCONNECT_RX_COMMAND: uint32 := 8
  const DISCONNECT_RX_RESPONSE: uint32 := 9
  const GET_RX_STATE_COMMAND: uint32 := 10
  const GET_RX_STATE_RESPONSE: uint32 := 11
  const GET_TX_CONNECTION_COMMAND: uint32 := 12
  const GET_TX_CONNECTION_RESPONSE: uint32 := 13
  const AEM_ACMP_ERROR: uint32 := 0xffff

  datatype Kind = Aecp | Acmp

  /** A parsed frame.  `body` stands for every field that the state machines only pass on. */
  datatype Frame = Frame(msgType: uint32, seqId: uint16, status: uint32, body: nat)

  /** What a caller asked to be sent. */
  datatype Order = Order(notificationId: nat, notificationFlag: uint32, frame: Frame)

  /**
   * One entry of the inflight vector.  The last three fields are history that no step reads: the number of
   * the send that created the entry, and the unbounded times of its first and latest transmission.
   */
  datatype Inflight = Inflight(
    frame: Frame,
    seqId: uint16,
    notificationId: nat,
    notificationFlag: uint32,
    timeoutMs: uint32,
    timer: TimerValue,
    startTimerCnt: uint32,
    serial: nat,
    firstSentAt: nat,
    lastSentAt: nat)
  {
    function StartTimer(now: nat): Inflight {
      this.(startTimerCnt := (startTimerCnt + 1) % TWO_32,
            timer := timer.Started(timeoutMs, now),
            lastSentAt := now)
    }

    /** The entry after its `timeout()` was asked. */
    function Polled(now: nat): Inflight {
      this.(timer := timer.Polled(now))
    }

    predicate Retried() {
      startTimerCnt >= 2
    }
  }

  datatype NoticeType = COMMAND_TIMEOUT | RESPONSE_RECEIVED

  /** What a machine does to the outside world, each tagged with the serial number of its command. */
  datatype Output =
    | Transmitted(serial: nat, frame: Frame, at: nat)
    | Posted(serial: nat, event: NoticeType, frame: Frame, status: uint32, notificationId: nat)
    | Answered(serial: nat, response: Frame)
    | Expired(serial: nat, at: nat)

  /** `nextSeqId` and `cmds` are the source's state; `orders` and `log` record the whole run so far. */
  datatype Machine = Machine(nextSeqId: uint16, cmds: seq<Inflight>, orders: seq<Order>, log: seq<Output>)

  const EMPTY := Machine(0, [], [], [])

  // ------------------------------------------------------------ the differences between the two machines

  function AcmpTimeoutMs(cmd: uint32): uint32 {
    if cmd == CONNECT_TX_COMMAND then 2000
    else if cmd == CONNECT_RX_COMMAND then 4500
    else if cmd == DISCONNECT_RX_COMMAND then 500
    else if cmd in [DISCONNECT_TX_COMMAND, GET_TX_STATE_COMMAND, GET_RX_STATE_COMMAND, GET_TX_CONNECTION_COMMAND]
    then 200
    else 0xffff
  }

  function TimeoutFor(kind: Kind, frame: Frame): uint32 {
    match kind
    case Aecp => AVDECC_MSG_TIMEOUT_MS
    case Acmp => AcmpTimeoutMs(frame.msgType)
  }

  /** The message types that a flagged command is notified of. */
  predicate Notifies(kind: Kind, msgType: uint32) {
    match kind
    case Aecp => msgType == AEM_RESPONSE || msgType == ADDRESS_ACCESS_RESPONSE
    case Acmp => msgType == GET_TX_STATE_RESPONSE || msgType == GET_TX_CONNECTION_RESPONSE ||
                 msgType == CONNECT_RX_RESPONSE || msgType == DISCONNECT_RX_RESPONSE ||
                 msgType == GET_RX_STATE_RESPONSE
  }

  function ExpiryEvent(kind: Kind): NoticeType {
    match kind
    case Aecp => COMMAND_TIMEOUT
    case Acmp => RESPONSE_RECEIVED
  }

  /** AECP drops a response whose message type is not a response type; ACMP looks every one up. */
  predicate Admits(kind: Kind, response: Frame) {
    kind == Aecp ==> response.msgType == AEM_RESPONSE || response.msgType == ADDRESS_ACCESS_RESPONSE
  }

  // ------------------------------------------------------------------------------------------- the steps

  function Callback(kind: Kind, serial: nat, notificationId: nat, notificationFlag: uint32, frame: Frame): seq<Output> {
    if notificationFlag == CMD_WITH_NOTIFICATION && Notifies(kind, frame.msgType)
    then [Posted(serial, RESPONSE_RECEIVED, frame, frame.status, notificationId)]
    else []
  }

  /** The outputs of one transmission of an entry's frame: the frame, then the callback. */
  function Launch(kind: Kind, e: Inflight, now: nat): seq<Output> {
    [Transmitted(e.serial, e.frame, now)] + Callback(kind, e.serial, e.notificationId, e.notificationFlag, e.frame)
  }

  function NewEntry(kind: Kind, order: Order, seqId: uint16, serial: nat, now: nat): Inflight {
    var frame := order.frame.(seqId := seqId);
    Inflight(frame, seqId, order.notificationId, order.notificationFlag, TimeoutFor(kind, frame),
             IDLE, 0, serial, now, now).StartTimer(now)
  }

  /** `tx_cmd` of a new command. */
  function Send(kind: Kind, m: Machine, order: Order, now: nat): Machine {
    var e := NewEntry(kind, order, m.nextSeqId, |m.orders|, now);
    Machine((m.nextSeqId + 1) % TWO_16, m.cmds + [e], m.orders + [order], m.log + Launch(kind, e, now))
  }

  /** `find_if` with `SeqIdComp`: the first entry with this sequence id, or the end of the vector. */
  function FindSeqId(cmds: seq<Inflight>, seqId: uint16): (j: nat)
    ensures j <= |cmds|
    ensures j < |cmds| ==> cmds[j].seqId == seqId
    ensures forall i :: 0 <= i < j ==> cmds[i].seqId != seqId
  {
    FindFirst(cmds, (e: Inflight) => e.seqId == seqId)
  }

  /** The outputs when the entry `e` is answered. */
  function Settle(kind: Kind, e: Inflight, response: Frame): seq<Output> {
    [Answered(e.serial, response)] + Callback(kind, e.serial, e.notificationId, e.notificationFlag, response)
  }

  /** `update_inflight_for_rcvd_resp` and `proc_resp`. */
  function Receive(kind: Kind, m: Machine, response: Frame): Machine {
    var j := FindSeqId(m.cmds, response.seqId);
    if Admits(kind, response) && j < |m.cmds|
    then m.(cmds := RemoveAt(m.cmds, j), log := m.log + Settle(kind, m.cmds[j], response))
    else m
  }

  /** The outputs when the entry `e` is given up. */
  function GiveUp(kind: Kind, e: Inflight, now: nat): seq<Output> {
    [Expired(e.serial, now), Posted(e.serial, ExpiryEvent(kind), e.frame, UINT_MAX, e.notificationId)]
  }

  /** `tx_cmd` of a resend: the timer that is restarted is found again by sequence id. */
  function Resend(kind: Kind, m: Machine, i: nat, now: nat): Machine
    requires i < |m.cmds|
  {
    var e := m.cmds[i];
    var j := FindSeqId(m.cmds, e.frame.seqId);
    m.(cmds := if j < |m.cmds| then m.cmds[j := m.cmds[j].StartTimer(now)] else m.cmds,
       log := m.log + Launch(kind, e, now))
  }

  /** `state_timeout`. */
  function StateTimeout(kind: Kind, m: Machine, i: nat, now: nat): Machine
    requires i < |m.cmds|
  {
    if m.cmds[i].Retried()
    then m.(cmds := RemoveAt(m.cmds, i), log := m.log + GiveUp(kind, m.cmds[i], now))
    else Resend(kind, m, i, now)
  }

  function PollAt(m: Machine, i: nat, now: nat): Machine
    requires i < |m.cmds|
  {
    m.(cmds := m.cmds[i := m.cmds[i].Polled(now)])
  }

  predicate IsExpired(e: Inflight, now: nat) {
    e.Polled(now).timer.elapsed
  }

  /** One turn of the loop of `tick`. */
  function Turn(kind: Kind, m: Machine, i: nat, now: nat): (next: Machine)
    requires i < |m.cmds|
    ensures |next.cmds| <= |m.cmds|
  {
    var polled := PollAt(m, i, now);
    if polled.cmds[i].timer.elapsed then StateTimeout(kind, polled, i, now) else polled
  }

  /** The loop of `tick` from index `i`: the index advances even when the entry under it was erased. */
  function TickFrom(kind: Kind, m: Machine, i: nat, now: nat): Machine
    decreases |m.cmds| - i
  {
    if i >= |m.cmds| then m else TickFrom(kind, Turn(kind, m, i, now), i + 1, now)
  }

  function Tick(kind: Kind, m: Machine, now: nat): Machine {
    TickFrom(kind, m, 0, now)
  }

  // ---------------------------------------------------------------------------------------------- runs

  datatype Event =
    | SendCommand(order: Order, now: nat)
    | ReceiveResponse(response: Frame, now: nat)
    | TimerTick(now: nat)

  function Step(kind: Kind, m: Machine, event: Event): Machine {
    match event
    case SendCommand(order, now) => Send(kind, m, order, now)
    case ReceiveResponse(response, _) => Receive(kind, m, response)
    case TimerTick(now) => Tick(kind, m, now)
  }

  function Run(kind: Kind, events: seq<Event>): Machine {
    if events == [] then EMPTY
    else Step(kind, Run(kind, events[..|events| - 1]), events[|events| - 1])
  }

  /** The clock is monotone. */
  ghost predicate Monotone(events: seq<Event>) {
    forall i, j :: 0 <= i <= j < |events| ==> events[i].now <= events[j].now
  }

  function EndOf(events: seq<Event>): nat {
    if events == [] then 0 else events[|events| - 1].now
  }

  /** The oldest live command is at most 65536 sends old. */
  ghost predicate InWindow(m: Machine) {
    forall i :: 0 <= i < |m.cmds| ==> |m.orders| - m.cmds[i].serial <= TWO_16
  }

  /** The sequence window held at every moment of the run. */
  ghost predicate StaysInWindow(kind: Kind, events: seq<Event>) {
    forall n :: 0 <= n <= |events| ==> WasInWindow(kind, events, n)
  }

  /** After the first `n` events. */
  ghost predicate WasInWindow(kind: Kind, events: seq<Event>, n: nat) {
    n <= |events| && InWindow(Run(kind, events[..n]))
  }

  lemma EndsInWindow(kind: Kind, events: seq<Event>)
    requires StaysInWindow(kind, events)
    ensures InWindow(Run(kind, events))
  {
    assert WasInWindow(kind, events, |events|);
    assert events[..|events|] == events;
  }

  ghost predicate Live(cmds: seq<Inflight>, serial: nat) {
    exists i :: 0 <= i < |cmds| && cmds[i].serial == serial
  }

  /** Everything that happened to one command, in order. */
  function Story(log: seq<Output>, serial: nat): seq<Output> {
    if log == [] then []
    else
      var last := log[|log| - 1];
      Story(log[..|log| - 1], serial) + (if last.serial == serial then [last] else [])
  }
}
