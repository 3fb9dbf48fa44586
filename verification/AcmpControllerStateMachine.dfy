/**
 * The ACMP controller state machine of controller/lib/src/acmp_controller_state_machine.cpp, and the timeout
 * table it looks commands up in.
 */
module AcmpControllerStateMachine {
  import opened Basics
  import opened Timers
  import opened Commands

  datatype CommandAndTimeout = CommandAndTimeout(cmd: uint32, timeoutMs: uint32)

  const TIMEOUT_TABLE: seq<CommandAndTimeout> := [
    CommandAndTimeout(CONNECT_TX_COMMAND, 2000),
    CommandAndTimeout(DISCONNECT_TX_COMMAND, 200),
    CommandAndTimeout(GET_TX_STATE_COMMAND, 200),
    CommandAndTimeout(CONNECT_RX_COMMAND, 4500),
    CommandAndTimeout(DISCONNECT_RX_COMMAND, 500),
    CommandAndTimeout(GET_RX_STATE_COMMAND, 200),
    CommandAndTimeout(GET_TX_CONNECTION_COMMAND, 200),
    CommandAndTimeout(AEM_ACMP_ERROR, 0xffff)
  ]

  /** The search moves a cursor up to the sentinel at the end of the table. */
  method AcmpCmdToTimeout(acmpCmd: uint32) returns (timeoutMs: uint32)
    ensures timeoutMs == AcmpTimeoutMs(acmpCmd)
    ensures acmpCmd == 0 ==> timeoutMs == 2000
    ensures acmpCmd == 6 ==> timeoutMs == 4500
    ensures acmpCmd == 8 ==> timeoutMs == 500
    ensures acmpCmd == 2 || acmpCmd == 4 || acmpCmd == 10 || acmpCmd == 12 ==> timeoutMs == 200
    ensures acmpCmd > 12 || acmpCmd % 2 == 1 ==> timeoutMs == 0xffff
  {
    var p := 0;
    while TIMEOUT_TABLE[p].cmd != AEM_ACMP_ERROR
      invariant 0 <= p < |TIMEOUT_TABLE|
      invariant forall q :: 0 <= q < p ==> TIMEOUT_TABLE[q].cmd != acmpCmd
      decreases |TIMEOUT_TABLE| - p
    {
      if TIMEOUT_TABLE[p].cmd == acmpCmd {
        return TIMEOUT_TABLE[p].timeoutMs;
      }
      p := p + 1;
    }
    assert TIMEOUT_TABLE[0].cmd != acmpCmd && TIMEOUT_TABLE[1].cmd != acmpCmd && TIMEOUT_TABLE[2].cmd != acmpCmd;
    assert TIMEOUT_TABLE[3].cmd != acmpCmd && TIMEOUT_TABLE[4].cmd != acmpCmd && TIMEOUT_TABLE[5].cmd != acmpCmd;
    assert TIMEOUT_TABLE[6].cmd != acmpCmd;
    timeoutMs := 0xffff;
  }

  class AcmpStateMachine {
    var acmpSeqId: uint16
    var inflightCmds: seq<Inflight>

    // History: what was submitted, and everything that was output.  No branch reads them.
    var orders: seq<Order>
    ghost var log: seq<Output>

    ghost function State(): Machine
      reads this
    {
      Machine(acmpSeqId, inflightCmds, orders, log)
    }

    constructor ()
      ensures State() == EMPTY
    {
      acmpSeqId, inflightCmds, orders, log := 0, [], [], [];
    }

    method StateCommand(notificationId: nat, notificationFlag: uint32, cmdFrame: Frame, now: nat) returns (sent: Frame)
      modifies this
      ensures State() == Send(Acmp, old(State()), Order(notificationId, notificationFlag, cmdFrame), now)
      ensures sent == cmdFrame.(seqId := old(acmpSeqId))
    {
      sent := TxCmd(notificationId, notificationFlag, cmdFrame, false, now, 0);
    }

    /** `entry` is the position of the entry that is resent; it only says which story the output belongs to. */
    method TxCmd(notificationId: nat, notificationFlag: uint32, cmdFrame: Frame, resend: bool, now: nat,
                 ghost entry: nat)
      returns (sent: Frame)
      requires resend ==> entry < |inflightCmds| &&
                          cmdFrame == inflightCmds[entry].frame &&
                          notificationId == inflightCmds[entry].notificationId &&
                          notificationFlag == inflightCmds[entry].notificationFlag
      modifies this
      ensures State() == if resend then Resend(Acmp, old(State()), entry, now)
                         else Send(Acmp, old(State()), Order(notificationId, notificationFlag, cmdFrame), now)
      ensures sent == if resend then cmdFrame else cmdFrame.(seqId := old(acmpSeqId))
    {
      sent := cmdFrame;
      ghost var serial := if resend then inflightCmds[entry].serial else |orders|;
      if !resend {
        var thisSeqId := acmpSeqId;
        var timeoutMs := AcmpCmdToTimeout(cmdFrame.msgType);
        sent := sent.(seqId := acmpSeqId);
        acmpSeqId := (acmpSeqId + 1) % TWO_16;
        var inFlight := Inflight(sent, thisSeqId, notificationId, notificationFlag, timeoutMs,
                                 IDLE, 0, |orders|, now, now);
        inFlight := inFlight.StartTimer(now);
        inflightCmds := inflightCmds + [inFlight];
        orders := orders + [Order(notificationId, notificationFlag, cmdFrame)];
      } else {
        var j := FindSeqId(inflightCmds, sent.seqId);
        if j < |inflightCmds| {
          inflightCmds := inflightCmds[j := inflightCmds[j].StartTimer(now)];
        }
      }
      ghost var before := log;
      log := log + [Transmitted(serial, sent, now)];
      PostCallback(notificationId, notificationFlag, sent, serial);
      assert log == before + ([Transmitted(serial, sent, now)] +
                              Callback(Acmp, serial, notificationId, notificationFlag, sent));
    }

    /** The notification part of `callback`: the two talker responses first, then the three listener ones. */
    method PostCallback(notificationId: nat, notificationFlag: uint32, frame: Frame, ghost serial: nat)
      modifies this`log
      ensures log == old(log) + Callback(Acmp, serial, notificationId, notificationFlag, frame)
    {
      if notificationFlag == CMD_WITH_NOTIFICATION &&
         (frame.msgType == GET_TX_STATE_RESPONSE || frame.msgType == GET_TX_CONNECTION_RESPONSE) {
        log := log + [Posted(serial, RESPONSE_RECEIVED, frame, frame.status, notificationId)];
      } else if notificationFlag == CMD_WITH_NOTIFICATION &&
                (frame.msgType == CONNECT_RX_RESPONSE || frame.msgType == DISCONNECT_RX_RESPONSE ||
                 frame.msgType == GET_RX_STATE_RESPONSE) {
        log := log + [Posted(serial, RESPONSE_RECEIVED, frame, frame.status, notificationId)];
      }
    }

    /** Returns 1 and the command's notification id when the response is matched, and -1 otherwise. */
    method ProcResp(cmdFrame: Frame, givenId: nat) returns (rc: int, notificationId: nat)
      modifies this
      ensures State() == Receive(Acmp, old(State()), cmdFrame)
      ensures rc == if exists i :: 0 <= i < |old(inflightCmds)| && old(inflightCmds)[i].seqId == cmdFrame.seqId
                    then 1 else -1
      ensures rc == -1 ==> State() == old(State()) && notificationId == givenId
      ensures rc == 1 ==> var j := FindSeqId(old(inflightCmds), cmdFrame.seqId);
                          j < |old(inflightCmds)| && notificationId == old(inflightCmds)[j].notificationId
    {
      notificationId := givenId;
      var j := FindSeqId(inflightCmds, cmdFrame.seqId);
      if j < |inflightCmds| {
        var e := inflightCmds[j];
        notificationId := e.notificationId;
        ghost var before := log;
        log := log + [Answered(e.serial, cmdFrame)];
        PostCallback(notificationId, e.notificationFlag, cmdFrame, e.serial);
        assert log == before + Settle(Acmp, e, cmdFrame);
        inflightCmds := RemoveAt(inflightCmds, j);
        return 1, notificationId;
      }
      rc := -1;
    }

    method StateTimeoutAt(i: nat, now: nat)
      requires i < |inflightCmds|
      modifies this
      ensures State() == StateTimeout(Acmp, old(State()), i, now)
    {
      var e := inflightCmds[i];
      if e.Retried() {
        log := log + [Expired(e.serial, now), Posted(e.serial, RESPONSE_RECEIVED, e.frame, UINT_MAX, e.notificationId)];
        inflightCmds := RemoveAt(inflightCmds, i);
      } else {
        var _ := TxCmd(e.notificationId, e.notificationFlag, e.frame, true, now, i);
      }
    }

    method TimerTickAt(now: nat)
      modifies this
      ensures State() == Tick(Acmp, old(State()), now)
    {
      var i := 0;
      while i < |inflightCmds|
        invariant TickFrom(Acmp, State(), i, now) == Tick(Acmp, old(State()), now)
        decreases |inflightCmds| - i
      {
        ghost var before := State();
        inflightCmds := inflightCmds[i := inflightCmds[i].Polled(now)];
        assert State() == PollAt(before, i, now);
        if inflightCmds[i].timer.elapsed {
          StateTimeoutAt(i, now);
        }
        i := i + 1;
      }
    }
  }
}
