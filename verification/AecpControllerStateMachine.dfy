/** The AECP controller state machine of controller/lib/src/aecp_controller_state_machine.cpp. */
module AecpControllerStateMachine {
  import opened Basics
  import opened Timers
  import opened Commands

  class AecpStateMachine {
    var aecpSeqId: uint16
    var inflightCmds: seq<Inflight>

    // History: what was submitted, and everything that was output.  No branch reads them.
    var orders: seq<Order>
    ghost var log: seq<Output>

    ghost function State(): Machine
      reads this
    {
      Machine(aecpSeqId, inflightCmds, orders, log)
    }

    constructor ()
      ensures State() == EMPTY
    {
      aecpSeqId, inflightCmds, orders, log := 0, [], [], [];
    }

    /** Sends a new command; the frame comes back with the sequence id written into it. */
    method StateSendCmd(notificationId: nat, notificationFlag: uint32, cmdFrame: Frame, now: nat) returns (sent: Frame)
      modifies this
      ensures State() == Send(Aecp, old(State()), Order(notificationId, notificationFlag, cmdFrame), now)
      ensures sent == cmdFrame.(seqId := old(aecpSeqId))
    {
      sent := TxCmd(notificationId, notificationFlag, cmdFrame, false, now, 0);
    }

    /** `entry` is the position of the entry that is resent; it only says which story the output belongs to. */
    method TxCmd(notificationId: nat, notificationFlag: uint32, cmdFrame: Frame, resend: bool, now: nat,
                 ghost entry: nat)
      returns (sent: Frame)
      requires resend ==> entry < |inflightCmds| &&
                          cmdFrame == inflightCmds[entry].frame &&
                          notificationId == inflightCmds[entry].notificationId &&
                          notificationFlag == inflightCmds[entry].notificationFlag
      modifies this
      ensures State() == if resend then Resend(Aecp, old(State()), entry, now)
                         else Send(Aecp, old(State()), Order(notificationId, notificationFlag, cmdFrame), now)
      ensures sent == if resend then cmdFrame else cmdFrame.(seqId := old(aecpSeqId))
    {
      sent := cmdFrame;
      ghost var serial := if resend then inflightCmds[entry].serial else |orders|;
      if !resend {
        var currentSeqId := aecpSeqId;
        sent := sent.(seqId := aecpSeqId);
        aecpSeqId := (aecpSeqId + 1) % TWO_16;
        var inFlight := Inflight(sent, currentSeqId, notificationId, notificationFlag, AVDECC_MSG_TIMEOUT_MS,
                                 IDLE, 0, |orders|, now, now);
        inFlight := inFlight.StartTimer(now);
        inflightCmds := inflightCmds + [inFlight];
        orders := orders + [Order(notificationId, notificationFlag, cmdFrame)];
      } else {
        var j := FindSeqId(inflightCmds, sent.seqId);
        if j < |inflightCmds| {
          inflightCmds := inflightCmds[j := inflightCmds[j].StartTimer(now)];
        }
      }
      ghost var before := log;
      log := log + [Transmitted(serial, sent, now)];
      PostCallback(notificationId, notificationFlag, sent, serial);
      assert log == before + ([Transmitted(serial, sent, now)] +
                              Callback(Aecp, serial, notificationId, notificationFlag, sent));
    }

    /** The notification part of `callback`. */
    method PostCallback(notificationId: nat, notificationFlag: uint32, frame: Frame, ghost serial: nat)
      modifies this`log
      ensures log == old(log) + Callback(Aecp, serial, notificationId, notificationFlag, frame)
    {
      if notificationFlag == CMD_WITH_NOTIFICATION &&
         (frame.msgType == AEM_RESPONSE || frame.msgType == ADDRESS_ACCESS_RESPONSE) {
        log := log + [Posted(serial, RESPONSE_RECEIVED, frame, frame.status, notificationId)];
      }
    }

    /** Returns 1 and the command's notification id when the response is matched, and -1 otherwise. */
    method ProcResp(cmdFrame: Frame, givenId: nat) returns (rc: int, notificationId: nat)
      requires Admits(Aecp, cmdFrame)
      modifies this
      ensures State() == Receive(Aecp, old(State()), cmdFrame)
      ensures rc == if exists i :: 0 <= i < |old(inflightCmds)| && old(inflightCmds)[i].seqId == cmdFrame.seqId
                    then 1 else -1
      ensures rc == -1 ==> State() == old(State()) && notificationId == givenId
      ensures rc == 1 ==> var j := FindSeqId(old(inflightCmds), cmdFrame.seqId);
                          j < |old(inflightCmds)| && notificationId == old(inflightCmds)[j].notificationId
    {
      notificationId := givenId;
      var j := FindSeqId(inflightCmds, cmdFrame.seqId);
      if j < |inflightCmds| {
        var e := inflightCmds[j];
        notificationId := e.notificationId;
        ghost var before := log;
        log := log + [Answered(e.serial, cmdFrame)];
        PostCallback(notificationId, e.notificationFlag, cmdFrame, e.serial);
        assert log == before + Settle(Aecp, e, cmdFrame);
        inflightCmds := RemoveAt(inflightCmds, j);
        return 1, notificationId;
      }
      rc := -1;
    }

    /** An unsolicited response is looked up like any other, after a step that does nothing yet. */
    method UpdateInflightForRcvdResp(uField: bool, cmdFrame: Frame, givenId: nat) returns (rc: int, notificationId: nat)
      modifies this
      ensures State() == Receive(Aecp, old(State()), cmdFrame)
      ensures rc == if cmdFrame.msgType == 1 || cmdFrame.msgType == 3 then 0 else -1
      ensures var j := FindSeqId(old(inflightCmds), cmdFrame.seqId);
              notificationId ==
                if rc == 0 && j < |old(inflightCmds)| then old(inflightCmds)[j].notificationId else givenId
    {
      notificationId := givenId;
      if cmdFrame.msgType == AEM_RESPONSE || cmdFrame.msgType == ADDRESS_ACCESS_RESPONSE {
        var matched, id := ProcResp(cmdFrame, givenId);
        assert matched == 1 <==> FindSeqId(old(inflightCmds), cmdFrame.seqId) < |old(inflightCmds)|;
        notificationId := id;
        rc := 0;
      } else {
        rc := -1;
      }
    }

    method StateTimeoutAt(i: nat, now: nat)
      requires i < |inflightCmds|
      modifies this
      ensures State() == StateTimeout(Aecp, old(State()), i, now)
    {
      var e := inflightCmds[i];
      if e.Retried() {
        log := log + [Expired(e.serial, now), Posted(e.serial, COMMAND_TIMEOUT, e.frame, UINT_MAX, e.notificationId)];
        inflightCmds := RemoveAt(inflightCmds, i);
      } else {
        var _ := TxCmd(e.notificationId, e.notificationFlag, e.frame, true, now, i);
      }
    }

    method TimerTickAt(now: nat)
      modifies this
      ensures State() == Tick(Aecp, old(State()), now)
    {
      var i := 0;
      while i < |inflightCmds|
        invariant TickFrom(Aecp, State(), i, now) == Tick(Aecp, old(State()), now)
        decreases |inflightCmds| - i
      {
        ghost var before := State();
        inflightCmds := inflightCmds[i := inflightCmds[i].Polled(now)];
        assert State() == PollAt(before, i, now);
        if inflightCmds[i].timer.elapsed {
          StateTimeoutAt(i, now);
        }
        i := i + 1;
      }
    }

    method IsInflightCmdWithNotificationId(notificationId: nat) returns (found: bool)
      ensures found <==> exists i :: 0 <= i < |inflightCmds| && inflightCmds[i].notificationId == notificationId
    {
      var j := 0;
      while j < |inflightCmds| && inflightCmds[j].notificationId != notificationId
        invariant 0 <= j <= |inflightCmds|
        invariant forall i :: 0 <= i < j ==> inflightCmds[i].notificationId != notificationId
      {
        j := j + 1;
      }
      found := j < |inflightCmds|;
    }
  }
}
