/** The transport object on the serial side: its methods are proved to be the steps of the
    sender model and of the receiver model. */
module ApmTransport {
  import opened Common
  import S = ApmSender
  import R = ApmReceiver

  /** An attempt to send neither depends on flow control nor changes it. */
  lemma WatchThenSend(t: S.Sender, high: bool, ready: bool)
    ensures t.Watched(high).Send(true, ready) == t.Send(true, ready).Watched(high)
  {
  }

  class Transport {
    const params: S.Params
    // sending half
    var outputQueue: seq<S.Command>
    var pending: bool
    var respPacketId: bool
    var curRetryCount: nat
    var outputTimer: bool
    var mngrPaused: bool
    var queueCheckTimer: bool
    var sent: seq<S.Frame>
    var flow: seq<S.Flow>
    // receiving half
    var notifPacketId: bool
    var apPaused: bool
    var handled: seq<R.Notification>

    ghost function Sender(): S.Sender
      reads this
    {
      S.Sender(outputQueue, pending, respPacketId, curRetryCount, outputTimer, mngrPaused, queueCheckTimer, sent, flow)
    }

    ghost function Receiver(): R.Receiver
      reads this
    {
      R.Receiver(notifPacketId, apPaused, handled)
    }

    constructor (params: S.Params)
      ensures this.params == params && Sender() == S.IDLE && Receiver() == R.Receiver(false, false, [])
    {
      this.params := params;
      outputQueue, pending, respPacketId, curRetryCount := [], false, false, 0;
      outputTimer, mngrPaused, queueCheckTimer, sent, flow := false, false, false, [], [];
      notifPacketId, apPaused, handled := false, false, [];
    }

    /** Transmit the command at the front of the queue: for the first time, or again. */
    method Send(isNew: bool, ready: bool)
      modifies this`pending, this`outputTimer, this`sent
      ensures Sender() == old(Sender()).Send(isNew, ready)
    {
      if !ready {
        return;
      }
      if |outputQueue| == 0 || (isNew && pending) || (!isNew && !pending) {
        return;
      }
      pending := true;
      sent := sent + [S.Frame(outputQueue[0], respPacketId)];
      outputTimer := true;
    }

    /** `ready` and `stillReady` are the serial port's answers at the two places it is asked. */
    method InsertMsg(cmd: S.Command, isHighPriority: bool, ready: bool, stillReady: bool) returns (res: Status)
      modifies this`outputQueue, this`pending, this`outputTimer, this`sent
      modifies this`flow, this`mngrPaused, this`queueCheckTimer
      ensures res == if !ready then ErrState else if old(|outputQueue|) >= params.maxQueue then ErrOverflow else Ok
      ensures Sender() == if res == Ok
                          then old(Sender()).Inserted(cmd, isHighPriority, params).Send(true, stillReady)
                          else old(Sender())
      ensures res == Ok ==>
                && outputQueue == (if isHighPriority then [cmd] + old(outputQueue) else old(outputQueue) + [cmd])
                && mngrPaused == (old(mngrPaused) || |outputQueue| >= params.high) && queueCheckTimer
                && flow == old(flow) + (if mngrPaused && !old(mngrPaused) then [S.Pause] else [])
                && sent == old(sent) + (if stillReady && !old(pending)
                                        then [S.Frame(outputQueue[0], respPacketId)] else [])
    {
      if !ready {
        return ErrState;
      }
      if |outputQueue| >= params.maxQueue {
        return ErrOverflow;
      }
      Enqueue(cmd, isHighPriority, stillReady);
      res := Ok;
    }

    method Enqueue(cmd: S.Command, isHighPriority: bool, ready: bool)
      modifies this`outputQueue, this`pending, this`outputTimer, this`sent
      modifies this`flow, this`mngrPaused, this`queueCheckTimer
      ensures Sender() == old(Sender()).Inserted(cmd, isHighPriority, params).Send(true, ready)
    {
      if isHighPriority {
        outputQueue := [cmd] + outputQueue;
      } else {
        outputQueue := outputQueue + [cmd];
      }
      ghost var queued := Sender();
      var atHighWatermark := |outputQueue| >= params.high;
      Send(true, ready);
      CheckHighWatermark(atHighWatermark);
      WatchThenSend(queued, atHighWatermark, ready);
    }

    /** The queue has grown: the manager may have to pause, and the queue is watched. */
    method CheckHighWatermark(atHighWatermark: bool)
      requires |outputQueue| > 0
      modifies this`flow, this`mngrPaused, this`queueCheckTimer
      ensures Sender() == old(Sender()).Watched(atHighWatermark)
    {
      if !mngrPaused && atHighWatermark {
        flow := flow + [S.Pause];
        mngrPaused := true;
      }
      if |outputQueue| > 0 {
        queueCheckTimer := true;
      }
    }

    /** A response frame: one that does not match is dropped without effect. */
    method HandleResponse(cmdId: nat, pktId: bool, nack: bool, ready: bool)
      modifies this`outputQueue, this`pending, this`respPacketId, this`curRetryCount
      modifies this`outputTimer, this`sent, this`flow, this`mngrPaused
      ensures Sender() == if old(Sender()).Matches(cmdId, pktId)
                          then old(Sender()).Responded(nack, params).Send(true, ready)
                          else old(Sender())
    {
      if |outputQueue| == 0 {
        return;
      }
      if cmdId != outputQueue[0].cmdId || pktId != respPacketId {
        return;
      }
      Settle(nack);
      Send(true, ready);
    }

    /** A response to the command at the front: it is done with, or it has to be repeated. */
    method Settle(nack: bool)
      requires |outputQueue| > 0
      modifies this`outputQueue, this`pending, this`respPacketId, this`curRetryCount
      modifies this`outputTimer, this`flow, this`mngrPaused
      ensures Sender() == old(Sender()).Responded(nack, params)
    {
      curRetryCount, outputTimer := 0, false;
      respPacketId := !respPacketId;
      var belowLowWatermark := false;
      if nack {
        outputTimer := true;
      } else {
        outputQueue := outputQueue[1..];
        belowLowWatermark := |outputQueue| < params.low;
        pending := false;
      }
      if mngrPaused && belowLowWatermark {
        flow := flow + [S.Resume];
        mngrPaused := false;
      }
    }

    method HandleRetryTimeout(ready: bool)
      modifies this`pending, this`curRetryCount, this`outputTimer, this`sent
      ensures Sender() == old(Sender()).TimedOut(ready, params)
      ensures sent == old(sent) + (if old(curRetryCount) < params.maxRetries && ready && pending && |outputQueue| > 0
                                   then [S.Frame(outputQueue[0], respPacketId)] else [])
      ensures outputTimer == (old(curRetryCount) < params.maxRetries)
      ensures curRetryCount == old(curRetryCount) + if outputTimer then 1 else 0
    {
      outputTimer := false;
      if curRetryCount < params.maxRetries {
        Send(false, ready);
        curRetryCount := curRetryCount + 1;
        outputTimer := true;
      }
    }

    method HandleQueueCheckTimeout(tooOld: bool)
      requires queueCheckTimer
      modifies this`flow, this`mngrPaused, this`queueCheckTimer
      ensures Sender() == old(Sender()).QueueChecked(tooOld)
      ensures mngrPaused == (|outputQueue| > 0 && (old(mngrPaused) || tooOld))
      ensures flow == old(flow) + (if mngrPaused == old(mngrPaused) then []
                                   else if mngrPaused then [S.Pause] else [S.Resume])
      ensures queueCheckTimer == (|outputQueue| > 0)
    {
      queueCheckTimer := false;
      if |outputQueue| == 0 {
        if mngrPaused {
          flow := flow + [S.Resume];
          mngrPaused := false;
        }
      } else {
        if !mngrPaused && tooOld {
          flow := flow + [S.Pause];
          mngrPaused := true;
        }
        queueCheckTimer := true;
      }
    }

    method ClearOutputQueue()
      modifies this`outputQueue, this`curRetryCount, this`outputTimer, this`respPacketId
      modifies this`notifPacketId, this`pending, this`apPaused, this`mngrPaused
      ensures Sender() == old(Sender()).Cleared()
      ensures Receiver() == R.Receiver(false, false, old(handled))
    {
      outputQueue, curRetryCount, outputTimer := [], 0, false;
      respPacketId, notifPacketId, pending := false, false, false;
      apPaused, mngrPaused := false, false;
    }

    /** A notification; `works` is whether the command handler succeeds with it. */
    method HandleNotification(n: R.Notification, pktId: bool, isSync: bool, works: bool) returns (ack: R.Code)
      modifies this`notifPacketId, this`handled
      ensures Receiver() == old(Receiver()).Notified(n, pktId, isSync, works)
      ensures handled == old(handled) + (if ack == R.Done && (pktId != old(notifPacketId) || isSync) then [n] else [])
      ensures ack == if pktId == old(notifPacketId) && !isSync then R.Done
                     else if apPaused && n.isData then R.NoResources
                     else if works then R.Done else R.Failed
      ensures ack == old(Receiver()).Acknowledgement(n, pktId, isSync, works)
    {
      ack := R.Done;
      if pktId != notifPacketId || isSync {
        if apPaused && n.isData {
          return R.NoResources;
        }
        if works {
          handled := handled + [n];
          notifPacketId := pktId;
        } else {
          ack := R.Failed;
        }
      }
    }
  }
}
