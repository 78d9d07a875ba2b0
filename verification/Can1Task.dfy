/** The CAN1 interrupt and task (src/task_can1.c), and task_caneth_enqueue_rx_frame, as
    they are written, with everything else running between their kernel calls. Each is a
    run of the transition system. */
module Can1Task {
  import opened Words
  import opened Caneth
  import opened Bridge
  import opened BridgeTheorems
  import opened Canproto

  const WORKER_QUEUE_LENGTH := 8

  /** What runs between the task's kernel calls. */
  datatype Races = Races(beforeTake: seq<Event>, beforeCheck: seq<Event>, beforeSend: seq<Event>,
                         beforeNotify: seq<Event>, beforeDispatch: seq<Event>)

  /** The task's own steps in task_caneth_enqueue_rx_frame: the frame is discarded, or
      queued and notified, or refused and flagged. */
  predicate IsEnqueue(own: seq<Event>)
  {
    own == [CheckNetwork] || own == [CheckNetwork, Offer, Notify] || own == [CheckNetwork, Offer, FlagRefused]
  }

  class Can1Task {
    var st: State
    var worker0: seq<RxFrame>
    var worker1: seq<RxFrame>

    constructor (st: State)
      ensures this.st == st && worker0 == [] && worker1 == []
    {
      this.st, worker0, worker1 := st, [], [];
    }

    /** Interrupts, timers, the stack and the CAN_ETH task run: of the proposed steps,
        those that are enabled. The CAN1 task's own trace does not change. */
    method Others(proposed: seq<Event>, ghost s0: State, ghost es: seq<Event>, ghost own: seq<Event>)
      returns (ghost es': seq<Event>)
      requires Trace(IsCan1Event, s0, es, own, st)
      modifies this`st
      ensures Trace(IsCan1Event, s0, es', own, st) && st.env.producer == old(st.env.producer)
      ensures old(st.env.messages) <= st.env.messages
    {
      es' := es;
      for i := 0 to |proposed|
        invariant Trace(IsCan1Event, s0, es', own, st) && st.env.producer == old(st.env.producer)
        invariant old(st.env.messages) <= st.env.messages
      {
        var e := proposed[i];
        var next := Step(st, e);
        if !IsCan1Event(e) && next.Some? {
          OthersLeaveProducer(st, e, next.value);
          TraceOther(s0, es', own, st, e, next.value);
          st := next.value;
          es' := es' + [e];
        }
      }
    }

    // The kernel calls of this task. Each also moves the task's place in its code.

    /** xMessageBufferReceive, once a message is waiting. */
    method MessageBufferReceive() returns (rx: RxFrame)
      requires st.env.producer == Waiting && st.env.messages != []
      modifies this`st
      ensures rx == old(st.env.messages)[0]
      ensures Step(old(st), Take) == Some(st) && st.env.producer == Holding(rx)
    {
      rx := st.env.messages[0];
      st := st.(env := st.env.(messages := st.env.messages[1..], producer := Holding(rx)));
    }

    /** FreeRTOS_IsNetworkUp; a frame that finds it down goes no further. */
    method IsNetworkUp(rx: RxFrame) returns (up: bool)
      requires st.env.producer == Holding(rx)
      modifies this`st
      ensures Step(old(st), CheckNetwork) == Some(st)
      ensures st.env.producer == if up then Offering(rx) else Dispatching(rx)
    {
      up := st.env.netUp;
      var v := st.env;
      v := if up then v.(producer := Offering(rx)) else v.(producer := Dispatching(rx), discarded := v.discarded + 1);
      st := st.(env := v);
    }

    /** xQueueSend with no wait. */
    method QueueSend(frame: Frame, rx: RxFrame) returns (ok: bool)
      requires st.env.producer == Offering(rx) && frame == Convert(rx)
      modifies this`st
      ensures Step(old(st), Offer) == Some(st)
      ensures st.env.producer == if ok then Sent(rx) else Refused(rx)
    {
      ok := |st.env.queue| < QUEUE_LENGTH;
      var v := st.env;
      if ok {
        v := v.(queue := v.queue + [frame], accepted := v.accepted + [frame], producer := Sent(rx));
      } else {
        v := v.(producer := Refused(rx));
      }
      st := st.(env := v);
    }

    /** xTaskNotify(g_caneth_task, QUEUE_EVENT_BIT, eSetBits). */
    method NotifyQueueEvent(rx: RxFrame)
      requires st.env.producer == Sent(rx)
      modifies this`st
      ensures Step(old(st), Notify) == Some(st) && st.env.producer == Dispatching(rx)
    {
      var merged := if st.env.queueBit then 1 else 0;
      st := st.(env := st.env.(queueBit := true, coalesced := st.env.coalesced + merged, producer := Dispatching(rx)));
    }

    /** status_flags_set_caneth_error. */
    method SetCanethError(rx: RxFrame)
      requires st.env.producer == Refused(rx)
      modifies this`st
      ensures Step(old(st), FlagRefused) == Some(st) && st.env.producer == Dispatching(rx)
    {
      st := st.(env := st.env.(canethError := true, producer := Dispatching(rx)));
    }

    /** can1_pending_cb: halOk is whether HAL_CAN_GetRxMessage succeeded. */
    method PendingCb(halOk: bool, rx: RxFrame)
      modifies this`st
      ensures Step(old(st), if halOk then CanRead(rx) else CanReadFailed) == Some(st)
    {
      var v := st.env;
      if halOk {
        v := v.(read := v.read + [rx]);
        if |v.messages| < v.capacity {
          v := v.(messages := v.messages + [rx]);
        } else {
          v := v.(can1Error := true);
        }
      } else {
        v := v.(can1Error := true);
      }
      st := st.(env := v);
    }

    /** task_caneth_enqueue_rx_frame. Every frame is discarded with the network down, or
        queued and notified, or refused by a full queue and flagged. */
    method EnqueueRxFrame(rx: RxFrame, races: Races) returns (ghost es: seq<Event>, ghost own: seq<Event>)
      requires st.env.producer == Holding(rx)
      modifies this`st
      ensures Trace(IsCan1Event, old(st), es, own, st) && IsEnqueue(own)
      ensures st.env.producer == Dispatching(rx)
    {
      ghost var s0 := st;
      es := Others(races.beforeCheck, s0, [], []);
      ghost var s := st;
      var up := IsNetworkUp(rx);
      TraceStep(IsCan1Event, s0, es, [], s, CheckNetwork, st);
      es, own := es + [CheckNetwork], [CheckNetwork];
      if up {
        var id := if rx.ide == StandardId then rx.stdId else rx.extId;
        var extFlag := if rx.ide == ExtendedId then 1 else 0;
        var rtrFlag := if rx.remote then 1 else 0;
        s := st;
        ghost var d, more := SendAndNotify(Frame(id, rx.dlc % 0x100, rx.data, extFlag, rtrFlag), rx, races);
        TraceAppend(IsCan1Event, s0, es, own, s, d, more, st);
        es, own := es + d, own + more;
      }
    }

    /** xQueueSend, then xTaskNotify or the error flag. */
    method SendAndNotify(qframe: Frame, rx: RxFrame, races: Races) returns (ghost es: seq<Event>, ghost own: seq<Event>)
      requires st.env.producer == Offering(rx) && qframe == Convert(rx)
      modifies this`st
      ensures Trace(IsCan1Event, old(st), es, own, st) && (own == [Offer, Notify] || own == [Offer, FlagRefused])
      ensures st.env.producer == Dispatching(rx)
    {
      ghost var s0 := st;
      es := Others(races.beforeSend, s0, [], []);
      ghost var s := st;
      var sent := QueueSend(qframe, rx);
      TraceStep(IsCan1Event, s0, es, [], s, Offer, st);
      es := es + [Offer];
      es := Others(races.beforeNotify, s0, es, [Offer]);
      s := st;
      ghost var e := if sent then Notify else FlagRefused;
      if sent {
        NotifyQueueEvent(rx);
      } else {
        SetCanethError(rx);
      }
      TraceStep(IsCan1Event, s0, es, [Offer], s, e, st);
      es, own := es + [e], [Offer, e];
    }

    /** The message buffer receive, and the bridge's share of the frame. */
    method TakeAndBridge(races: Races) returns (ghost es: seq<Event>, ghost own: seq<Event>, rx: RxFrame)
      requires st.env.producer == Waiting && st.env.messages != []
      modifies this`st
      ensures Trace(IsCan1Event, old(st), es, [Take] + own, st) && IsEnqueue(own)
      ensures st.env.producer == Dispatching(rx) && rx == old(st.env.messages)[0]
    {
      ghost var s0 := st;
      es := Others(races.beforeTake, s0, [], []);
      ghost var s := st;
      rx := MessageBufferReceive();
      TraceStep(IsCan1Event, s0, es, [], s, Take, st);
      es, s := es + [Take], st;
      ghost var d;
      d, own := EnqueueRxFrame(rx, races);
      TraceAppend(IsCan1Event, s0, es, [Take], s, d, own, st);
      es := es + d;
    }

    /** One pass of can1_task's loop: takes the oldest message, bridges it, dispatches it.
        False if a dispatch assertion failed, and then, and only then, the task is halted;
        worker 0 still got the frame if it was only too short. */
    method LoopBody(races: Races) returns (ghost es: seq<Event>, ghost own: seq<Event>, rx: RxFrame, ok: bool)
      requires st.env.producer == Waiting && st.env.messages != []
      modifies this
      ensures Trace(IsCan1Event, old(st), es, [Take] + own + [Dispatch], st) && IsEnqueue(own)
      ensures rx == old(st.env.messages)[0] && ok == !Misuses0B(rx)
      ensures st.env.producer == if ok then Waiting else Halted
      ensures worker0 == if rx.stdId == 0x0b && rx.ide == StandardId && |old(worker0)| < 8 then old(worker0) + [rx]
                         else old(worker0)
      ensures worker1 == if ok && rx.stdId == 0x0b && rx.data[0] % 10 == 0 && |old(worker1)| < 8 then old(worker1) + [rx]
                         else old(worker1)
    {
      ghost var s0 := st;
      es, own, rx := TakeAndBridge(races);
      es := Others(races.beforeDispatch, s0, es, [Take] + own);
      ghost var s := st;
      ok := DispatchToWorkers(rx);
      TraceStep(IsCan1Event, s0, es, [Take] + own, s, Dispatch, st);
      es := es + [Dispatch];
    }

    /** The dispatch to the workers, with its configASSERTs on the frame. */
    method DispatchToWorkers(rx: RxFrame) returns (ok: bool)
      requires st.env.producer == Dispatching(rx)
      modifies this
      ensures Step(old(st), Dispatch) == Some(st) && ok == !Misuses0B(rx)
      ensures st.env.producer == if ok then Waiting else Halted
      ensures worker0 == if rx.stdId == 0x0b && rx.ide == StandardId && |old(worker0)| < 8 then old(worker0) + [rx]
                         else old(worker0)
      ensures worker1 == if ok && rx.stdId == 0x0b && rx.data[0] % 10 == 0 && |old(worker1)| < 8 then old(worker1) + [rx]
                         else old(worker1)
    {
      ok := OfferToWorkers(rx);
      // a failed assertion leaves the task in it for good
      st := st.(env := st.env.(producer := if ok then Waiting else Halted));
    }

    method OfferToWorkers(rx: RxFrame) returns (ok: bool)
      modifies this`worker0, this`worker1
      ensures ok == !Misuses0B(rx)
      ensures worker0 == if rx.stdId == 0x0b && rx.ide == StandardId && |old(worker0)| < 8 then old(worker0) + [rx]
                         else old(worker0)
      ensures worker1 == if ok && rx.stdId == 0x0b && rx.data[0] % 10 == 0 && |old(worker1)| < 8 then old(worker1) + [rx]
                         else old(worker1)
    {
      if rx.stdId == DO_WORK0_FRAME_ID {
        if rx.ide != StandardId { return false; }
        worker0 := WorkerQueueSend(worker0, rx);
        var ret, counter := DoWork0Unpack(rx.data, rx.dlc, 0);
        if ret != 0 { return false; }
        if counter % 10 == 0 {
          worker1 := WorkerQueueSend(worker1, rx);
        }
      }
      return true;
    }

    /** xQueueSend with no wait on a worker's queue: a full queue is only logged. */
    method WorkerQueueSend(queue: seq<RxFrame>, rx: RxFrame) returns (queue': seq<RxFrame>)
      ensures queue' == if |queue| < 8 then queue + [rx] else queue
    {
      queue' := if |queue| < WORKER_QUEUE_LENGTH then queue + [rx] else queue;
    }
  }

  lemma TraceOther(s0: State, es: seq<Event>, own: seq<Event>, s: State, e: Event, s': State)
    requires Trace(IsCan1Event, s0, es, own, s) && Step(s, e) == Some(s') && !IsCan1Event(e)
    ensures Trace(IsCan1Event, s0, es + [e], own, s')
  {
    ExtendOne(s0, es, s, e, s');
    SelectPush(es, e, IsCan1Event);
    assert own + [] == own;
  }

  /** Only the CAN1 task moves itself or takes from its message buffer. */
  lemma OthersLeaveProducer(s: State, e: Event, s': State)
    requires Step(s, e) == Some(s') && !IsCan1Event(e)
    ensures s'.env.producer == s.env.producer && s.env.messages <= s'.env.messages
  {
    if e.Receive? {
    } else if e.Decide? {
    } else {
    }
  }
}
