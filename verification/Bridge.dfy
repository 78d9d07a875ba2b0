/** The CAN-to-Ethernet bridge as a labelled transition system: the CAN1 interrupt,
    the CAN1 task, the CAN_ETH task, the flush timer, the network and the IP stack,
    interleaved at every kernel call.

    Assumptions about the FreeRTOS primitives, none of which is in the repository:
    a 0-wait queue send fails exactly when the queue is full; a message buffer send
    from the interrupt fails exactly when it has no room for one more message;
    eSetBits ORs its bits in and always passes; xTaskNotifyWait returns the pending
    bits and clears all of them; a positive result of a zero-copy FreeRTOS_sendto
    hands the buffer to the stack. */
module Bridge {
  import opened Words
  import opened Caneth

  const QUEUE_LENGTH := 32
  const DO_WORK0_FRAME_ID: u32 := 0x0b

  // ---- Data ----

  datatype IdType = StandardId | ExtendedId

  /** can_rx_frame_s: a HAL receive header and its eight data bytes. */
  datatype RxFrame = RxFrame(stdId: u32, extId: u32, ide: IdType, remote: bool, dlc: u32, data: Data8)

  /** The bridge frame built from a received one; the DLC is truncated to a byte
      and all eight data bytes are copied, whatever the DLC. */
  function Convert(rx: RxFrame): Frame
  {
    Frame(if rx.ide.StandardId? then rx.stdId else rx.extId,
          rx.dlc % 256,
          rx.data,
          if rx.ide.ExtendedId? then 1 else 0,
          if rx.remote then 1 else 0)
  }

  function ConvertAll(rxs: seq<RxFrame>): (fs: seq<Frame>)
    ensures |fs| == |rxs|
  {
    if rxs == [] then [] else ConvertAll(rxs[..|rxs| - 1]) + [Convert(rxs[|rxs| - 1])]
  }

  /** Where the CAN1 task is, with its local rx_frame. */
  datatype Producer =
    | Waiting                       // in xMessageBufferReceive
    | Holding(rx: RxFrame)          // received, network not yet checked
    | Offering(rx: RxFrame)         // network up, before xQueueSend
    | Sent(rx: RxFrame)             // between xQueueSend and xTaskNotify
    | Refused(rx: RxFrame)          // queue was full, error flag not yet set
    | Dispatching(rx: RxFrame)      // bridge done, before the worker dispatch
    | Halted                        // a dispatch assertion failed

  type BufferId = nat
  datatype Owner = InPool | InStack | InTask
  datatype BufferOp = Acquired(b: BufferId) | HandedOver(b: BufferId) | Returned(b: BufferId)

  /** One FreeRTOS_sendto: the bytes passed, its outcome, and whether the wake that
      led to it carried the flush bit. */
  datatype Attempt = Attempt(bytes: seq<u8>, ok: bool, flush: bool)

  /** Everything outside the CAN_ETH task's own variables. The fields from `read`
      on only record what has happened. */
  datatype Env = Env(
    capacity: nat,                  // whole frames the message buffer can hold
    netUp: bool,
    messages: seq<RxFrame>,
    producer: Producer,
    queue: seq<Frame>,
    queueBit: bool,
    flushBit: bool,
    can1Error: bool,
    canethError: bool,
    owner: map<BufferId, Owner>,
    read: seq<RxFrame>,             // read successfully by the interrupt
    discarded: nat,                 // dropped because the network was down
    accepted: seq<Frame>,           // taken by the queue
    coalesced: nat,                 // notifications that found QUEUE_EVENT_BIT already set
    attempts: seq<Attempt>,
    ops: seq<BufferOp>)

  /** Where the CAN_ETH task is. */
  datatype Pc =
    | Boot                          // waiting for the network
    | Acquiring                     // in FreeRTOS_GetUDPPayloadBuffer
    | Head                          // in xTaskNotifyWait
    | Woken(queue: bool, flush: bool)   // between xTaskNotifyWait and xQueueReceive
    | Deciding(flush: bool)         // before the ready_to_send test
    | Sending(flush: bool)          // header written, before FreeRTOS_sendto
    | SendFailed                    // before FreeRTOS_ReleaseUDPPayloadBuffer
    | Released                      // before the error flag is set
    | Finished                      // before buffered_frames = 0
    | Crashed                       // configASSERT(buffered_frames < CANETH_MAX_COUNT) failed

  /** The CAN_ETH task's variables; buf is the memory udp_buffer points to. */
  datatype Task = Task(pc: Pc, buffered: Count, seqnum: u16, ptr: BufferId, buf: Payload)

  datatype State = State(env: Env, task: Task)

  // ---- Steps ----

  datatype Event =
    // interrupt, timer, network, stack
    | NetChange(up: bool)
    | CanRead(rx: RxFrame)
    | CanReadFailed
    | CanErrorCallback
    | FlushTick
    | StackDone(b: BufferId)
    // CAN1 task
    | Take
    | CheckNetwork
    | Offer
    | Notify
    | FlagRefused
    | Dispatch
    // CAN_ETH task
    | NetworkSeen
    | Acquire(b: BufferId, contents: Payload)
    | Wake
    | Receive
    | Decide
    | SendTo(ok: bool)
    | Release
    | FlagFailed
    | Reset

  /** The steps of the CAN_ETH task. */
  predicate IsTaskEvent(e: Event)
  {
    e.NetworkSeen? || e.Acquire? || e.Wake? || e.Receive? || e.Decide? || e.SendTo? || e.Release? || e.FlagFailed? || e.Reset?
  }

  /** The steps of the CAN1 task. */
  predicate IsCan1Event(e: Event)
  {
    e.Take? || e.CheckNetwork? || e.Offer? || e.Notify? || e.FlagRefused? || e.Dispatch?
  }

  /** The worker dispatch's configASSERTs hold: a DoWork0 frame is standard, and
      long enough for canproto_do_work0_unpack. */
  predicate DispatchOk(rx: RxFrame)
  {
    rx.stdId == DO_WORK0_FRAME_ID ==> rx.ide.StandardId? && rx.dlc >= 8
  }

  /** None: the step is not enabled. */
  function EnvStep(v: Env, e: Event): Option<Env>
  {
    match e
    case NetChange(up) => Some(v.(netUp := up))
    case CanRead(rx) =>
      if |v.messages| < v.capacity
      then Some(v.(read := v.read + [rx], messages := v.messages + [rx]))
      else Some(v.(read := v.read + [rx], can1Error := true))
    case CanReadFailed => Some(v.(can1Error := true))
    case CanErrorCallback => Some(v.(can1Error := true))
    case FlushTick => Some(v.(flushBit := true))
    case StackDone(b) =>
      if b in v.owner && v.owner[b] == InStack then Some(v.(owner := v.owner[b := InPool])) else None
    case Take =>
      if v.producer.Waiting? && v.messages != []
      then Some(v.(messages := v.messages[1..], producer := Holding(v.messages[0])))
      else None
    case CheckNetwork =>
      if !v.producer.Holding? then None
      else if v.netUp then Some(v.(producer := Offering(v.producer.rx)))
      else Some(v.(producer := Dispatching(v.producer.rx), discarded := v.discarded + 1))
    case Offer =>
      if !v.producer.Offering? then None
      else if |v.queue| < QUEUE_LENGTH then
        var f := Convert(v.producer.rx);
        Some(v.(queue := v.queue + [f], accepted := v.accepted + [f], producer := Sent(v.producer.rx)))
      else Some(v.(producer := Refused(v.producer.rx)))
    case Notify =>
      if v.producer.Sent?
      then Some(v.(queueBit := true,
                   coalesced := if v.queueBit then v.coalesced + 1 else v.coalesced,
                   producer := Dispatching(v.producer.rx)))
      else None
    case FlagRefused =>
      if v.producer.Refused?
      then Some(v.(canethError := true, producer := Dispatching(v.producer.rx)))
      else None
    case Dispatch =>
      if v.producer.Dispatching?
      then Some(v.(producer := if DispatchOk(v.producer.rx) then Waiting else Halted))
      else None
    case _ => None
  }

  function TaskStep(v: Env, t: Task, e: Event): Option<State>
  {
    match e
    case NetworkSeen =>
      if t.pc.Boot? && v.netUp then Some(State(v, t.(pc := Acquiring))) else None
    case Acquire(b, contents) =>
      if t.pc.Acquiring? && b in v.owner && v.owner[b] == InPool
      then Some(State(v.(owner := v.owner[b := InTask], ops := v.ops + [Acquired(b)]),
                      t.(pc := Head, ptr := b, buf := contents)))
      else None
    case Wake =>
      if t.pc.Head? && (v.queueBit || v.flushBit)
      then Some(State(v.(queueBit := false, flushBit := false), t.(pc := Woken(v.queueBit, v.flushBit))))
      else None
    case Receive =>
      if !t.pc.Woken? then None
      else if !t.pc.queue then Some(State(v, t.(pc := Deciding(t.pc.flush))))
      else if t.buffered >= MAX_COUNT then Some(State(v, t.(pc := Crashed)))
      else if v.queue == [] then Some(State(v, t.(pc := Deciding(t.pc.flush))))
      else Some(State(v.(queue := v.queue[1..]),
                      t.(pc := Deciding(t.pc.flush),
                         buf := WriteFrame(t.buf, t.buffered, v.queue[0]),
                         buffered := t.buffered + 1)))
    case Decide =>
      if !t.pc.Deciding? then None
      else if (t.buffered == MAX_COUNT || t.pc.flush) && t.buffered != 0 then
        var seqnum := (t.seqnum + 1) % 0x1_0000;
        Some(State(v, t.(pc := Sending(t.pc.flush), seqnum := seqnum,
                         buf := WriteHeader(t.buf, seqnum, t.buffered))))
      else Some(State(v, t.(pc := Head)))
    case SendTo(ok) =>
      if !t.pc.Sending? then None
      else
        var v' := v.(attempts := v.attempts + [Attempt(t.buf[..Offset(t.buffered)], ok, t.pc.flush)]);
        if ok
        then Some(State(v'.(owner := v.owner[t.ptr := InStack], ops := v.ops + [HandedOver(t.ptr)]),
                        t.(pc := Finished)))
        else Some(State(v', t.(pc := SendFailed)))
    case Release =>
      if t.pc.SendFailed?
      then Some(State(v.(owner := v.owner[t.ptr := InPool], ops := v.ops + [Returned(t.ptr)]), t.(pc := Released)))
      else None
    case FlagFailed =>
      if t.pc.Released? then Some(State(v.(canethError := true), t.(pc := Finished))) else None
    case Reset =>
      if t.pc.Finished? then Some(State(v, t.(pc := Acquiring, buffered := 0))) else None
    case _ => None
  }

  function Step(s: State, e: Event): Option<State>
  {
    if IsTaskEvent(e) then TaskStep(s.env, s.task, e)
    else match EnvStep(s.env, e) case None => None case Some(v) => Some(State(v, s.task))
  }

  function Run(s: State, es: seq<Event>): Option<State>
  {
    if es == [] then Some(s)
    else match Run(s, es[..|es| - 1]) case None => None case Some(t) => Step(t, es[|es| - 1])
  }

  /** Power-on: nothing received, every buffer in the pool, all flags clear. */
  ghost predicate Init(s: State)
  {
    && s.env == Env(s.env.capacity, s.env.netUp, [], Waiting, [], false, false, false, false, s.env.owner,
                    [], 0, [], 0, [], [])
    && (forall b <- s.env.owner :: s.env.owner[b] == InPool)
    && s.task.pc == Boot && s.task.buffered == 0 && s.task.seqnum == 0
  }

  /** Reachable from power-on by the run es. */
  ghost predicate Reaches(s0: State, es: seq<Event>, s: State)
  {
    Init(s0) && Run(s0, es) == Some(s)
  }

  lemma {:induction false} RunAppend(s: State, a: seq<Event>, b: seq<Event>)
    ensures Run(s, a + b) == match Run(s, a) case None => None case Some(t) => Run(t, b)
  {
    if b == [] {
      assert a + b == a;
    } else {
      var m := |b| - 1;
      assert (a + b)[..|a + b| - 1] == a + b[..m];
      RunAppend(s, a, b[..m]);
    }
  }

  /** The events of es that are mine, in order. */
  function Select(es: seq<Event>, mine: Event -> bool): seq<Event>
  {
    if es == [] then []
    else Select(es[..|es| - 1], mine) + if mine(es[|es| - 1]) then [es[|es| - 1]] else []
  }

  lemma {:induction false} SelectAppend(a: seq<Event>, b: seq<Event>, mine: Event -> bool)
    ensures Select(a + b, mine) == Select(a, mine) + Select(b, mine)
  {
    if b == [] {
      assert a + b == a;
    } else {
      var m := |b| - 1;
      assert (a + b)[..|a + b| - 1] == a + b[..m];
      SelectAppend(a, b[..m], mine);
    }
  }

  lemma SelectPush(es: seq<Event>, e: Event, mine: Event -> bool)
    ensures Select(es + [e], mine) == Select(es, mine) + if mine(e) then [e] else []
  {
    assert (es + [e])[..|es|] == es;
  }

  lemma RunOne(s: State, e: Event)
    ensures Run(s, [e]) == Step(s, e)
  {
    assert [e][..0] == [];
    assert Run(s, [e][..0]) == Some(s);
  }

  lemma Extend(s0: State, es: seq<Event>, s: State, more: seq<Event>, s': State)
    requires Run(s0, es) == Some(s) && Run(s, more) == Some(s')
    ensures Run(s0, es + more) == Some(s')
  {
    RunAppend(s0, es, more);
  }

  lemma ExtendOne(s0: State, es: seq<Event>, s: State, e: Event, s': State)
    requires Run(s0, es) == Some(s) && Step(s, e) == Some(s')
    ensures Run(s0, es + [e]) == Some(s')
  {
    assert (es + [e])[..|es|] == es;
  }

  /** es leads from s0 to s, and own are the steps in it that are mine. */
  ghost predicate Trace(mine: Event -> bool, s0: State, es: seq<Event>, own: seq<Event>, s: State)
  {
    Run(s0, es) == Some(s) && Select(es, mine) == own
  }

  lemma TraceStep(mine: Event -> bool, s0: State, es: seq<Event>, own: seq<Event>, s: State, e: Event, s': State)
    requires Trace(mine, s0, es, own, s) && Step(s, e) == Some(s') && mine(e)
    ensures Trace(mine, s0, es + [e], own + [e], s')
  {
    ExtendOne(s0, es, s, e, s');
    SelectPush(es, e, mine);
  }

  lemma TraceAppend(mine: Event -> bool, s0: State, es: seq<Event>, own: seq<Event>, s: State,
                    d: seq<Event>, more: seq<Event>, s': State)
    requires Trace(mine, s0, es, own, s) && Trace(mine, s, d, more, s')
    ensures Trace(mine, s0, es + d, own + more, s')
  {
    Extend(s0, es, s, d, s');
    SelectAppend(es, d, mine);
  }
}
