/** The CAN_ETH task as it is written: a loop body over buffered_frames, udp_seqnum and a
    UDP buffer edited in place. Every pass, under every interference by the rest of the
    firmware between its kernel calls, is a run of the transition system, so whatever is
    proved of all runs holds of the code. */
module CanethTask {
  import opened Words
  import opened Caneth
  import opened Bridge
  import opened BridgeInvariants

  /** memcpy into an array. */
  method MemCpy(dst: array<u8>, off: nat, src: seq<u8>)
    requires off + |src| <= dst.Length
    modifies dst
    ensures dst[..] == Splice(old(dst[..]), off, src)
  {
    for i := 0 to |src|
      invariant forall j :: 0 <= j < dst.Length ==>
                  dst[j] == if off <= j < off + i then src[j - off] else old(dst[j])
    {
      dst[off + i] := src[i];
    }
  }

  // ---- The task's own steps, and everybody else's ----

  function Own(es: seq<Event>): seq<Event> { Select(es, IsTaskEvent) }

  lemma OwnPush(es: seq<Event>, e: Event)
    ensures Own(es + [e]) == Own(es) + if IsTaskEvent(e) then [e] else []
  {
    SelectPush(es, e, IsTaskEvent);
  }

  /** The environment once all others have made those of the proposed steps that are enabled. */
  function After(v: Env, proposed: seq<Event>): Env
    decreases |proposed|
  {
    if proposed == [] then v
    else
      var e := proposed[0];
      var next := EnvStep(v, e);
      After(if !IsTaskEvent(e) && next.Some? then next.value else v, proposed[1..])
  }

  /** Whether FreeRTOS_GetUDPPayloadBuffer, retried, ever gives one of the offered buffers. */
  function Granted(v: Env, offers: seq<(seq<Event>, BufferId)>): bool
    decreases |offers|
  {
    if offers == [] then false
    else
      var u, b := After(v, offers[0].0), offers[0].1;
      Available(u, b) || Granted(u, offers[1..])
  }

  /** Everything the others can do is a possible preemption: any run in which the task takes
      no step is what happens when its steps are proposed. */
  lemma {:induction false} AfterIsAnyRun(v: Env, t: Task, es: seq<Event>, s: State)
    requires Run(State(v, t), es) == Some(s) && forall e <- es :: !IsTaskEvent(e)
    ensures After(v, es) == s.env && s.task == t
  {
    if es != [] {
      var m := |es| - 1;
      var u := Run(State(v, t), es[..m]).value;
      assert es[m] in es;
      AfterIsAnyRun(v, t, es[..m], u);
      assert es == es[..m] + [es[m]];
      AfterAppend(v, es[..m], [es[m]]);
      AfterOne(u.env, es[m]);
    }
  }

  lemma AfterOne(v: Env, e: Event)
    ensures After(v, [e]) == if !IsTaskEvent(e) && EnvStep(v, e).Some? then EnvStep(v, e).value else v
  {
  }

  lemma {:induction false} AfterAppend(v: Env, a: seq<Event>, b: seq<Event>)
    ensures After(v, a + b) == After(After(v, a), b)
    decreases |a|
  {
    if a == [] {
      assert a + b == b;
    } else {
      var next := EnvStep(v, a[0]);
      assert (a + b)[1..] == a[1..] + b;
      AfterAppend(if !IsTaskEvent(a[0]) && next.Some? then next.value else v, a[1..], b);
    }
  }

  /** All that is proposed before the first n offers. */
  function Proposed(offers: seq<(seq<Event>, BufferId)>, n: nat): seq<Event>
    requires n <= |offers|
    decreases n
  {
    if n == 0 then [] else offers[0].0 + Proposed(offers[1..], n - 1)
  }

  /** A buffer is given if and only if one of those offered is in the pool when its turn
      comes, that is, if and only if the task could acquire it then. */
  lemma {:induction false} GrantedIff(v: Env, offers: seq<(seq<Event>, BufferId)>)
    ensures Granted(v, offers) <==>
              exists i :: 0 <= i < |offers| && Available(After(v, Proposed(offers, i + 1)), offers[i].1)
    decreases |offers|
  {
    if offers != [] {
      var u := After(v, offers[0].0);
      GrantedIff(u, offers[1..]);
      forall i | 0 <= i < |offers|
        ensures After(v, Proposed(offers, i + 1)) == After(u, Proposed(offers[1..], i))
      {
        AfterAppend(v, offers[0].0, Proposed(offers[1..], i));
      }
      if Granted(u, offers[1..]) {
        var i :| 0 <= i < |offers[1..]| && Available(After(u, Proposed(offers[1..], i + 1)), offers[1..][i].1);
        assert Available(After(v, Proposed(offers, i + 2)), offers[i + 1].1);
      }
      if i :| 0 <= i < |offers| && Available(After(v, Proposed(offers, i + 1)), offers[i].1) {
        if i > 0 {
          assert Available(After(u, Proposed(offers[1..], i)), offers[1..][i - 1].1);
        }
      }
    }
  }

  predicate Available(v: Env, b: BufferId) { b in v.owner && v.owner[b] == InPool }

  /** The task's waits end exactly when the transition system lets it go on. */
  lemma WaitsAreSteps(v: Env, t: Task, b: BufferId, contents: Payload)
    ensures t.pc.Head? ==> (Step(State(v, t), Wake).Some? <==> Pending(v))
    ensures t.pc.Acquiring? ==> (Step(State(v, t), Acquire(b, contents)).Some? <==> Available(v, b))
    ensures t.pc.Boot? ==> (Step(State(v, t), NetworkSeen).Some? <==> v.netUp)
  {
  }

  /** Somewhere in es the task, out of a buffer, is given none of those offered. */
  ghost predicate Starved(s0: State, es: seq<Event>, offers: seq<(seq<Event>, BufferId)>)
  {
    exists a, b, s :: StarvedAt(s0, es, offers, a, b, s)
  }

  ghost predicate StarvedAt(s0: State, es: seq<Event>, offers: seq<(seq<Event>, BufferId)>,
                            a: seq<Event>, b: seq<Event>, s: State)
  {
    es == a + b && Run(s0, a) == Some(s) && s.task.pc == Acquiring && !Granted(s.env, offers)
  }

  lemma StarvedLater(s0: State, es: seq<Event>, s: State, d: seq<Event>, offers: seq<(seq<Event>, BufferId)>)
    requires Run(s0, es) == Some(s) && Starved(s, d, offers)
    ensures Starved(s0, es + d, offers)
  {
    var a, b, u :| StarvedAt(s, d, offers, a, b, u);
    Extend(s0, es, s, a, u);
    Associate(es, a, b, d);
    assert StarvedAt(s0, es + d, offers, es + a, b, u);
  }

  lemma Associate<T>(x: seq<T>, a: seq<T>, b: seq<T>, d: seq<T>)
    requires d == a + b
    ensures x + d == (x + a) + b
  {
  }

  lemma StarvedNow(s0: State, es: seq<Event>, s: State, d: seq<Event>, offers: seq<(seq<Event>, BufferId)>)
    requires Run(s0, es) == Some(s) && s.task.pc == Acquiring && !Granted(s.env, offers)
    ensures Starved(s0, es + d, offers)
  {
    assert StarvedAt(s0, es + d, offers, es, d, s);
  }

  /** Getting rid of a batch. */
  function SendSteps(ok: bool): seq<Event>
  {
    [SendTo(ok)] + (if ok then [] else [Release, FlagFailed]) + [Reset]
  }

  /** The task's own steps in one pass of its loop: nothing, while it waits for an event;
      wait, receive and decide; or, with a batch to send, the send, the clean-up if it
      fails, forgetting the batch, and acquiring a buffer unless it is still waiting for one. */
  ghost predicate IsPass(own: seq<Event>, ok: bool, blocked: bool)
  {
    || (own == [] && blocked)
    || (own == [Wake, Receive, Decide] && !blocked)
    || (own == [Wake, Receive, Decide] + SendSteps(ok) && blocked)
    || (!blocked && exists b, contents :: own == [Wake, Receive, Decide] + SendSteps(ok) + [Acquire(b, contents)])
  }

  /** Seeing the network up, then acquiring a buffer. */
  ghost predicate IsStart(own: seq<Event>, blocked: bool)
  {
    exists acquired :: own == [NetworkSeen] + acquired && IsAcquired(acquired, blocked)
  }

  /** One pass per schedule; only the last may be blocked. */
  ghost predicate ArePasses(passes: seq<seq<Event>>, schedules: seq<Schedule>, blocked: bool)
  {
    && |passes| <= |schedules|
    && forall j :: 0 <= j < |passes| ==>
         IsPass(Own(passes[j]), schedules[j].sendOk, blocked && j == |passes| - 1)
  }

  lemma PassesPush(passes: seq<seq<Event>>, schedules: seq<Schedule>, pass: seq<Event>, blocked: bool)
    requires ArePasses(passes, schedules, false) && |passes| < |schedules|
    requires IsPass(Own(pass), schedules[|passes|].sendOk, blocked)
    ensures ArePasses(passes + [pass], schedules, blocked)
  {
  }

  lemma PassWithSend(a: seq<Event>, b: seq<Event>, ok: bool, blocked: bool)
    requires a == [Wake, Receive]
    requires exists own :: b == [Decide] + SendSteps(ok) + own && IsAcquired(own, blocked)
    ensures IsPass(a + b, ok, blocked)
  {
    var own :| b == [Decide] + SendSteps(ok) + own && IsAcquired(own, blocked);
    if blocked {
      assert a + b == [Wake, Receive, Decide] + SendSteps(ok);
    } else {
      var id, contents :| own == [Acquire(id, contents)];
      assert a + b == [Wake, Receive, Decide] + SendSteps(ok) + [Acquire(id, contents)];
    }
  }

  /** An event to wake up for. */
  predicate Pending(v: Env) { v.queueBit || v.flushBit }

  function Concat(passes: seq<seq<Event>>): seq<Event>
  {
    if passes == [] then [] else Concat(passes[..|passes| - 1]) + passes[|passes| - 1]
  }

  lemma ConcatPush(start: seq<Event>, passes: seq<seq<Event>>, pass: seq<Event>)
    ensures start + Concat(passes + [pass]) == start + Concat(passes) + pass
  {
    assert (passes + [pass])[..|passes|] == passes;
  }

  /** Left waiting before the first pass: for a network that is not up, or for a buffer that
      is not given. */
  ghost predicate StuckAtStart(s0: State, es: seq<Event>, beforeUp: seq<Event>, offers: seq<(seq<Event>, BufferId)>,
                               s: State)
  {
    if s.task.pc == Boot then !After(s0.env, beforeUp).netUp
    else s.task.pc == Acquiring && Starved(s0, es, offers)
  }

  /** Left waiting in a pass that began in u: for an event that is not pending, or for a
      buffer that is not given. */
  ghost predicate StuckInPass(u: State, es: seq<Event>, sch: Schedule, s: State)
  {
    if Pending(After(u.env, sch.beforeWake)) then s.task.pc == Acquiring && Starved(u, es, sch.offers)
    else s.task.pc == Head
  }

  /** Left waiting in the last of these passes. */
  ghost predicate StuckInLast(s0: State, start: seq<Event>, passes: seq<seq<Event>>, schedules: seq<Schedule>, s: State)
    requires 0 < |passes| <= |schedules|
  {
    var m := |passes| - 1;
    exists u :: Run(s0, start + Concat(passes[..m])) == Some(u) && StuckInPass(u, passes[m], schedules[m], s)
  }

  lemma StuckNow(s0: State, start: seq<Event>, passes: seq<seq<Event>>, schedules: seq<Schedule>,
                 u: State, pass: seq<Event>, s: State)
    requires |passes| < |schedules| && Run(s0, start + Concat(passes)) == Some(u)
    requires StuckInPass(u, pass, schedules[|passes|], s)
    ensures StuckInLast(s0, start, passes + [pass], schedules, s)
  {
    assert (passes + [pass])[..|passes|] == passes;
  }

  /** Acquiring a buffer: not yet, or done. */
  ghost predicate IsAcquired(own: seq<Event>, blocked: bool)
  {
    if blocked then own == [] else exists b, contents :: own == [Acquire(b, contents)]
  }

  /** The kernel, the IP stack and all other tasks, as seen from the CAN_ETH task. */
  class Kernel {
    var env: Env

    constructor (env: Env)
      ensures this.env == env
    {
      this.env := env;
    }

    /** The rest of the firmware runs: of the proposed steps, those that are enabled. */
    method Preempt(proposed: seq<Event>) returns (ghost done: seq<Event>)
      modifies this
      ensures forall t: Task :: Run(State(old(env), t), done) == Some(State(env, t))
      ensures Own(done) == [] && env == After(old(env), proposed)
    {
      done := [];
      for i := 0 to |proposed|
        invariant forall t: Task :: Run(State(old(env), t), done) == Some(State(env, t))
        invariant Own(done) == [] && After(env, proposed[i..]) == After(old(env), proposed)
      {
        var e := proposed[i];
        var next := EnvStep(env, e);
        if !IsTaskEvent(e) && next.Some? {
          ghost var before, es := env, done;
          env := next.value;
          done := done + [e];
          OwnPush(es, e);
          forall t: Task
            ensures Run(State(old(env), t), done) == Some(State(env, t))
          {
            ExtendOne(State(old(env), t), es, State(before, t), e, State(env, t));
          }
        }
      }
    }

    /** xTaskNotifyWait, once a bit is pending. */
    method NotifyWait() returns (queueEvent: bool, flushEvent: bool)
      requires env.queueBit || env.flushBit
      modifies this
      ensures queueEvent == old(env.queueBit) && flushEvent == old(env.flushBit)
      ensures env == old(env).(queueBit := false, flushBit := false)
    {
      queueEvent, flushEvent := env.queueBit, env.flushBit;
      env := env.(queueBit := false, flushBit := false);
    }

    /** xQueueReceive with no wait, into the array at off. */
    method QueueReceive(dst: array<u8>, off: nat) returns (received: bool)
      requires off + FRAME_SIZE <= dst.Length
      modifies this, dst
      ensures received == (old(env.queue) != [])
      ensures received ==> env == old(env).(queue := old(env.queue)[1..])
      ensures received ==> dst[..] == Splice(old(dst[..]), off, FrameBytes(old(env.queue)[0]))
      ensures !received ==> env == old(env) && dst[..] == old(dst[..])
    {
      received := env.queue != [];
      if received {
        MemCpy(dst, off, FrameBytes(env.queue[0]));
        env := env.(queue := env.queue[1..]);
      }
    }

    /** FreeRTOS_sendto with FREERTOS_ZERO_COPY; outcome is the stack's choice. */
    method SendTo(src: array<u8>, size: nat, outcome: bool, flush: bool, b: BufferId) returns (ok: bool)
      requires size <= src.Length
      modifies this
      ensures ok == outcome
      ensures env == (var sent := old(env).(attempts := old(env.attempts) + [Attempt(src[..size], ok, flush)]);
                      if ok then sent.(owner := sent.owner[b := InStack], ops := sent.ops + [HandedOver(b)])
                      else sent)
    {
      ok := outcome;
      env := env.(attempts := env.attempts + [Attempt(src[..size], ok, flush)]);
      if ok {
        env := env.(owner := env.owner[b := InStack], ops := env.ops + [HandedOver(b)]);
      }
    }

    /** FreeRTOS_ReleaseUDPPayloadBuffer. */
    method ReleaseBuffer(b: BufferId)
      modifies this
      ensures env == old(env).(owner := old(env.owner)[b := InPool], ops := old(env.ops) + [Returned(b)])
    {
      env := env.(owner := env.owner[b := InPool], ops := env.ops + [Returned(b)]);
    }

    /** status_flags_set_caneth_error. */
    method SetCanethError()
      modifies this
      ensures env == old(env).(canethError := true)
    {
      env := env.(canethError := true);
    }

    /** FreeRTOS_GetUDPPayloadBuffer: buffer b if it is in the pool, with whatever it
        contains, or null. */
    method GetBuffer(b: BufferId) returns (p: array?<u8>)
      modifies this
      ensures p == null <==> !(b in old(env.owner) && old(env.owner)[b] == InPool)
      ensures p == null ==> env == old(env)
      ensures p != null ==>
                && p.Length == DATAGRAM_MAX_SIZE && fresh(p)
                && env == old(env).(owner := old(env.owner)[b := InTask], ops := old(env.ops) + [Acquired(b)])
    {
      p := null;
      if b in env.owner && env.owner[b] == InPool {
        p := new u8[DATAGRAM_MAX_SIZE];
        env := env.(owner := env.owner[b := InTask], ops := env.ops + [Acquired(b)]);
      }
    }
  }

  /** The four stores through caneth_header_s*. */
  method StoreHeader(buf: array<u8>, seqnum: u16, count: u8)
    requires buf.Length == DATAGRAM_MAX_SIZE
    modifies buf
    ensures buf[..] == WriteHeader(old(buf[..]), seqnum, count)
  {
    ghost var b := buf[..];
    ghost var magic, number := ToLE(MAGIC_ID, 8), ToLE(seqnum, 2);
    MemCpy(buf, 0, ToLE(MAGIC_ID, 8));
    MemCpy(buf, 8, [VERSION]);
    SpliceAdjacent(b, 0, magic, [VERSION]);
    MemCpy(buf, 9, ToLE(seqnum, 2));
    SpliceAdjacent(b, 0, magic + [VERSION], number);
    MemCpy(buf, 11, [count]);
    SpliceAdjacent(b, 0, magic + [VERSION] + number, [count]);
  }

  /** What the rest of the firmware and the stack do during one pass: the steps proposed
      before each kernel call, the outcome of the send, and the buffers on offer. */
  datatype Schedule = Schedule(
    beforeWake: seq<Event>, beforeReceive: seq<Event>, beforeSend: seq<Event>, sendOk: bool,
    beforeRelease: seq<Event>, beforeFlag: seq<Event>, offers: seq<(seq<Event>, BufferId)>)

  class CanethTask {
    const k: Kernel
    var bufferedFrames: Count
    var udpSeqnum: u16
    var udpBuffer: array<u8>
    ghost var pc: Pc
    var ptr: BufferId               // which of the stack's buffers udpBuffer is

    ghost predicate Valid()
      reads this, udpBuffer
    {
      udpBuffer.Length == DATAGRAM_MAX_SIZE
    }

    ghost function View(): State
      reads this, k, udpBuffer
      requires Valid()
    {
      State(k.env, Task(pc, bufferedFrames, udpSeqnum, ptr, udpBuffer[..]))
    }

    /** The task's locals before the network is up; udp_buffer points nowhere useful. */
    constructor (k: Kernel)
      ensures Valid() && this.k == k && fresh(udpBuffer)
      ensures pc == Boot && bufferedFrames == 0 && udpSeqnum == 0
    {
      this.k := k;
      bufferedFrames, udpSeqnum, pc, ptr := 0, 0, Boot, 0;
      udpBuffer := new u8[DATAGRAM_MAX_SIZE];
    }

    /** From task entry to the first time at the loop head. */
    method Start(beforeUp: seq<Event>, offers: seq<(seq<Event>, BufferId)>)
      returns (ghost es: seq<Event>, blocked: bool)
      requires Valid() && pc == Boot
      modifies this, k
      ensures Valid() && (udpBuffer == old(udpBuffer) || fresh(udpBuffer))
      ensures Run(old(View()), es) == Some(View())
      ensures if pc == Boot then Own(es) == [] && blocked && !After(old(k.env), beforeUp).netUp
              else IsStart(Own(es), blocked)
      ensures if blocked then StuckAtStart(old(View()), es, beforeUp, offers, View()) else pc == Head
      ensures bufferedFrames == old(bufferedFrames)
    {
      ghost var s0 := View();
      es := Others(beforeUp, s0, [], []);
      blocked := !k.env.netUp;
      if !blocked {
        ghost var s := View();
        pc := Acquiring;
        TraceStep(IsTaskEvent, s0, es, [], s, NetworkSeen, View());
        es, s := es + [NetworkSeen], View();
        ghost var acquired;
        acquired, blocked := AcquireBuffer(offers);
        TraceAppend(IsTaskEvent, s0, es, [NetworkSeen], s, acquired, Own(acquired), View());
        if blocked { StarvedNow(s0, es, s, acquired, offers); }
        es := es + acquired;
      }
    }

    /** The endless loop's body, src/task_caneth.c from xTaskNotifyWait on. blocked says
        that the schedule left the task waiting inside a kernel call: with no event
        pending, or with no buffer to be had. */
    method LoopBody(sch: Schedule) returns (ghost es: seq<Event>, blocked: bool)
      requires Valid() && pc == Head && bufferedFrames < MAX_COUNT
      modifies this, k, udpBuffer
      ensures Valid() && (udpBuffer == old(udpBuffer) || fresh(udpBuffer))
      ensures Run(old(View()), es) == Some(View()) && IsPass(Own(es), sch.sendOk, blocked)
      ensures !blocked ==> pc == Head && bufferedFrames < MAX_COUNT
      ensures blocked ==> StuckInPass(old(View()), es, sch, View())
      ensures !Pending(After(old(k.env), sch.beforeWake)) ==> blocked
    {
      ghost var s0 := View();
      var flushEvent;
      es, blocked, flushEvent := WaitAndReceive(sch);
      if blocked { return; }
      var readyToSend := bufferedFrames == MAX_COUNT || flushEvent;
      if readyToSend && bufferedFrames != 0 {
        ghost var s1 := View();
        ghost var d;
        d, blocked := SendAndReplace(sch, flushEvent);
        TraceAppend(IsTaskEvent, s0, es, [Wake, Receive], s1, d, Own(d), View());
        PassWithSend(Own(es), Own(d), sch.sendOk, blocked);
        if blocked { StarvedLater(s0, es, s1, d, sch.offers); }
        es := es + d;
      } else {
        ghost var s := View();
        pc := Head;
        TraceStep(IsTaskEvent, s0, es, [Wake, Receive], s, Decide, View());
        es := es + [Decide];
      }
    }

    /** The batch goes, and a new buffer takes the place of the old. */
    method SendAndReplace(sch: Schedule, flushEvent: bool) returns (ghost es: seq<Event>, blocked: bool)
      requires Valid() && pc == Deciding(flushEvent)
      requires bufferedFrames != 0 && (bufferedFrames == MAX_COUNT || flushEvent)
      modifies this, k, udpBuffer
      ensures Valid() && (udpBuffer == old(udpBuffer) || fresh(udpBuffer))
      ensures Run(old(View()), es) == Some(View())
      ensures pc == (if blocked then Acquiring else Head) && bufferedFrames == 0
      ensures exists own :: Own(es) == [Decide] + SendSteps(sch.sendOk) + own && IsAcquired(own, blocked)
      ensures blocked ==> Starved(old(View()), es, sch.offers)
    {
      ghost var s0 := View();
      es := SendBatch(sch, flushEvent);
      ghost var s := View();
      ghost var acquired;
      acquired, blocked := AcquireBuffer(sch.offers);
      TraceAppend(IsTaskEvent, s0, es, [Decide] + SendSteps(sch.sendOk), s, acquired, Own(acquired), View());
      if blocked { StarvedNow(s0, es, s, acquired, sch.offers); }
      es := es + acquired;
    }

    /** caneth_task: start, then one pass per schedule, for as long as it is not blocked.
        From power-on every state it gets to is reachable, so every invariant holds of the
        task's own variables and of the bytes in its buffer. passes are the events of each
        pass; the task makes every pass, unless a kernel call leaves it waiting for what
        the rest of the firmware does not give. */
    method Loop(beforeUp: seq<Event>, offers: seq<(seq<Event>, BufferId)>, schedules: seq<Schedule>)
      returns (ghost start: seq<Event>, ghost passes: seq<seq<Event>>, blocked: bool)
      requires Valid() && Init(View())
      modifies this, k, udpBuffer
      ensures Valid() && Reaches(old(View()), start + Concat(passes), View())
      ensures Inv(View())
      ensures !blocked ==> |passes| == |schedules| && pc == Head
      ensures passes != [] ==> IsStart(Own(start), false)
      ensures ArePasses(passes, schedules, blocked)
      ensures blocked ==> if passes == [] then StuckAtStart(old(View()), start, beforeUp, offers, View())
                          else StuckInLast(old(View()), start, passes, schedules, View())
    {
      ghost var s0 := View();
      start, blocked := Start(beforeUp, offers);
      passes := [];
      InvInit(s0);
      ghost var es := start;
      assert start + Concat([]) == start;
      var i := 0;
      while i < |schedules| && !blocked
        invariant i <= |schedules| && Valid() && (udpBuffer == old(udpBuffer) || fresh(udpBuffer))
        invariant es == start + Concat(passes) && Run(s0, es) == Some(View()) && |passes| == i
        invariant !blocked ==> pc == Head && bufferedFrames < MAX_COUNT
        invariant !blocked || i > 0 ==> IsStart(Own(start), false)
        invariant ArePasses(passes, schedules, blocked)
        invariant blocked ==> if passes == [] then StuckAtStart(s0, start, beforeUp, offers, View())
                              else StuckInLast(s0, start, passes, schedules, View())
        decreases |schedules| - i
      {
        ghost var s, pass := View(), [];
        pass, blocked := LoopBody(schedules[i]);
        Extend(s0, es, s, pass, View());
        ConcatPush(start, passes, pass);
        PassesPush(passes, schedules, pass, blocked);
        if blocked { StuckNow(s0, start, passes, schedules, s, pass, View()); }
        es, passes, i := es + pass, passes + [pass], i + 1;
      }
      InvRun(s0, es, View());
    }

    /** Others run; the task's own trace does not change. */
    method Others(proposed: seq<Event>, ghost s0: State, ghost es: seq<Event>, ghost own: seq<Event>)
      returns (ghost es': seq<Event>)
      requires Valid() && Trace(IsTaskEvent, s0, es, own, View())
      modifies k
      ensures Trace(IsTaskEvent, s0, es', own, View()) && k.env == After(old(k.env), proposed)
    {
      ghost var s := View();
      ghost var d := k.Preempt(proposed);
      TraceAppend(IsTaskEvent, s0, es, own, s, d, [], View());
      es' := es + d;
      assert own + [] == own;
    }

    /** Wait for an event; on a queue event move one frame from the queue to its slot. */
    method WaitAndReceive(sch: Schedule) returns (ghost es: seq<Event>, blocked: bool, flushEvent: bool)
      requires Valid() && pc == Head && bufferedFrames < MAX_COUNT
      modifies this, k, udpBuffer
      ensures Valid() && udpBuffer == old(udpBuffer)
      ensures Trace(IsTaskEvent, old(View()), es, if blocked then [] else [Wake, Receive], View())
      ensures if blocked then pc == Head else pc == Deciding(flushEvent)
      ensures blocked <==> !Pending(After(old(k.env), sch.beforeWake))
    {
      ghost var s0 := View();
      es := Others(sch.beforeWake, s0, [], []);
      blocked, flushEvent := !(k.env.queueBit || k.env.flushBit), false;
      if blocked { return; }
      ghost var s := View();
      var queueEvent;
      queueEvent, flushEvent := WaitNotify();
      TraceStep(IsTaskEvent, s0, es, [], s, Wake, View());
      es := es + [Wake];
      es := Others(sch.beforeReceive, s0, es, [Wake]);
      s := View();
      ReceiveFrame(queueEvent, flushEvent);
      TraceStep(IsTaskEvent, s0, es, [Wake], s, Receive, View());
      es := es + [Receive];
    }

    method WaitNotify() returns (queueEvent: bool, flushEvent: bool)
      requires Valid() && pc == Head && Pending(k.env)
      modifies this, k
      ensures Valid() && udpBuffer == old(udpBuffer) && bufferedFrames == old(bufferedFrames)
      ensures Step(old(View()), Wake) == Some(View()) && pc == Woken(queueEvent, flushEvent)
    {
      queueEvent, flushEvent := k.NotifyWait();
      pc := Woken(queueEvent, flushEvent);
    }

    method ReceiveFrame(queueEvent: bool, ghost flushEvent: bool)
      requires Valid() && pc == Woken(queueEvent, flushEvent) && bufferedFrames < MAX_COUNT
      modifies this, k, udpBuffer
      ensures Valid() && udpBuffer == old(udpBuffer)
      ensures Step(old(View()), Receive) == Some(View()) && pc == Deciding(flushEvent)
    {
      if queueEvent {
        var received := k.QueueReceive(udpBuffer, Offset(bufferedFrames));
        if received {
          bufferedFrames := bufferedFrames + 1;
        }
      }
      pc := Deciding(flushEvent);
    }

    /** Number and send the batch; on failure release the buffer and raise the flag. Either
        way the batch is forgotten. */
    method SendBatch(sch: Schedule, flushEvent: bool) returns (ghost es: seq<Event>)
      requires Valid() && pc == Deciding(flushEvent)
      requires bufferedFrames != 0 && (bufferedFrames == MAX_COUNT || flushEvent)
      modifies this, k, udpBuffer
      ensures Valid() && udpBuffer == old(udpBuffer)
      ensures Trace(IsTaskEvent, old(View()), es, [Decide] + SendSteps(sch.sendOk), View())
      ensures pc == Acquiring && bufferedFrames == 0
    {
      ghost var s0 := View();
      ghost var own := [Decide, SendTo(sch.sendOk)] + if sch.sendOk then [] else [Release, FlagFailed];
      es := NumberAndSend(sch, flushEvent);
      ghost var s := View();
      ForgetBatch();
      TraceStep(IsTaskEvent, s0, es, own, s, Reset, View());
      es := es + [Reset];
      assert own + [Reset] == [Decide] + SendSteps(sch.sendOk);
    }

    method NumberAndSend(sch: Schedule, flushEvent: bool) returns (ghost es: seq<Event>)
      requires Valid() && pc == Deciding(flushEvent)
      requires bufferedFrames != 0 && (bufferedFrames == MAX_COUNT || flushEvent)
      modifies this, k, udpBuffer
      ensures Valid() && udpBuffer == old(udpBuffer) && pc == Finished
      ensures Trace(IsTaskEvent, old(View()), es,
                    [Decide, SendTo(sch.sendOk)] + (if sch.sendOk then [] else [Release, FlagFailed]), View())
    {
      ghost var s0 := View();
      WriteDatagramHeader(flushEvent);
      ghost var s := View();
      TraceStep(IsTaskEvent, s0, [], [], s0, Decide, s);
      ghost var sent := SendDatagram(sch, flushEvent);
      ghost var more := [SendTo(sch.sendOk)] + if sch.sendOk then [] else [Release, FlagFailed];
      TraceAppend(IsTaskEvent, s0, [Decide], [Decide], s, sent, more, View());
      es := [Decide] + sent;
      assert [Decide] + more == [Decide, SendTo(sch.sendOk)] + if sch.sendOk then [] else [Release, FlagFailed];
    }

    /** buffered_frames = 0. */
    method ForgetBatch()
      requires Valid() && pc == Finished
      modifies this
      ensures Valid() && udpBuffer == old(udpBuffer)
      ensures Step(old(View()), Reset) == Some(View()) && pc == Acquiring && bufferedFrames == 0
    {
      bufferedFrames, pc := 0, Acquiring;
    }

    method SendDatagram(sch: Schedule, flushEvent: bool) returns (ghost es: seq<Event>)
      requires Valid() && pc == Sending(flushEvent)
      modifies this, k
      ensures Valid() && udpBuffer == old(udpBuffer) && pc == Finished
      ensures Trace(IsTaskEvent, old(View()), es, [SendTo(sch.sendOk)] + (if sch.sendOk then [] else [Release, FlagFailed]), View())
    {
      ghost var s0 := View();
      es := Others(sch.beforeSend, s0, [], []);
      ghost var s := View();
      PassToStack(sch.sendOk, flushEvent);
      TraceStep(IsTaskEvent, s0, es, [], s, SendTo(sch.sendOk), View());
      es := es + [SendTo(sch.sendOk)];
      if !sch.sendOk {
        s := View();
        ghost var d := CleanUp(sch);
        TraceAppend(IsTaskEvent, s0, es, [SendTo(false)], s, d, [Release, FlagFailed], View());
        es := es + d;
      }
    }

    /** FreeRTOS_sendto, and the test of its result. */
    method PassToStack(outcome: bool, flushEvent: bool)
      requires Valid() && pc == Sending(flushEvent)
      modifies this, k
      ensures Valid() && udpBuffer == old(udpBuffer)
      ensures Step(old(View()), SendTo(outcome)) == Some(View())
      ensures pc == if outcome then Finished else SendFailed
    {
      var ok := k.SendTo(udpBuffer, Offset(bufferedFrames), outcome, flushEvent, ptr);
      pc := if ok then Finished else SendFailed;
    }

    /** udp_seqnum += 1 and the four header stores. */
    method WriteDatagramHeader(ghost flushEvent: bool)
      requires Valid() && pc == Deciding(flushEvent)
      requires bufferedFrames != 0 && (bufferedFrames == MAX_COUNT || flushEvent)
      modifies this, udpBuffer
      ensures Valid() && udpBuffer == old(udpBuffer) && bufferedFrames == old(bufferedFrames) && ptr == old(ptr)
      ensures Step(old(View()), Decide) == Some(View()) && pc == Sending(flushEvent)
    {
      udpSeqnum := (udpSeqnum + 1) % 0x1_0000;
      StoreHeader(udpBuffer, udpSeqnum, bufferedFrames);
      pc := Sending(flushEvent);
    }

    method CleanUp(sch: Schedule) returns (ghost es: seq<Event>)
      requires Valid() && pc == SendFailed
      modifies this, k
      ensures Valid() && udpBuffer == old(udpBuffer) && pc == Finished
      ensures Trace(IsTaskEvent, old(View()), es, [Release, FlagFailed], View())
    {
      ghost var s0 := View();
      es := Others(sch.beforeRelease, s0, [], []);
      ghost var s := View();
      ReturnBuffer();
      TraceStep(IsTaskEvent, s0, es, [], s, Release, View());
      es := es + [Release];
      es := Others(sch.beforeFlag, s0, es, [Release]);
      s := View();
      ReportFailure();
      TraceStep(IsTaskEvent, s0, es, [Release], s, FlagFailed, View());
      es := es + [FlagFailed];
    }

    method ReturnBuffer()
      requires Valid() && pc == SendFailed
      modifies this, k
      ensures Valid() && udpBuffer == old(udpBuffer)
      ensures Step(old(View()), Release) == Some(View()) && pc == Released
    {
      k.ReleaseBuffer(ptr);
      pc := Released;
    }

    method ReportFailure()
      requires Valid() && pc == Released
      modifies this, k
      ensures Valid() && udpBuffer == old(udpBuffer)
      ensures Step(old(View()), FlagFailed) == Some(View()) && pc == Finished
    {
      k.SetCanethError();
      pc := Finished;
    }

    /** do udp_buffer = FreeRTOS_GetUDPPayloadBuffer(...) while (udp_buffer == NULL). */
    method AcquireBuffer(offers: seq<(seq<Event>, BufferId)>) returns (ghost es: seq<Event>, blocked: bool)
      requires Valid() && pc == Acquiring
      modifies this, k
      ensures Valid() && (udpBuffer == old(udpBuffer) || fresh(udpBuffer))
      ensures Run(old(View()), es) == Some(View()) && IsAcquired(Own(es), blocked)
      ensures blocked <==> !Granted(old(k.env), offers)
      ensures pc == (if blocked then Acquiring else Head) && bufferedFrames == old(bufferedFrames)
    {
      ghost var s0 := View();
      es, blocked := [], true;
      var i := 0;
      while i < |offers| && blocked
        invariant i <= |offers| && Valid() && (udpBuffer == old(udpBuffer) || fresh(udpBuffer))
        invariant Trace(IsTaskEvent, s0, es, Own(es), View()) && IsAcquired(Own(es), blocked)
        invariant Granted(old(k.env), offers) == (!blocked || Granted(k.env, offers[i..]))
        invariant pc == (if blocked then Acquiring else Head) && bufferedFrames == old(bufferedFrames)
        decreases |offers| - i
      {
        es := Others(offers[i].0, s0, es, []);
        ghost var s := View();
        blocked := TryAcquire(offers[i].1);
        if !blocked {
          ghost var e := Acquire(ptr, udpBuffer[..]);
          TraceStep(IsTaskEvent, s0, es, [], s, e, View());
          es := es + [e];
        }
        i := i + 1;
      }
    }

    /** One call of FreeRTOS_GetUDPPayloadBuffer. */
    method TryAcquire(b: BufferId) returns (blocked: bool)
      requires Valid() && pc == Acquiring
      modifies this, k
      ensures Valid() && bufferedFrames == old(bufferedFrames)
      ensures blocked <==> !(b in old(k.env.owner) && old(k.env.owner)[b] == InPool)
      ensures if blocked then View() == old(View()) && udpBuffer == old(udpBuffer)
              else fresh(udpBuffer) && pc == Head && Step(old(View()), Acquire(ptr, udpBuffer[..])) == Some(View())
    {
      var p := k.GetBuffer(b);
      blocked := p == null;
      if p != null {
        udpBuffer := p;
        ptr, pc := b, Head;
      }
    }
  }
}
