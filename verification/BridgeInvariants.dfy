/** What every step of the bridge keeps. Each invariant is proved step by step, then
    carried over every run from power-on. */
module BridgeInvariants {
  import opened Words
  import opened Caneth
  import opened Bridge
  import opened Subsequences

  // ---- Frames: what each side leaves alone ----

  lemma TaskFrame(s: State, e: Event, s': State)
    requires Step(s, e) == Some(s') && IsTaskEvent(e)
    ensures s'.env == s.env.(queue := s'.env.queue, queueBit := s'.env.queueBit, flushBit := s'.env.flushBit,
                             canethError := s.env.canethError || e.FlagFailed?, owner := s'.env.owner,
                             attempts := s'.env.attempts, ops := s'.env.ops)
    ensures !e.Receive? ==> s'.env.queue == s.env.queue
    ensures !e.Wake? ==> s'.env.queueBit == s.env.queueBit
    ensures !e.SendTo? ==> s'.env.attempts == s.env.attempts
  {
    if e.Receive? {
    } else if e.Decide? {
    } else if e.SendTo? {
    } else {
    }
  }

  /** What the CAN1 task's steps leave alone. */
  lemma ProducerFrame(v: Env, e: Event, v': Env)
    requires EnvStep(v, e) == Some(v') && IsCan1Event(e)
    ensures v' == v.(messages := v'.messages, producer := v'.producer, queue := v'.queue, queueBit := v'.queueBit,
                     coalesced := v'.coalesced, accepted := v'.accepted,
                     canethError := v.canethError || e.FlagRefused?,
                     discarded := v.discarded + Num(e.CheckNetwork? && !v.netUp))
    ensures !e.Take? ==> v'.messages == v.messages
    ensures !e.Offer? ==> v'.queue == v.queue && v'.accepted == v.accepted
    ensures !e.Notify? ==> v'.queueBit == v.queueBit && v'.coalesced == v.coalesced
  {
    if e.Offer? || e.Notify? {
      QueueingFrame(v, e, v');
    } else {
      MovingFrame(v, e, v');
    }
  }

  lemma QueueingFrame(v: Env, e: Event, v': Env)
    requires EnvStep(v, e) == Some(v') && (e.Offer? || e.Notify?)
    ensures e.Offer? ==> v' == v.(queue := v'.queue, accepted := v'.accepted, producer := v'.producer)
    ensures e.Notify? ==> v' == v.(queueBit := v'.queueBit, coalesced := v'.coalesced, producer := v'.producer)
  {
  }

  lemma MovingFrame(v: Env, e: Event, v': Env)
    requires EnvStep(v, e) == Some(v') && (e.Take? || e.CheckNetwork? || e.FlagRefused? || e.Dispatch?)
    ensures v' == v.(messages := v'.messages, producer := v'.producer,
                     canethError := v.canethError || e.FlagRefused?,
                     discarded := v.discarded + Num(e.CheckNetwork? && !v.netUp))
    ensures !e.Take? ==> v'.messages == v.messages
  {
  }

  /** What the interrupts, the timer, the network and the stack leave alone. */
  lemma OutsideFrame(v: Env, e: Event, v': Env)
    requires EnvStep(v, e) == Some(v') && !IsCan1Event(e)
    ensures v' == v.(netUp := v'.netUp, messages := v'.messages, flushBit := v'.flushBit, owner := v'.owner,
                     can1Error := v'.can1Error, read := v'.read)
    ensures v'.netUp == if e.NetChange? then e.up else v.netUp
    ensures v.can1Error ==> v'.can1Error
    ensures if e.CanRead? then v'.read == v.read + [e.rx] else v'.read == v.read && v'.messages == v.messages
    ensures !e.StackDone? ==> v'.owner == v.owner
  {
    if e.CanRead? {
      ReadFrame(v, e.rx, v');
    } else {
      UnreadFrame(v, e, v');
    }
  }

  lemma ReadFrame(v: Env, rx: RxFrame, v': Env)
    requires EnvStep(v, CanRead(rx)) == Some(v')
    ensures v' == v.(messages := v'.messages, can1Error := v'.can1Error, read := v.read + [rx])
    ensures v.can1Error ==> v'.can1Error
  {
  }

  lemma UnreadFrame(v: Env, e: Event, v': Env)
    requires EnvStep(v, e) == Some(v') && !IsCan1Event(e) && !e.CanRead?
    ensures v' == v.(netUp := v'.netUp, flushBit := v'.flushBit, owner := v'.owner, can1Error := v'.can1Error)
    ensures v'.netUp == if e.NetChange? then e.up else v.netUp
    ensures v.can1Error ==> v'.can1Error
    ensures !e.StackDone? ==> v'.owner == v.owner
  {
  }

  lemma EnvFrame(s: State, e: Event, s': State)
    requires Step(s, e) == Some(s') && !IsTaskEvent(e)
    ensures s'.task == s.task && s'.env.attempts == s.env.attempts && s'.env.ops == s.env.ops
    ensures s'.env.canethError == (s.env.canethError || e.FlagRefused?)
    ensures !e.Offer? ==> s'.env.queue == s.env.queue && s'.env.accepted == s.env.accepted
    ensures s'.env.netUp == if e.NetChange? then e.up else s.env.netUp
  {
    if IsCan1Event(e) { ProducerFrame(s.env, e, s'.env); } else { OutsideFrame(s.env, e, s'.env); }
  }

  lemma EnvHistory(s: State, e: Event, s': State)
    requires Step(s, e) == Some(s') && !IsTaskEvent(e)
    ensures s.env.can1Error ==> s'.env.can1Error
    ensures s'.env.discarded == s.env.discarded + Num(e.CheckNetwork? && !s.env.netUp)
    ensures s'.env.read == s.env.read + if e.CanRead? then [e.rx] else []
  {
    AppendNil(s.env.read);
    if IsCan1Event(e) { ProducerFrame(s.env, e, s'.env); } else { OutsideFrame(s.env, e, s'.env); }
  }

  lemma AppendNil<T>(a: seq<T>)
    ensures a + [] == a
  {
  }

  // ---- Notification accounting ----

  /** Every queued frame is paid for exactly once: by a notification that was merged
      into a pending one, by the pending bit, by the notification the CAN1 task is about
      to send, or by the wake the CAN_ETH task is handling. */
  ghost predicate Accounting(s: State)
  {
    && |s.env.queue| == s.env.coalesced + Num(s.env.queueBit) + Num(s.env.producer.Sent?)
                        + Num(s.task.pc.Woken? && s.task.pc.queue)
    && |s.env.queue| <= QUEUE_LENGTH
    && s.env.coalesced < QUEUE_LENGTH
  }

  lemma AccountingStep(s: State, e: Event, s': State)
    requires Accounting(s) && Batching(s) && Step(s, e) == Some(s')
    ensures Accounting(s')
  {
    if e.Receive? {
      AccountingReceive(s, s');
    } else if IsTaskEvent(e) {
      TaskFrame(s, e, s');
      WokenOnlyByWake(s, e, s');
    } else {
      EnvFrame(s, e, s');
      AccountingEnv(s, e, s');
    }
  }

  lemma WokenOnlyByWake(s: State, e: Event, s': State)
    requires Step(s, e) == Some(s') && IsTaskEvent(e) && !e.Receive?
    ensures e.Wake? ==> s'.task.pc == Woken(s.env.queueBit, s.env.flushBit) && !s'.env.queueBit && !s.task.pc.Woken?
    ensures !e.Wake? ==> !s'.task.pc.Woken? && !s.task.pc.Woken?
  {
    if e.Decide? {
    } else if e.SendTo? {
    } else {
    }
  }

  lemma AccountingEnv(s: State, e: Event, s': State)
    requires Accounting(s) && Step(s, e) == Some(s') && !IsTaskEvent(e)
    ensures Accounting(s')
  {
    if e.Offer? || e.Notify? {
      AccountingProducer(s, e, s');
    } else {
      CountsKept(s, e, s');
    }
  }

  lemma CountsKept(s: State, e: Event, s': State)
    requires Step(s, e) == Some(s') && !IsTaskEvent(e) && !e.Offer? && !e.Notify?
    ensures s'.env.coalesced == s.env.coalesced && s'.env.queueBit == s.env.queueBit
    ensures s'.env.producer.Sent? == s.env.producer.Sent?
  {
    if IsCan1Event(e) { ProducerFrame(s.env, e, s'.env); } else { OutsideFrame(s.env, e, s'.env); }
  }

  lemma AccountingProducer(s: State, e: Event, s': State)
    requires Accounting(s) && Step(s, e) == Some(s') && (e.Offer? || e.Notify?)
    ensures Accounting(s')
  {
    if e.Offer? { AccountingOffer(s, s'); } else { AccountingNotify(s, s'); }
  }

  lemma AccountingOffer(s: State, s': State)
    requires Accounting(s) && Step(s, Offer) == Some(s')
    ensures Accounting(s')
  {
    QueueingFrame(s.env, Offer, s'.env);
  }

  lemma AccountingNotify(s: State, s': State)
    requires Accounting(s) && Step(s, Notify) == Some(s')
    ensures Accounting(s')
  {
    QueueingFrame(s.env, Notify, s'.env);
  }

  /** The wake that is being handled pays for the frame taken: the queue is not empty. */
  lemma AccountingReceive(s: State, s': State)
    requires Accounting(s) && Batching(s) && Step(s, Receive) == Some(s')
    ensures Accounting(s')
    ensures s.task.pc.queue ==> s.env.queue != [] && s'.env.queue == s.env.queue[1..]
  {
  }

  // ---- Batching ----

  ghost predicate Batching(s: State)
  {
    var t := s.task;
    && !t.pc.Crashed?
    && (t.pc.Boot? || t.pc.Acquiring? ==> t.buffered == 0)
    && (t.pc.Head? || t.pc.Woken? ==> t.buffered < MAX_COUNT)
    && (t.pc.Sending? ==>
          && 1 <= t.buffered
          && (t.buffered == MAX_COUNT || t.pc.flush)
          && t.buf[..HEADER_SIZE] == HeaderBytes(t.seqnum, t.buffered))
  }

  lemma BatchingStep(s: State, e: Event, s': State)
    requires Batching(s) && Step(s, e) == Some(s')
    ensures Batching(s')
  {
  }

  // ---- Buffer ownership ----

  predicate HoldsBuffer(pc: Pc)
  {
    pc.Head? || pc.Woken? || pc.Deciding? || pc.Sending? || pc.SendFailed? || pc.Crashed?
  }

  /** Acquisitions alternate with exactly one hand-over or return of the same buffer. */
  ghost predicate Alternates(ops: seq<BufferOp>)
  {
    && (forall i :: 0 <= i < |ops| && i % 2 == 0 ==> ops[i].Acquired?)
    && (forall i :: 0 <= i < |ops| && i % 2 == 1 ==> !ops[i].Acquired? && ops[i].b == ops[i - 1].b)
  }

  ghost predicate Ownership(s: State)
  {
    && (forall b <- s.env.owner :: s.env.owner[b] == InTask <==> HoldsBuffer(s.task.pc) && b == s.task.ptr)
    && (HoldsBuffer(s.task.pc) ==> s.task.ptr in s.env.owner)
    && Alternates(s.env.ops)
    && |s.env.ops| % 2 == Num(HoldsBuffer(s.task.pc))
    && (HoldsBuffer(s.task.pc) ==> s.env.ops[|s.env.ops| - 1] == Acquired(s.task.ptr))
  }

  /** Ownership is about the buffer table, its history, and whether the task holds ptr. */
  lemma OwnershipStep(s: State, e: Event, s': State)
    requires Ownership(s) && Step(s, e) == Some(s')
    ensures Ownership(s') && s'.env.owner.Keys == s.env.owner.Keys
  {
    if e.Acquire? || e.SendTo? || e.Release? {
      OwnershipChange(s, e, s');
    } else if e.StackDone? {
      assert s'.task == s.task && s'.env.ops == s.env.ops;
    } else {
      OwnershipKept(s, e, s');
    }
  }

  lemma OwnershipKept(s: State, e: Event, s': State)
    requires Step(s, e) == Some(s')
    requires !e.Acquire? && !e.SendTo? && !e.Release? && !e.StackDone?
    ensures s'.env.owner == s.env.owner && s'.env.ops == s.env.ops
    ensures s'.task.ptr == s.task.ptr && HoldsBuffer(s'.task.pc) == HoldsBuffer(s.task.pc)
  {
    if IsTaskEvent(e) { OwnershipKeptByTask(s, e, s'); } else { BuffersOnlyByTask(s.env, e, s'.env); }
  }

  lemma BuffersOnlyByTask(v: Env, e: Event, v': Env)
    requires EnvStep(v, e) == Some(v') && !e.StackDone?
    ensures v'.owner == v.owner && v'.ops == v.ops
  {
    if IsCan1Event(e) { ProducerFrame(v, e, v'); } else { OutsideFrame(v, e, v'); }
  }

  lemma OwnershipKeptByTask(s: State, e: Event, s': State)
    requires TaskStep(s.env, s.task, e) == Some(s') && !e.Acquire? && !e.SendTo? && !e.Release?
    ensures s'.env.owner == s.env.owner && s'.env.ops == s.env.ops
    ensures s'.task.ptr == s.task.ptr && HoldsBuffer(s'.task.pc) == HoldsBuffer(s.task.pc)
  {
    if e.Receive? {
    } else if e.Decide? {
    } else {
    }
  }

  lemma OwnershipChange(s: State, e: Event, s': State)
    requires Ownership(s) && Step(s, e) == Some(s') && (e.Acquire? || e.SendTo? || e.Release?)
    ensures Ownership(s') && s'.env.owner.Keys == s.env.owner.Keys
  {
    if e.Acquire? {
      AlternatesPush(s.env.ops, Acquired(e.b));
    } else if e.Release? {
      AlternatesPush(s.env.ops, Returned(s.task.ptr));
    } else if e.ok {
      AlternatesPush(s.env.ops, HandedOver(s.task.ptr));
    }
  }

  lemma AlternatesPush(ops: seq<BufferOp>, op: BufferOp)
    requires Alternates(ops)
    requires if |ops| % 2 == 0 then op.Acquired? else !op.Acquired? && op.b == ops[|ops| - 1].b
    ensures Alternates(ops + [op])
  {
  }

  // ---- The ledger: where each buffer is, and why ----

  /** The task's last operation on buffer b. */
  function LastOp(ops: seq<BufferOp>, b: BufferId): Option<BufferOp>
  {
    if ops == [] then None
    else
      var op := ops[|ops| - 1];
      if op.b == b then Some(op) else LastOp(ops[..|ops| - 1], b)
  }

  /** A buffer is where the task's last operation on it put it; only what was handed over
      may have come back from the stack since. */
  ghost predicate IsWhereLeft(o: Owner, last: Option<BufferOp>)
  {
    match last
    case None => o == InPool
    case Some(op) =>
      match op
      case Acquired(_) => o == InTask
      case Returned(_) => o == InPool
      case HandedOver(_) => o == InStack || o == InPool
  }

  /** The n-th buffer disposed of went to the stack if the n-th send succeeded, and back to
      the pool if it failed. */
  ghost predicate DisposedAsSent(ops: seq<BufferOp>, attempts: seq<Attempt>, n: nat)
    requires n < |ops| / 2 && n < |attempts|
  {
    if attempts[n].ok then ops[2 * n + 1].HandedOver? else ops[2 * n + 1].Returned?
  }

  ghost predicate SendsAndDisposals(ops: seq<BufferOp>, attempts: seq<Attempt>)
  {
    |ops| / 2 <= |attempts| && forall n :: 0 <= n < |ops| / 2 ==> DisposedAsSent(ops, attempts, n)
  }

  ghost predicate Ledger(s: State)
  {
    && (forall b <- s.env.owner :: IsWhereLeft(s.env.owner[b], LastOp(s.env.ops, b)))
    && SendsAndDisposals(s.env.ops, s.env.attempts)
    && |s.env.attempts| == |s.env.ops| / 2 + Num(s.task.pc.SendFailed?)
  }

  lemma LastOpPush(ops: seq<BufferOp>, op: BufferOp, b: BufferId)
    ensures LastOp(ops + [op], b) == if op.b == b then Some(op) else LastOp(ops, b)
  {
    assert (ops + [op])[..|ops|] == ops;
  }

  lemma LedgerStep(s: State, e: Event, s': State)
    requires Ledger(s) && Ownership(s) && Reporting(s) && Step(s, e) == Some(s')
    ensures Ledger(s')
  {
    if e.Acquire? {
      LedgerAcquire(s, e.b, e.contents, s');
    } else if e.SendTo? {
      LedgerSend(s, e.ok, s');
    } else if e.Release? {
      LedgerRelease(s, s');
    } else if e.StackDone? {
      LedgerStackDone(s, e.b, s');
    } else {
      OwnershipKept(s, e, s');
      AttemptsKept(s, e, s');
      SendFailedKept(s, e, s');
    }
  }

  lemma SendFailedKept(s: State, e: Event, s': State)
    requires Step(s, e) == Some(s') && !e.SendTo? && !e.Release?
    ensures s'.task.pc.SendFailed? == s.task.pc.SendFailed?
  {
    if !IsTaskEvent(e) {
      EnvFrame(s, e, s');
    } else if e.Receive? {
    } else if e.Decide? {
    } else {
    }
  }

  /** The map and the operations agree again after one operation. */
  lemma Relabel(owner: map<BufferId, Owner>, ops: seq<BufferOp>, op: BufferOp, o: Owner)
    requires forall b <- owner :: IsWhereLeft(owner[b], LastOp(ops, b))
    requires IsWhereLeft(o, Some(op))
    ensures var owner' := owner[op.b := o];
            forall b <- owner' :: IsWhereLeft(owner'[b], LastOp(ops + [op], b))
  {
    forall b
      ensures LastOp(ops + [op], b) == if op.b == b then Some(op) else LastOp(ops, b)
    {
      LastOpPush(ops, op, b);
    }
  }

  lemma LedgerAcquire(s: State, b: BufferId, contents: Payload, s': State)
    requires Ledger(s) && Ownership(s) && Step(s, Acquire(b, contents)) == Some(s')
    ensures Ledger(s')
  {
    Relabel(s.env.owner, s.env.ops, Acquired(b), InTask);
    Halves(|s.env.ops|);
    MoreOps(s.env.ops, Acquired(b), s.env.attempts);
  }

  lemma LedgerSend(s: State, ok: bool, s': State)
    requires Ledger(s) && Ownership(s) && Step(s, SendTo(ok)) == Some(s')
    ensures Ledger(s')
  {
    SendShape(s, ok, s');
    var a := SentAttempt(s.task, ok);
    MoreAttempts(s.env.ops, s.env.attempts, a);
    if ok {
      Relabel(s.env.owner, s.env.ops, HandedOver(s.task.ptr), InStack);
      Halves(|s.env.ops|);
      MoreDisposals(s.env.ops, HandedOver(s.task.ptr), s.env.attempts + [a]);
    }
  }

  lemma LedgerRelease(s: State, s': State)
    requires Ledger(s) && Ownership(s) && Reporting(s) && Step(s, Release) == Some(s')
    ensures Ledger(s')
  {
    Relabel(s.env.owner, s.env.ops, Returned(s.task.ptr), InPool);
    Halves(|s.env.ops|);
    MoreDisposals(s.env.ops, Returned(s.task.ptr), s.env.attempts);
  }

  lemma LedgerStackDone(s: State, b: BufferId, s': State)
    requires Ledger(s) && Step(s, StackDone(b)) == Some(s')
    ensures Ledger(s')
  {
    EnvFrame(s, StackDone(b), s');
    assert IsWhereLeft(s.env.owner[b], LastOp(s.env.ops, b));
  }

  lemma Halves(n: nat)
    ensures (n + 1) / 2 == n / 2 + n % 2
    ensures n % 2 == 1 ==> n == 2 * (n / 2) + 1
  {
  }

  lemma MoreOps(ops: seq<BufferOp>, op: BufferOp, attempts: seq<Attempt>)
    requires SendsAndDisposals(ops, attempts) && |ops| % 2 == 0
    ensures SendsAndDisposals(ops + [op], attempts)
  {
    forall n | 0 <= n < |ops + [op]| / 2
      ensures DisposedAsSent(ops + [op], attempts, n)
    {
      assert DisposedAsSent(ops, attempts, n);
    }
  }

  lemma MoreAttempts(ops: seq<BufferOp>, attempts: seq<Attempt>, a: Attempt)
    requires SendsAndDisposals(ops, attempts)
    ensures SendsAndDisposals(ops, attempts + [a])
  {
    forall n | 0 <= n < |ops| / 2
      ensures DisposedAsSent(ops, attempts + [a], n)
    {
      assert DisposedAsSent(ops, attempts, n);
    }
  }

  lemma MoreDisposals(ops: seq<BufferOp>, op: BufferOp, attempts: seq<Attempt>)
    requires SendsAndDisposals(ops, attempts) && |ops| % 2 == 1 && |attempts| == |ops| / 2 + 1
    requires if attempts[|attempts| - 1].ok then op.HandedOver? else op.Returned?
    ensures SendsAndDisposals(ops + [op], attempts)
  {
    forall n | 0 <= n < |ops + [op]| / 2
      ensures DisposedAsSent(ops + [op], attempts, n)
    {
      if n < |ops| / 2 { assert DisposedAsSent(ops, attempts, n); }
    }
  }

  // ---- Datagrams on the wire ----

  function Parsed(bytes: seq<u8>): seq<Frame>
  {
    match Decode(bytes) case None => [] case Some(d) => d.frames
  }

  /** The frames of all attempted datagrams, decoded from their bytes, in order. */
  function Attempted(attempts: seq<Attempt>): seq<Frame>
  {
    if attempts == [] then []
    else Attempted(attempts[..|attempts| - 1]) + Parsed(attempts[|attempts| - 1].bytes)
  }

  /** The frames of the datagrams the stack took. */
  function Delivered(attempts: seq<Attempt>): seq<Frame>
  {
    if attempts == [] then []
    else
      var a := attempts[|attempts| - 1];
      Delivered(attempts[..|attempts| - 1]) + if a.ok then Parsed(a.bytes) else []
  }

  /** The n-th datagram handed to FreeRTOS_sendto is well formed, carries n, and is
      full unless a flush asked for it. */
  ghost predicate WellFormed(a: Attempt, n: nat)
  {
    match Decode(a.bytes)
    case None => false
    case Some(d) =>
      && d.seqnum == n % 0x1_0000
      && (|d.frames| == MAX_COUNT || a.flush)
  }

  ghost predicate Numbering(s: State)
  {
    var n := |s.env.attempts|;
    && s.task.seqnum == (n + Num(s.task.pc.Sending?)) % 0x1_0000
    && AllWellFormed(s.env.attempts)
  }

  ghost predicate AllWellFormed(attempts: seq<Attempt>)
  {
    forall i :: 0 <= i < |attempts| ==> WellFormed(attempts[i], i + 1)
  }

  lemma NumberingStep(s: State, e: Event, s': State)
    requires Batching(s) && Numbering(s) && Step(s, e) == Some(s')
    ensures Numbering(s')
  {
    if e.SendTo? {
      NumberingSend(s, e.ok, s');
    } else {
      AttemptsKept(s, e, s');
      NextSeqnum(|s.env.attempts|);
    }
  }

  lemma NextSeqnum(n: nat)
    ensures (n % 0x1_0000 + 1) % 0x1_0000 == (n + 1) % 0x1_0000
  {
  }

  lemma NumberingSend(s: State, ok: bool, s': State)
    requires Batching(s) && Numbering(s) && Step(s, SendTo(ok)) == Some(s')
    ensures Numbering(s')
  {
    SentWellFormed(s, ok);
    SendShape(s, ok, s');
    NumberingPush(s, SentAttempt(s.task, ok), s');
  }

  lemma NumberingPush(s: State, a: Attempt, s': State)
    requires Numbering(s) && s.task.pc.Sending? && WellFormed(a, |s.env.attempts| + 1)
    requires s'.env.attempts == s.env.attempts + [a] && s'.task.seqnum == s.task.seqnum && !s'.task.pc.Sending?
    ensures Numbering(s')
  {
    WellFormedPush(s.env.attempts, a);
  }

  function SentAttempt(t: Task, ok: bool): Attempt
    requires t.pc.Sending?
  {
    Attempt(t.buf[..Offset(t.buffered)], ok, t.pc.flush)
  }

  lemma SentWellFormed(s: State, ok: bool)
    requires Batching(s) && Numbering(s) && s.task.pc.Sending?
    ensures WellFormed(SentAttempt(s.task, ok), |s.env.attempts| + 1)
  {
    DecodeSent(s.task.buf, s.task.seqnum, s.task.buffered);
  }

  lemma WellFormedPush(attempts: seq<Attempt>, a: Attempt)
    requires AllWellFormed(attempts) && WellFormed(a, |attempts| + 1)
    ensures AllWellFormed(attempts + [a])
  {
  }

  lemma AttemptsKept(s: State, e: Event, s': State)
    requires Step(s, e) == Some(s') && !e.SendTo?
    ensures s'.env.attempts == s.env.attempts
    ensures !e.Decide? ==> s'.task.seqnum == s.task.seqnum && s'.task.pc.Sending? == s.task.pc.Sending?
    ensures e.Decide? ==>
              s'.task.seqnum == (s.task.seqnum + Num(s'.task.pc.Sending?)) % 0x1_0000 && !s.task.pc.Sending?
  {
    if IsTaskEvent(e) {
      TaskFrame(s, e, s');
      SeqnumOnlyByDecide(s, e, s');
    } else {
      EnvFrame(s, e, s');
    }
  }

  lemma SeqnumOnlyByDecide(s: State, e: Event, s': State)
    requires Step(s, e) == Some(s') && IsTaskEvent(e) && !e.SendTo?
    ensures !e.Decide? ==> s'.task.seqnum == s.task.seqnum && s'.task.pc.Sending? == s.task.pc.Sending?
    ensures e.Decide? ==>
              s'.task.seqnum == (s.task.seqnum + Num(s'.task.pc.Sending?)) % 0x1_0000 && !s.task.pc.Sending?
  {
    if e.Receive? {
    } else if e.Decide? {
    } else {
    }
  }

  // ---- Conservation ----

  /** Frames batched and not yet passed to FreeRTOS_sendto. */
  function Batch(t: Task): seq<Frame>
  {
    if t.pc.Head? || t.pc.Woken? || t.pc.Deciding? || t.pc.Sending? then Frames(t.buf, t.buffered) else []
  }

  ghost predicate Conservation(s: State)
  {
    Attempted(s.env.attempts) + Batch(s.task) + s.env.queue == s.env.accepted
  }

  lemma BatchReceive(s: State, s': State)
    requires Step(s, Receive) == Some(s') && Batching(s)
    ensures || (Batch(s'.task) == Batch(s.task) && s'.env.queue == s.env.queue)
            || (&& s.env.queue != []
                && s'.env.queue == s.env.queue[1..]
                && Batch(s'.task) == Batch(s.task) + [s.env.queue[0]])
    ensures s'.env == s.env.(queue := s'.env.queue)
  {
    ReceiveShape(s, s');
    var t := s.task;
    if t.pc.queue && s.env.queue != [] {
      FramesWriteFrame(t.buf, t.buffered, s.env.queue[0]);
    }
  }

  lemma ReceiveShape(s: State, s': State)
    requires Step(s, Receive) == Some(s') && Batching(s)
    ensures s.task.pc.Woken? && s'.task.pc.Deciding?
    ensures if s.task.pc.queue && s.env.queue != []
            then && s'.task.buf == WriteFrame(s.task.buf, s.task.buffered, s.env.queue[0])
                 && s'.task.buffered == s.task.buffered + 1
                 && s'.env == s.env.(queue := s.env.queue[1..])
            else s'.task.buf == s.task.buf && s'.task.buffered == s.task.buffered && s'.env == s.env
  {
  }

  lemma BatchDecide(s: State, s': State)
    requires Step(s, Decide) == Some(s')
    ensures Batch(s'.task) == Batch(s.task) && s'.env == s.env
  {
    DecideShape(s, s');
    var t, t' := s.task, s'.task;
    FramesWriteHeader(t.buf, t'.seqnum, t.buffered, t.buffered);
  }

  lemma DecideShape(s: State, s': State)
    requires Step(s, Decide) == Some(s')
    ensures s'.env == s.env && s.task.pc.Deciding? && (s'.task.pc.Head? || s'.task.pc.Sending?)
    ensures s'.task.buffered == s.task.buffered
    ensures s'.task.buf == if s'.task.pc.Sending? then WriteHeader(s.task.buf, s'.task.seqnum, s.task.buffered)
                           else s.task.buf
  {
  }

  lemma BatchSend(s: State, ok: bool, s': State) returns (a: Attempt)
    requires Step(s, SendTo(ok)) == Some(s') && Batching(s)
    ensures Batch(s.task) != [] && Batch(s'.task) == []
    ensures a.ok == ok && Parsed(a.bytes) == Batch(s.task) && s'.env.attempts == s.env.attempts + [a]
    ensures s'.env == s.env.(attempts := s'.env.attempts, owner := s'.env.owner, ops := s'.env.ops)
  {
    a := SentAttempt(s.task, ok);
    SendShape(s, ok, s');
    SentParses(s, ok);
  }

  lemma SendShape(s: State, ok: bool, s': State)
    requires Step(s, SendTo(ok)) == Some(s')
    ensures s.task.pc.Sending? && s'.env.attempts == s.env.attempts + [SentAttempt(s.task, ok)]
    ensures s'.env == s.env.(attempts := s'.env.attempts, owner := s'.env.owner, ops := s'.env.ops)
    ensures s'.task == s.task.(pc := if ok then Finished else SendFailed)
  {
  }

  lemma SentParses(s: State, ok: bool)
    requires Batching(s) && s.task.pc.Sending?
    ensures Parsed(SentAttempt(s.task, ok).bytes) == Batch(s.task) != []
  {
    DecodeSent(s.task.buf, s.task.seqnum, s.task.buffered);
  }

  /** All other steps leave the batch alone. */
  lemma BatchKept(s: State, e: Event, s': State)
    requires Step(s, e) == Some(s') && Batching(s) && !e.Receive? && !e.Decide? && !e.SendTo?
    ensures Batch(s'.task) == Batch(s.task) && s'.env.attempts == s.env.attempts
    ensures !e.Offer? ==> s'.env.queue == s.env.queue && s'.env.accepted == s.env.accepted
  {
    if IsTaskEvent(e) {
      TaskFrame(s, e, s');
      BatchIdle(s, e, s');
    } else {
      EnvFrame(s, e, s');
    }
  }

  lemma BatchIdle(s: State, e: Event, s': State)
    requires Step(s, e) == Some(s') && Batching(s) && IsTaskEvent(e) && !e.Receive? && !e.Decide? && !e.SendTo?
    ensures Batch(s'.task) == Batch(s.task)
  {
    if e.Wake? {
    } else {
      assert Batch(s.task) == [];
      assert e.Acquire? ==> s'.task.buffered == 0;
    }
  }

  lemma AttemptedPush(attempts: seq<Attempt>, a: Attempt)
    ensures Attempted(attempts + [a]) == Attempted(attempts) + Parsed(a.bytes)
    ensures Delivered(attempts + [a]) == Delivered(attempts) + if a.ok then Parsed(a.bytes) else []
  {
    assert (attempts + [a])[..|attempts|] == attempts;
  }

  lemma ConservationStep(s: State, e: Event, s': State)
    requires Batching(s) && Conservation(s) && Step(s, e) == Some(s')
    ensures Conservation(s')
  {
    if e.Receive? {
      BatchReceive(s, s');
      if s'.env.queue != s.env.queue {
        MoveHead(Attempted(s.env.attempts), Batch(s.task), s.env.queue);
      }
    } else if e.Decide? {
      BatchDecide(s, s');
    } else if e.SendTo? {
      ConservationSend(s, e.ok, s');
    } else if e.Offer? {
      ConservationOffer(s, s');
    } else {
      BatchKept(s, e, s');
    }
  }

  lemma ConservationSend(s: State, ok: bool, s': State)
    requires Batching(s) && Conservation(s) && Step(s, SendTo(ok)) == Some(s')
    ensures Conservation(s')
  {
    var a := BatchSend(s, ok, s');
    AttemptedPush(s.env.attempts, a);
    AppendNil(Attempted(s'.env.attempts));
  }

  lemma ConservationOffer(s: State, s': State)
    requires Batching(s) && Conservation(s) && Step(s, Offer) == Some(s')
    ensures Conservation(s')
  {
    BatchKept(s, Offer, s');
    PushBack(Attempted(s.env.attempts) + Batch(s.task), s.env.queue, Convert(s.env.producer.rx));
  }

  lemma MoveHead<T>(a: seq<T>, b: seq<T>, c: seq<T>)
    requires c != []
    ensures a + b + c == a + (b + [c[0]]) + c[1..]
  {
  }

  lemma PushBack<T>(a: seq<T>, b: seq<T>, x: T)
    ensures a + (b + [x]) == a + b + [x]
  {
  }

  // ---- The whole pipeline ----

  /** Until the error flag has been set, a batch whose send failed still counts as held. */
  function Unreported(s: State): seq<Frame>
  {
    if (s.task.pc.SendFailed? || s.task.pc.Released?) && s.env.attempts != []
    then Parsed(s.env.attempts[|s.env.attempts| - 1].bytes)
    else Batch(s.task)
  }

  /** The frame the CAN1 task has received and not yet queued or reported. */
  function InHand(p: Producer): seq<Frame>
  {
    if p.Holding? || p.Offering? || p.Refused? then [Convert(p.rx)] else []
  }

  /** The stations of the pipeline, from the stack back to the message buffer. */
  datatype Stations = Stations(delivered: seq<Frame>, held: seq<Frame>, queue: seq<Frame>,
                               inHand: seq<Frame>, waiting: seq<Frame>)

  function StationsOf(s: State): Stations
  {
    Stations(Delivered(s.env.attempts), Unreported(s), s.env.queue, InHand(s.env.producer), ConvertAll(s.env.messages))
  }

  function Flatten(p: Stations): seq<Frame>
  {
    p.delivered + p.held + p.queue + p.inHand + p.waiting
  }

  /** Every frame handed to the stack or still on its way there, oldest first. */
  function Pipeline(s: State): seq<Frame>
  {
    Flatten(StationsOf(s))
  }

  /** after is before with one non-empty contiguous block m removed. */
  ghost predicate CutAt(before: seq<Frame>, after: seq<Frame>, x: seq<Frame>, m: seq<Frame>, y: seq<Frame>)
  {
    before == x + m + y && after == x + y && m != []
  }

  ghost predicate Cuts(before: seq<Frame>, after: seq<Frame>)
  {
    exists x, m, y :: CutAt(before, after, x, m, y)
  }

  lemma MoveQueueHead(p: Stations)
    requires p.queue != []
    ensures Flatten(p.(held := p.held + [p.queue[0]], queue := p.queue[1..])) == Flatten(p)
  {
    MoveHead(p.delivered, p.held, p.queue);
  }

  lemma MoveDelivered(p: Stations)
    ensures Flatten(p.(delivered := p.delivered + p.held, held := [])) == Flatten(p)
  {
    assert p.delivered + p.held + [] == p.delivered + p.held;
  }

  lemma MoveInHand(p: Stations)
    ensures Flatten(p.(queue := p.queue + p.inHand, inHand := [])) == Flatten(p)
  {
    assert p.delivered + p.held + (p.queue + p.inHand) + [] == p.delivered + p.held + p.queue + p.inHand;
  }

  lemma MoveWaiting(p: Stations)
    requires p.waiting != [] && p.inHand == []
    ensures Flatten(p.(inHand := [p.waiting[0]], waiting := p.waiting[1..])) == Flatten(p)
  {
    MoveHead(p.delivered + p.held + p.queue, [], p.waiting);
  }

  lemma AddWaiting(p: Stations, f: Frame)
    ensures Flatten(p.(waiting := p.waiting + [f])) == Flatten(p) + [f]
  {
    PushBack(p.delivered + p.held + p.queue + p.inHand, p.waiting, f);
  }

  lemma CutHeld(p: Stations)
    requires p.held != []
    ensures Cuts(Flatten(p), Flatten(p.(held := [])))
  {
    var y := p.queue + p.inHand + p.waiting;
    assert Flatten(p) == p.delivered + p.held + y;
    assert Flatten(p.(held := [])) == p.delivered + y;
    assert CutAt(Flatten(p), Flatten(p.(held := [])), p.delivered, p.held, y);
  }

  lemma CutInHand(p: Stations)
    requires p.inHand != []
    ensures Cuts(Flatten(p), Flatten(p.(inHand := [])))
  {
    var x := p.delivered + p.held + p.queue;
    assert x + [] == x;
    assert CutAt(Flatten(p), Flatten(p.(inHand := [])), x, p.inHand, p.waiting);
  }

  lemma {:induction false} ConvertAllAppend(a: seq<RxFrame>, b: seq<RxFrame>)
    ensures ConvertAll(a + b) == ConvertAll(a) + ConvertAll(b)
  {
    if b == [] {
      assert a + b == a;
    } else {
      var n := |b| - 1;
      assert (a + b)[..|a + b| - 1] == a + b[..n];
      ConvertAllAppend(a, b[..n]);
    }
  }

  lemma ConvertAllOne(rx: RxFrame)
    ensures ConvertAll([rx]) == [Convert(rx)]
  {
    assert [rx][..0] == [];
    assert ConvertAll([rx][..0]) == [];
  }

  /** The last attempt is a failure not yet reported exactly while it is being cleaned up. */
  ghost predicate Reporting(s: State)
  {
    var n := |s.env.attempts|;
    s.task.pc.SendFailed? || s.task.pc.Released? ==> n > 0 && !s.env.attempts[n - 1].ok
  }

  lemma ReportingStep(s: State, e: Event, s': State)
    requires Reporting(s) && Step(s, e) == Some(s')
    ensures Reporting(s')
  {
    if e.SendTo? {
      SendShape(s, e.ok, s');
    } else if IsTaskEvent(e) {
      TaskFrame(s, e, s');
      CleaningUp(s, e, s');
    } else {
      EnvFrame(s, e, s');
    }
  }

  /** Only a failed send leads to the clean-up. */
  lemma CleaningUp(s: State, e: Event, s': State)
    requires Step(s, e) == Some(s') && IsTaskEvent(e) && !e.SendTo?
    ensures s'.task.pc.SendFailed? || s'.task.pc.Released? ==> s.task.pc.SendFailed?
  {
    if e.Receive? {
    } else if e.Decide? {
      DecideShape(s, s');
    } else {
    }
  }

  /** What a step does to the pipeline: all but these leave every frame where it is in
      the order; a removal is the frame in hand or the failed batch, and raises a flag or
      is counted. */
  ghost predicate PipelineEffect(s: State, e: Event, s': State)
  {
    match e
    case CanRead(rx) =>
      if |s.env.messages| < s.env.capacity then Pipeline(s') == Pipeline(s) + [Convert(rx)]
      else Pipeline(s') == Pipeline(s) && s'.env.can1Error
    case CheckNetwork =>
      if s.env.netUp then Pipeline(s') == Pipeline(s)
      else s'.env.discarded == s.env.discarded + 1 && DropsInHand(s, s')
    case FlagRefused => s'.env.canethError && DropsInHand(s, s')
    case FlagFailed => s'.env.canethError && DropsFailedBatch(s, s')
    case _ => Pipeline(s') == Pipeline(s)
  }

  /** The frame in the CAN1 task's hands leaves the pipeline; nothing else moves. */
  ghost predicate DropsInHand(s: State, s': State)
  {
    |StationsOf(s).inHand| == 1 && StationsOf(s') == StationsOf(s).(inHand := [])
  }

  /** The frames of the last attempted datagram, which failed, leave the pipeline; nothing
      else moves. */
  ghost predicate DropsFailedBatch(s: State, s': State)
  {
    var n := |s.env.attempts|;
    && n > 0 && !s.env.attempts[n - 1].ok
    && StationsOf(s).held == Parsed(s.env.attempts[n - 1].bytes) != []
    && StationsOf(s') == StationsOf(s).(held := [])
  }

  /** The steps that take frames out of the pipeline. */
  predicate Drops(s: State, e: Event)
  {
    e.FlagRefused? || e.FlagFailed? || (e.CheckNetwork? && !s.env.netUp)
  }

  lemma EffectCuts(s: State, e: Event, s': State)
    requires PipelineEffect(s, e, s') && Drops(s, e)
    ensures Cuts(Pipeline(s), Pipeline(s'))
  {
    if e.FlagFailed? { CutHeld(StationsOf(s)); } else { CutInHand(StationsOf(s)); }
  }

  /** Steps outside the CAN_ETH task that touch neither the frames nor the batch. */
  lemma EnvStations(s: State, e: Event, s': State)
    requires Step(s, e) == Some(s') && !IsTaskEvent(e)
    ensures StationsOf(s') == StationsOf(s).(queue := s'.env.queue, inHand := InHand(s'.env.producer),
                                             waiting := ConvertAll(s'.env.messages))
  {
    EnvFrame(s, e, s');
  }

  lemma EnvPipeline(s: State, e: Event, s': State)
    requires Step(s, e) == Some(s') && !IsTaskEvent(e)
    ensures PipelineEffect(s, e, s')
  {
    if e.CanRead? {
      ReadPipeline(s, e.rx, s');
    } else if e.Take? {
      TakePipeline(s, s');
    } else if e.Offer? {
      OfferPipeline(s, s');
    } else if e.FlagRefused? || e.CheckNetwork? {
      DropPipeline(s, e, s');
    } else {
      QuietPipeline(s, e, s');
    }
  }

  lemma OfferPipeline(s: State, s': State)
    requires Step(s, Offer) == Some(s')
    ensures Pipeline(s') == Pipeline(s)
  {
    EnvStations(s, Offer, s');
    var p := StationsOf(s);
    if |s.env.queue| < QUEUE_LENGTH {
      assert StationsOf(s') == p.(queue := p.queue + p.inHand, inHand := []);
      MoveInHand(p);
    } else {
      assert StationsOf(s') == p;
    }
  }

  lemma DropPipeline(s: State, e: Event, s': State)
    requires Step(s, e) == Some(s') && (e.FlagRefused? || e.CheckNetwork?)
    ensures PipelineEffect(s, e, s')
  {
    EnvStations(s, e, s');
  }

  lemma QuietPipeline(s: State, e: Event, s': State)
    requires Step(s, e) == Some(s') && !IsTaskEvent(e)
    requires !e.CanRead? && !e.Take? && !e.Offer? && !e.FlagRefused? && !e.CheckNetwork?
    ensures StationsOf(s') == StationsOf(s)
  {
    EnvStations(s, e, s');
    QuietProducer(s, e, s');
    assert s'.env.queue == s.env.queue by { EnvFrame(s, e, s'); }
  }

  lemma QuietProducer(s: State, e: Event, s': State)
    requires Step(s, e) == Some(s') && !IsTaskEvent(e)
    requires !e.CanRead? && !e.Take? && !e.Offer? && !e.FlagRefused? && !e.CheckNetwork?
    ensures s'.env.messages == s.env.messages
    ensures InHand(s'.env.producer) == [] == InHand(s.env.producer) || s'.env.producer == s.env.producer
  {
    if IsCan1Event(e) { ProducerFrame(s.env, e, s'.env); } else { OutsideFrame(s.env, e, s'.env); }
  }

  lemma ReadPipeline(s: State, rx: RxFrame, s': State)
    requires Step(s, CanRead(rx)) == Some(s')
    ensures PipelineEffect(s, CanRead(rx), s')
  {
    EnvStations(s, CanRead(rx), s');
    ConvertAllAppend(s.env.messages, [rx]);
    ConvertAllOne(rx);
    AddWaiting(StationsOf(s), Convert(rx));
  }

  lemma TakePipeline(s: State, s': State)
    requires Step(s, Take) == Some(s')
    ensures Pipeline(s') == Pipeline(s)
  {
    EnvStations(s, Take, s');
    var rx := s.env.messages[0];
    assert s.env.messages == [rx] + s'.env.messages;
    ConvertAllAppend([rx], s'.env.messages);
    ConvertAllOne(rx);
    assert ConvertAll(s.env.messages)[1..] == ConvertAll(s'.env.messages);
    MoveWaiting(StationsOf(s));
  }

  /** Steps of the CAN_ETH task leave the producer side alone. */
  lemma TaskStations(s: State, e: Event, s': State)
    requires Step(s, e) == Some(s') && IsTaskEvent(e)
    ensures StationsOf(s') == StationsOf(s).(delivered := Delivered(s'.env.attempts), held := Unreported(s'),
                                             queue := s'.env.queue)
  {
    TaskFrame(s, e, s');
  }

  lemma SendPipeline(s: State, ok: bool, s': State)
    requires Batching(s) && Step(s, SendTo(ok)) == Some(s')
    ensures Pipeline(s') == Pipeline(s)
  {
    var a := BatchSend(s, ok, s');
    SendStations(s, ok, a, s');
    if ok { MoveDelivered(StationsOf(s)); }
  }

  /** A send moves the batch to the stack, or leaves it held until the failure is reported. */
  lemma SendStations(s: State, ok: bool, a: Attempt, s': State)
    requires Step(s, SendTo(ok)) == Some(s') && s'.env.attempts == s.env.attempts + [a]
    requires a.ok == ok && Parsed(a.bytes) == Batch(s.task) && s'.env.queue == s.env.queue
    ensures var p := StationsOf(s);
            StationsOf(s') == if ok then p.(delivered := p.delivered + p.held, held := []) else p
  {
    TaskStations(s, SendTo(ok), s');
    SendShape(s, ok, s');
    AttemptedPush(s.env.attempts, a);
    if !ok { UnreportedFailure(s, a, s'); }
  }

  /** A batch whose send has just failed is still held until it is reported. */
  lemma UnreportedFailure(s: State, a: Attempt, s': State)
    requires s'.task.pc.SendFailed? && s'.env.attempts == s.env.attempts + [a] && !a.ok
    requires s.task.pc.Sending? && Parsed(a.bytes) == Batch(s.task)
    ensures Unreported(s') == Unreported(s) && Delivered(s'.env.attempts) == Delivered(s.env.attempts)
  {
    AttemptedPush(s.env.attempts, a);
    AppendNil(Delivered(s.env.attempts));
    assert s'.env.attempts[|s'.env.attempts| - 1] == a;
  }

  lemma TaskPipeline(s: State, e: Event, s': State)
    requires Batching(s) && Reporting(s) && Numbering(s) && Step(s, e) == Some(s') && IsTaskEvent(e)
    ensures PipelineEffect(s, e, s')
  {
    if e.Receive? {
      ReceivePipeline(s, s');
    } else if e.SendTo? {
      SendPipeline(s, e.ok, s');
    } else if e.FlagFailed? {
      FailPipeline(s, s');
    } else {
      TaskQuietPipeline(s, e, s');
    }
  }

  lemma ReceivePipeline(s: State, s': State)
    requires Batching(s) && Step(s, Receive) == Some(s')
    ensures Pipeline(s') == Pipeline(s)
  {
    TaskStations(s, Receive, s');
    BatchReceive(s, s');
    var p := StationsOf(s);
    if s'.env.queue != s.env.queue {
      assert StationsOf(s') == p.(held := p.held + [p.queue[0]], queue := p.queue[1..]);
      MoveQueueHead(p);
    } else {
      assert StationsOf(s') == p;
    }
  }

  lemma FailPipeline(s: State, s': State)
    requires Batching(s) && Reporting(s) && Numbering(s) && Step(s, FlagFailed) == Some(s')
    ensures PipelineEffect(s, FlagFailed, s')
  {
    TaskStations(s, FlagFailed, s');
    var n := |s.env.attempts|;
    assert WellFormed(s.env.attempts[n - 1], n);
  }

  lemma TaskQuietPipeline(s: State, e: Event, s': State)
    requires Batching(s) && Step(s, e) == Some(s') && IsTaskEvent(e)
    requires !e.Receive? && !e.SendTo? && !e.FlagFailed?
    ensures StationsOf(s') == StationsOf(s)
  {
    TaskStations(s, e, s');
    if e.Decide? { BatchDecide(s, s'); } else { BatchKept(s, e, s'); }
  }

  /** Nothing is reordered, duplicated or invented; nothing is lost without a flag or a
      counted network-down discard; and caneth_error always means a loss. */
  ghost predicate Faithful(s: State)
  {
    var read := ConvertAll(s.env.read);
    && Subseq(Pipeline(s), read)
    && (!s.env.can1Error && !s.env.canethError && s.env.discarded == 0 ==> Pipeline(s) == read)
    && (s.env.canethError ==> |Pipeline(s)| < |read|)
  }

  lemma CutSubseq(before: seq<Frame>, after: seq<Frame>, read: seq<Frame>)
    requires Subseq(before, read) && Cuts(before, after)
    ensures Subseq(after, read) && |after| < |read|
  {
    SubseqLength(before, read);
    var x, m, y :| CutAt(before, after, x, m, y);
    SubseqCut(x, m, y, read);
  }

  /** Flags only ever rise, and rise only in the steps that say so. */
  lemma FlagsStep(s: State, e: Event, s': State)
    requires Step(s, e) == Some(s')
    ensures s.env.can1Error ==> s'.env.can1Error
    ensures s'.env.canethError <==> s.env.canethError || e.FlagRefused? || e.FlagFailed?
    ensures s'.env.discarded == s.env.discarded + Num(e.CheckNetwork? && !s.env.netUp)
    ensures s'.env.read == s.env.read + if e.CanRead? then [e.rx] else []
  {
    if IsTaskEvent(e) {
      TaskFrame(s, e, s');
      AppendNil(s.env.read);
    } else {
      EnvFrame(s, e, s');
      EnvHistory(s, e, s');
    }
  }

  lemma FaithfulStep(s: State, e: Event, s': State)
    requires Faithful(s) && Step(s, e) == Some(s') && PipelineEffect(s, e, s')
    ensures Faithful(s')
  {
    var before, after, read := Pipeline(s), Pipeline(s'), ConvertAll(s.env.read);
    FlagsStep(s, e, s');
    if e.CanRead? {
      ConvertAllAppend(s.env.read, [e.rx]);
      ConvertAllOne(e.rx);
      SubseqPush(before, read, Convert(e.rx));
    } else {
      assert s'.env.read == s.env.read;
      if Drops(s, e) {
        EffectCuts(s, e, s');
        CutSubseq(before, after, read);
      }
    }
  }

  // ---- All of it, over every run ----

  ghost predicate Inv(s: State)
  {
    && Accounting(s) && Batching(s) && Ownership(s) && Ledger(s)
    && Numbering(s) && Conservation(s) && Reporting(s) && Faithful(s)
  }

  lemma InvInit(s: State)
    requires Init(s)
    ensures Inv(s)
  {
  }

  lemma InvStep(s: State, e: Event, s': State)
    requires Inv(s) && Step(s, e) == Some(s')
    ensures Inv(s')
  {
    AccountingStep(s, e, s');
    BatchingStep(s, e, s');
    OwnershipStep(s, e, s');
    LedgerStep(s, e, s');
    NumberingStep(s, e, s');
    ConservationStep(s, e, s');
    ReportingStep(s, e, s');
    if IsTaskEvent(e) { TaskPipeline(s, e, s'); } else { EnvPipeline(s, e, s'); }
    FaithfulStep(s, e, s');
  }

  lemma {:induction false} InvRun(s: State, es: seq<Event>, s': State)
    requires Inv(s) && Run(s, es) == Some(s')
    ensures Inv(s') && s'.env.owner.Keys == s.env.owner.Keys
  {
    if es != [] {
      var m := Run(s, es[..|es| - 1]).value;
      InvRun(s, es[..|es| - 1], m);
      InvStep(m, es[|es| - 1], s');
      OwnershipStep(m, es[|es| - 1], s');
    }
  }
}
