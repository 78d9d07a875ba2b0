/** Sticky error flags (src/status_flags.c) and the CAN2 task that reports them in every
    heartbeat (src/task_can2.c), with flags being raised by other tasks and interrupts at
    any moment between its statements. */
module HeartbeatTask {
  import opened Words
  import opened Bits
  import opened Canproto

  datatype Flag = Can1 | Can2 | CanEth | Shell

  /** The four flag words; history records every set call, in order. */
  class StatusFlags {
    var can1Error: u32
    var can2Error: u32
    var canethError: u32
    var shellError: u32
    ghost var history: seq<Flag>

    ghost predicate Valid()
      reads this
    {
      && can1Error == Num(Can1 in history)
      && can2Error == Num(Can2 in history)
      && canethError == Num(CanEth in history)
      && shellError == Num(Shell in history)
    }

    constructor ()
      ensures Valid() && history == []
    {
      can1Error, can2Error, canethError, shellError, history := 0, 0, 0, 0, [];
    }

    /** The four status_flags_set functions: Atomic_OR_u32(&word, 1). */
    method Set(f: Flag)
      requires Valid()
      modifies this
      ensures Valid() && history == old(history) + [f]
    {
      match f {
        case Can1 => can1Error := Or(can1Error, 1);
        case Can2 => can2Error := Or(can2Error, 1);
        case CanEth => canethError := Or(canethError, 1);
        case Shell => shellError := Or(shellError, 1);
      }
      history := history + [f];
    }

    /** The four status_flags_get functions: the word, cut to a byte. */
    method Get(f: Flag) returns (v: u8)
      requires Valid()
      ensures v == Num(f in history)
    {
      match f {
        case Can1 => v := can1Error % 0x100;
        case Can2 => v := can2Error % 0x100;
        case CanEth => v := canethError % 0x100;
        case Shell => v := shellError % 0x100;
      }
    }

    /** Other tasks and interrupts report errors. */
    method Interfere(raised: seq<Flag>)
      requires Valid()
      modifies this
      ensures Valid() && history == old(history) + raised
    {
      for i := 0 to |raised|
        invariant Valid() && history == old(history) + raised[..i]
      {
        Set(raised[i]);
        assert raised[..i + 1] == raised[..i] + [raised[i]];
      }
    }
  }

  /** What the rest of the firmware does during one heartbeat period: the flags it raises
      before each of the task's statements, and whether the transmission succeeds. */
  datatype Schedule = Schedule(beforeCan1: seq<Flag>, beforeCan2: seq<Flag>, beforeCaneth: seq<Flag>,
                               beforeShell: seq<Flag>, beforeTx: seq<Flag>, txOk: bool, afterTx: seq<Flag>)

  // ---- Everything raised by the time each flag is sampled, from history h at the start of a pass ----

  function AtCan1(h: seq<Flag>, sch: Schedule): seq<Flag> { h + sch.beforeCan1 }

  function AtCan2(h: seq<Flag>, sch: Schedule): seq<Flag> { AtCan1(h, sch) + sch.beforeCan2 }

  function AtCaneth(h: seq<Flag>, sch: Schedule): seq<Flag> { AtCan2(h, sch) + sch.beforeCaneth }

  function AtShell(h: seq<Flag>, sch: Schedule): seq<Flag> { AtCaneth(h, sch) + sch.beforeShell }

  function AtEnd(h: seq<Flag>, sch: Schedule): seq<Flag>
  {
    AtShell(h, sch) + sch.beforeTx + (if sch.txOk then [] else [Can2]) + sch.afterTx
  }

  /** Everything raised by the end of the given passes. */
  function After(h: seq<Flag>, schedules: seq<Schedule>): seq<Flag>
  {
    if schedules == [] then h
    else AtEnd(After(h, schedules[..|schedules| - 1]), schedules[|schedules| - 1])
  }

  /** The message that tells the truth in pass n, counting from 1: each flag is 1 exactly
      when it has been raised by the time it is sampled. */
  function Truth(n: nat, h: seq<Flag>, sch: Schedule): Heartbeat
  {
    Heartbeat(n % 0x1_0000, Num(Can1 in AtCan1(h, sch)), Num(Can2 in AtCan2(h, sch)),
              Num(CanEth in AtCaneth(h, sch)), Num(Shell in AtShell(h, sch)), 0)
  }

  /** The payloads sent in these passes each decode to the truth. */
  ghost predicate Truthful(h: seq<Flag>, schedules: seq<Schedule>, sent: seq<seq<u8>>)
  {
    && |sent| == |schedules|
    && forall n :: 0 <= n < |sent| ==> Tells(sent[n], Truth(n + 1, After(h, schedules[..n]), schedules[n]))
  }

  ghost predicate Tells(payload: seq<u8>, m: Heartbeat)
  {
    |payload| == 8 && HeartbeatOf(payload) == m
  }

  class Can2Task {
    const flags: StatusFlags
    const msg: HeartbeatStruct
    const data: array<u8>

    constructor (flags: StatusFlags)
      ensures this.flags == flags && fresh(msg) && fresh(data) && data.Length == 8
      ensures msg.Value() == Heartbeat(0, 0, 0, 0, 0, 0)
    {
      this.flags := flags;
      var m := new HeartbeatStruct();
      msg := m;
      data := new u8[8](_ => 0);
      new;
      var ret := msg.Init();
    }

    /** One pass of can2_task's loop; payload is what is passed to HAL_CAN_AddTxMessage. */
    method LoopBody(sch: Schedule, ghost n: nat) returns (payload: seq<u8>)
      requires flags.Valid() && data.Length == 8 && msg.hwTimestamp == 0 && msg.seqnum == n % 0x1_0000
      modifies flags, msg, data
      ensures flags.Valid() && flags.history == AtEnd(old(flags.history), sch)
      ensures msg.hwTimestamp == 0 && msg.seqnum == (n + 1) % 0x1_0000
      ensures Tells(payload, Truth(n + 1, old(flags.history), sch))
    {
      ghost var h := flags.history;
      NextSeqnum(n);
      msg.seqnum := (msg.seqnum + 1) % 0x1_0000;
      SampleFlags(sch, n + 1);
      payload := PackMessage(Truth(n + 1, h, sch));
      Transmit(sch);
    }

    /** HAL_CAN_AddTxMessage, whose failure raises can2_error. */
    method Transmit(sch: Schedule)
      requires flags.Valid()
      modifies flags
      ensures flags.Valid()
      ensures flags.history == old(flags.history) + sch.beforeTx + (if sch.txOk then [] else [Can2]) + sch.afterTx
    {
      flags.Interfere(sch.beforeTx);
      if !sch.txOk {
        flags.Set(Can2);
      }
      flags.Interfere(sch.afterTx);
    }

    /** The four flag reads, in the order they are made. */
    method SampleFlags(sch: Schedule, ghost n: nat)
      requires flags.Valid() && msg.seqnum == n % 0x1_0000 && msg.hwTimestamp == 0
      modifies flags, msg
      ensures flags.Valid() && flags.history == AtShell(old(flags.history), sch)
      ensures msg.Value() == Truth(n, old(flags.history), sch)
    {
      flags.Interfere(sch.beforeCan1);
      msg.can1Error := flags.Get(Can1);
      flags.Interfere(sch.beforeCan2);
      msg.can2Error := flags.Get(Can2);
      flags.Interfere(sch.beforeCaneth);
      msg.canethError := flags.Get(CanEth);
      flags.Interfere(sch.beforeShell);
      msg.shellError := flags.Get(Shell);
    }

    /** canproto_heartbeat_pack into the frame buffer. */
    method PackMessage(ghost m: Heartbeat) returns (payload: seq<u8>)
      requires data.Length == 8 && msg.Value() == m && InRange(m)
      modifies data
      ensures |payload| == 8 && HeartbeatOf(payload) == m
    {
      var ret := HeartbeatPack(data, msg.Value(), 8);
      payload := data[..];
      assert data[..8] == payload;
      HeartbeatPackUnpack(msg.Value());
    }

    /** can2_task: one heartbeat per schedule. */
    method Loop(schedules: seq<Schedule>) returns (sent: seq<seq<u8>>)
      requires flags.Valid() && data.Length == 8 && msg.Value() == Heartbeat(0, 0, 0, 0, 0, 0)
      modifies flags, msg, data
      ensures flags.Valid() && flags.history == After(old(flags.history), schedules)
      ensures Truthful(old(flags.history), schedules, sent)
    {
      ghost var h := flags.history;
      sent := [];
      for i := 0 to |schedules|
        invariant flags.Valid() && msg.hwTimestamp == 0 && msg.seqnum == i % 0x1_0000
        invariant flags.history == After(h, schedules[..i])
        invariant Truthful(h, schedules[..i], sent)
      {
        var payload := LoopBody(schedules[i], i);
        TruthfulNext(h, schedules, i, sent, payload);
        sent := sent + [payload];
      }
      assert schedules[..|schedules|] == schedules;
    }
  }

  lemma NextSeqnum(n: nat)
    ensures (n % 0x1_0000 + 1) % 0x1_0000 == (n + 1) % 0x1_0000
  {
  }

  lemma TruthfulNext(h: seq<Flag>, schedules: seq<Schedule>, i: nat, sent: seq<seq<u8>>, payload: seq<u8>)
    requires i < |schedules| && Truthful(h, schedules[..i], sent)
    requires Tells(payload, Truth(i + 1, After(h, schedules[..i]), schedules[i]))
    ensures Truthful(h, schedules[..i + 1], sent + [payload])
    ensures After(h, schedules[..i + 1]) == AtEnd(After(h, schedules[..i]), schedules[i])
  {
    assert schedules[..i + 1] == schedules[..i] + [schedules[i]];
    TruthfulPush(h, schedules[..i], schedules[i], sent, payload);
  }

  lemma TruthfulPush(h: seq<Flag>, schedules: seq<Schedule>, sch: Schedule, sent: seq<seq<u8>>, payload: seq<u8>)
    requires Truthful(h, schedules, sent) && Tells(payload, Truth(|sent| + 1, After(h, schedules), sch))
    ensures Truthful(h, schedules + [sch], sent + [payload])
    ensures After(h, schedules + [sch]) == AtEnd(After(h, schedules), sch)
  {
    var more, sent' := schedules + [sch], sent + [payload];
    assert more[..|schedules|] == schedules;
    forall n | 0 <= n < |sent'|
      ensures Tells(sent'[n], Truth(n + 1, After(h, more[..n]), more[n]))
    {
      assert more[..n] == schedules[..n];
      assert schedules[..|schedules|] == schedules;
    }
  }

  function FlagOf(b: Heartbeat, f: Flag): nat
  {
    match f case Can1 => b.can1Error case Can2 => b.can2Error case CanEth => b.canethError case Shell => b.shellError
  }

  // ---- The flags from the schedules alone ----

  /** Flag f is raised during one pass: by another task or an interrupt, at any moment, or
      because the transmission fails. */
  predicate RaisedDuring(sch: Schedule, f: Flag)
  {
    || f in sch.beforeCan1 || f in sch.beforeCan2 || f in sch.beforeCaneth
    || f in sch.beforeShell || f in sch.beforeTx || f in sch.afterTx
    || (f == Can2 && !sch.txOk)
  }

  /** Flag f had been raised before the first pass, or in one of the first n. */
  ghost predicate RaisedBefore(h: seq<Flag>, schedules: seq<Schedule>, n: nat, f: Flag)
    requires n <= |schedules|
  {
    f in h || exists k :: 0 <= k < n && RaisedDuring(schedules[k], f)
  }

  /** The history holds what has been raised, and nothing else. */
  lemma {:induction false} AfterHolds(h: seq<Flag>, schedules: seq<Schedule>, n: nat, f: Flag)
    requires n <= |schedules|
    ensures f in After(h, schedules[..n]) <==> RaisedBefore(h, schedules, n, f)
    decreases n
  {
    if n > 0 {
      AfterHolds(h, schedules, n - 1, f);
      assert schedules[..n][..n - 1] == schedules[..n - 1];
      EndHolds(After(h, schedules[..n - 1]), schedules[n - 1], f);
    }
  }

  lemma EndHolds(h: seq<Flag>, sch: Schedule, f: Flag)
    ensures f in AtEnd(h, sch) <==> f in h || RaisedDuring(sch, f)
  {
  }

  /** Each flag of heartbeat n is 1 exactly if it had been raised before the first pass, in
      an earlier pass, or in this pass before its own sampling: can1_error is sampled
      first, then can2_error, caneth_error and shell_error. hw_timestamp is always 0. */
  lemma FlagsOfHeartbeat(h: seq<Flag>, schedules: seq<Schedule>, sent: seq<seq<u8>>, n: nat)
    requires Truthful(h, schedules, sent) && n < |sent|
    ensures |sent[n]| == 8
    ensures var m, sch := HeartbeatOf(sent[n]), schedules[n];
            && m.seqnum == (n + 1) % 0x1_0000 && m.hwTimestamp == 0
            && m.can1Error == Num(RaisedBefore(h, schedules, n, Can1) || Can1 in sch.beforeCan1)
            && m.can2Error == Num(RaisedBefore(h, schedules, n, Can2) || Can2 in sch.beforeCan1 + sch.beforeCan2)
            && m.canethError == Num(RaisedBefore(h, schedules, n, CanEth)
                                    || CanEth in sch.beforeCan1 + sch.beforeCan2 + sch.beforeCaneth)
            && m.shellError == Num(RaisedBefore(h, schedules, n, Shell)
                                   || Shell in sch.beforeCan1 + sch.beforeCan2 + sch.beforeCaneth + sch.beforeShell)
  {
    var past, sch := After(h, schedules[..n]), schedules[n];
    assert Tells(sent[n], Truth(n + 1, past, sch));
    AfterHolds(h, schedules, n, Can1);
    AfterHolds(h, schedules, n, Can2);
    AfterHolds(h, schedules, n, CanEth);
    AfterHolds(h, schedules, n, Shell);
  }

  /** Nothing is hidden and nothing is made up: a flag raised before pass n begins, be it
      before the task starts or in any earlier pass, is 1 in heartbeat n; and a flag that
      is 1 has been raised by the end of the pass. */
  lemma RaisedIsReported(h: seq<Flag>, schedules: seq<Schedule>, sent: seq<seq<u8>>, n: nat, f: Flag)
    requires Truthful(h, schedules, sent) && n < |sent|
    ensures |sent[n]| == 8 && FlagOf(HeartbeatOf(sent[n]), f) <= 1
    ensures RaisedBefore(h, schedules, n, f) ==> FlagOf(HeartbeatOf(sent[n]), f) == 1
    ensures FlagOf(HeartbeatOf(sent[n]), f) == 1 ==> RaisedBefore(h, schedules, n + 1, f)
  {
    FlagsOfHeartbeat(h, schedules, sent, n);
    if RaisedDuring(schedules[n], f) { assert RaisedBefore(h, schedules, n + 1, f); }
    StillRaised(h, schedules, n, n + 1, f);
  }

  lemma StillRaised(h: seq<Flag>, schedules: seq<Schedule>, m: nat, n: nat, f: Flag)
    requires m <= n <= |schedules|
    ensures RaisedBefore(h, schedules, m, f) ==> RaisedBefore(h, schedules, n, f)
  {
  }

  /** A failed transmission shows in every later heartbeat. */
  lemma FailureIsReported(h: seq<Flag>, schedules: seq<Schedule>, sent: seq<seq<u8>>, m: nat, n: nat)
    requires Truthful(h, schedules, sent) && m < n < |sent| && !schedules[m].txOk
    ensures |sent[n]| == 8 && HeartbeatOf(sent[n]).can2Error == 1
  {
    assert RaisedDuring(schedules[m], Can2);
    RaisedIsReported(h, schedules, sent, n, Can2);
  }

  /** Sticky: numbers count up modulo 65536, every flag is in range, and a flag once
      reported is reported for ever, in any run of the task. */
  lemma HeartbeatsNeverRevert(h: seq<Flag>, schedules: seq<Schedule>, sent: seq<seq<u8>>, m: nat, n: nat, f: Flag)
    requires Truthful(h, schedules, sent) && m <= n < |sent|
    ensures |sent[m]| == 8 && |sent[n]| == 8
    ensures InRange(HeartbeatOf(sent[n])) && HeartbeatOf(sent[n]).seqnum == (n + 1) % 0x1_0000
    ensures FlagOf(HeartbeatOf(sent[m]), f) <= FlagOf(HeartbeatOf(sent[n]), f)
  {
    NumberAndRange(h, schedules, sent, m);
    NumberAndRange(h, schedules, sent, n);
    if m < n {
      RaisedIsReported(h, schedules, sent, m, f);
      StillRaised(h, schedules, m + 1, n, f);
      RaisedIsReported(h, schedules, sent, n, f);
    }
  }

  lemma NumberAndRange(h: seq<Flag>, schedules: seq<Schedule>, sent: seq<seq<u8>>, n: nat)
    requires Truthful(h, schedules, sent) && n < |sent|
    ensures |sent[n]| == 8 && InRange(HeartbeatOf(sent[n])) && HeartbeatOf(sent[n]).seqnum == (n + 1) % 0x1_0000
  {
    FlagsOfHeartbeat(h, schedules, sent, n);
  }
}
