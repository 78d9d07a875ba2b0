/** Nothing a UDP buffer held before it was acquired is ever sent: two runs that differ in
    nothing but the old contents of the buffers send the same bytes. */
module StaleBytes {
  import opened Words
  import opened Caneth
  import opened Bridge
  import opened BridgeInvariants

  /** The same step, but for what an acquired buffer holds. */
  ghost predicate SameStep(e: Event, f: Event)
  {
    if e.Acquire? then f.Acquire? && f.b == e.b else f == e
  }

  ghost predicate SameSteps(es: seq<Event>, fs: seq<Event>)
  {
    |fs| == |es| && forall i :: 0 <= i < |es| ==> SameStep(es[i], fs[i])
  }

  /** The bytes of the buffer that have been written since it was acquired: the frames of
      the batch, and the header once it is there. */
  ghost predicate SameWritten(t: Task, u: Task)
  {
    && (t.pc.Head? || t.pc.Woken? || t.pc.Deciding? || t.pc.Sending? ==>
          t.buf[HEADER_SIZE..Offset(t.buffered)] == u.buf[HEADER_SIZE..Offset(t.buffered)])
    && (t.pc.Sending? ==> t.buf[..HEADER_SIZE] == u.buf[..HEADER_SIZE])
  }

  /** States that differ at most in bytes not written since the buffer was acquired. */
  ghost predicate Alike(s: State, r: State)
  {
    r.env == s.env && r.task == s.task.(buf := r.task.buf) && SameWritten(s.task, r.task)
  }

  lemma WriteFrameAlike(a: Payload, b: Payload, k: Count, f: Frame)
    requires k < MAX_COUNT && a[HEADER_SIZE..Offset(k)] == b[HEADER_SIZE..Offset(k)]
    ensures WriteFrame(a, k, f)[HEADER_SIZE..Offset(k + 1)] == WriteFrame(b, k, f)[HEADER_SIZE..Offset(k + 1)]
  {
    FrameAppends(a, k, f);
    FrameAppends(b, k, f);
  }

  lemma FrameAppends(a: Payload, k: Count, f: Frame)
    requires k < MAX_COUNT
    ensures WriteFrame(a, k, f)[HEADER_SIZE..Offset(k + 1)] == a[HEADER_SIZE..Offset(k)] + FrameBytes(f)
  {
  }

  lemma WriteHeaderAlike(a: Payload, b: Payload, seqnum: u16, n: Count)
    requires a[HEADER_SIZE..Offset(n)] == b[HEADER_SIZE..Offset(n)]
    ensures var a', b' := WriteHeader(a, seqnum, n), WriteHeader(b, seqnum, n);
            && a'[..HEADER_SIZE] == b'[..HEADER_SIZE]
            && a'[HEADER_SIZE..Offset(n)] == b'[HEADER_SIZE..Offset(n)]
  {
    HeaderReplaces(a, seqnum, n);
    HeaderReplaces(b, seqnum, n);
  }

  lemma HeaderReplaces(a: Payload, seqnum: u16, n: Count)
    ensures WriteHeader(a, seqnum, n)[..HEADER_SIZE] == HeaderBytes(seqnum, n)
    ensures WriteHeader(a, seqnum, n)[HEADER_SIZE..Offset(n)] == a[HEADER_SIZE..Offset(n)]
  {
  }

  /** What is sent has all been written. */
  lemma SentAlike(a: Payload, b: Payload, n: Count)
    requires a[..HEADER_SIZE] == b[..HEADER_SIZE] && a[HEADER_SIZE..Offset(n)] == b[HEADER_SIZE..Offset(n)]
    ensures a[..Offset(n)] == b[..Offset(n)]
  {
    assert a[..Offset(n)] == a[..HEADER_SIZE] + a[HEADER_SIZE..Offset(n)];
    assert b[..Offset(n)] == b[..HEADER_SIZE] + b[HEADER_SIZE..Offset(n)];
  }

  lemma AlikeStep(s: State, e: Event, s': State, r: State, f: Event) returns (r': State)
    requires Batching(s) && Alike(s, r) && SameStep(e, f) && Step(s, e) == Some(s')
    ensures Step(r, f) == Some(r') && Alike(s', r')
  {
    r' := Step(r, f).value;
    if e.Receive? {
      ReceiveAlike(s, s', r, r');
    } else if e.Decide? {
      DecideAlike(s, s', r, r');
    } else if e.SendTo? {
      SentAlike(s.task.buf, r.task.buf, s.task.buffered);
    } else if IsTaskEvent(e) {
      OtherTaskAlike(s, e, s', r, f, r');
    } else {
      EnvFrame(s, e, s');
      EnvFrame(r, e, r');
    }
  }

  lemma ReceiveAlike(s: State, s': State, r: State, r': State)
    requires Alike(s, r) && Step(s, Receive) == Some(s') && Step(r, Receive) == Some(r')
    ensures Alike(s', r')
  {
    var t := s.task;
    if t.pc.queue && s.env.queue != [] && t.buffered < MAX_COUNT {
      WriteFrameAlike(t.buf, r.task.buf, t.buffered, s.env.queue[0]);
    }
  }

  lemma DecideAlike(s: State, s': State, r: State, r': State)
    requires Alike(s, r) && Step(s, Decide) == Some(s') && Step(r, Decide) == Some(r')
    ensures Alike(s', r')
  {
    WriteHeaderAlike(s.task.buf, r.task.buf, s'.task.seqnum, s.task.buffered);
  }

  lemma OtherTaskAlike(s: State, e: Event, s': State, r: State, f: Event, r': State)
    requires Batching(s) && Alike(s, r) && SameStep(e, f) && IsTaskEvent(e)
    requires !e.Receive? && !e.Decide? && !e.SendTo?
    requires Step(s, e) == Some(s') && Step(r, f) == Some(r')
    ensures Alike(s', r')
  {
  }

  /** No stale bytes, in any run: change at will what every acquired buffer held, and the
      run goes through all the same and leaves the same environment. In particular all
      datagrams passed to the stack are equal byte for byte. */
  lemma {:induction false} NoStaleBytes(s0: State, es: seq<Event>, s: State, r0: State, fs: seq<Event>)
    returns (r: State)
    requires Reaches(s0, es, s) && SameSteps(es, fs)
    requires r0 == s0.(task := s0.task.(buf := r0.task.buf))
    ensures Run(r0, fs) == Some(r)
    ensures Alike(s, r) && r.env.attempts == s.env.attempts
  {
    if es == [] {
      r := r0;
    } else {
      var m := |es| - 1;
      var t := Run(s0, es[..m]).value;
      var u := NoStaleBytes(s0, es[..m], t, r0, fs[..m]);
      InvInit(s0);
      InvRun(s0, es[..m], t);
      r := AlikeStep(t, es[m], s, u, fs[m]);
    }
  }
}
