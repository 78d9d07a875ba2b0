/** Where the UDP buffers are in every run from power-on, and why. */
module BufferTheorems {
  import opened Words
  import opened Caneth
  import opened Bridge
  import opened BridgeInvariants
  import opened BridgeTheorems

  lemma LedgerHolds(s0: State, es: seq<Event>, s: State)
    requires Reaches(s0, es, s)
    ensures Ledger(s) && Ownership(s)
  {
    Reachable(s0, es, s);
  }

  /** A buffer is the task's if and only if the task's last operation on it was to acquire
      it; one never acquired, or last returned, is in the pool; and one that is the stack's
      was last handed over to it. */
  lemma BuffersAreWhereLeft(s0: State, es: seq<Event>, s: State, b: BufferId)
    requires Reaches(s0, es, s) && b in s.env.owner
    ensures s.env.owner[b] == InTask <==> LastOp(s.env.ops, b) == Some(Acquired(b))
    ensures LastOp(s.env.ops, b) == None || LastOp(s.env.ops, b) == Some(Returned(b)) ==> s.env.owner[b] == InPool
    ensures s.env.owner[b] == InStack ==> LastOp(s.env.ops, b) == Some(HandedOver(b))
  {
    LedgerHolds(s0, es, s);
    LastOpIsOn(s.env.ops, b);
    assert IsWhereLeft(s.env.owner[b], LastOp(s.env.ops, b));
  }

  lemma {:induction false} LastOpIsOn(ops: seq<BufferOp>, b: BufferId)
    ensures LastOp(ops, b).Some? ==> LastOp(ops, b).value.b == b
  {
    if ops != [] && ops[|ops| - 1].b != b { LastOpIsOn(ops[..|ops| - 1], b); }
  }

  /** The n-th buffer acquired is handed to the stack if the n-th send succeeded, and
      returned to the pool if it failed; and every attempted send but one that has just
      failed has had its buffer disposed of. */
  lemma DisposalsMatchSends(s0: State, es: seq<Event>, s: State, n: nat)
    requires Reaches(s0, es, s) && n < |s.env.attempts|
    ensures s.task.pc.SendFailed? && n == |s.env.attempts| - 1 ==> !s.env.attempts[n].ok
    ensures !(s.task.pc.SendFailed? && n == |s.env.attempts| - 1) ==>
              && 2 * n + 1 < |s.env.ops| && s.env.ops[2 * n].Acquired?
              && s.env.ops[2 * n + 1] == if s.env.attempts[n].ok then HandedOver(s.env.ops[2 * n].b)
                                         else Returned(s.env.ops[2 * n].b)
  {
    LedgerHolds(s0, es, s);
    if s.task.pc.SendFailed? && n == |s.env.attempts| - 1 {
      Reachable(s0, es, s);
    } else {
      assert n < |s.env.ops| / 2;
      assert DisposedAsSent(s.env.ops, s.env.attempts, n);
      Pair(s.env.ops, n);
    }
  }

  lemma Pair(ops: seq<BufferOp>, n: nat)
    requires Alternates(ops) && 2 * n + 1 < |ops|
    ensures ops[2 * n].Acquired? && !ops[2 * n + 1].Acquired? && ops[2 * n + 1].b == ops[2 * n].b
  {
    assert (2 * n) % 2 == 0 && (2 * n + 1) % 2 == 1;
  }

  /** A buffer that has been handed over is the stack's until the stack gives it back,
      whatever else happens: in between, the task neither acquires nor touches it. */
  lemma {:induction false} StackKeepsItsBuffer(s0: State, es: seq<Event>, s: State, b: BufferId,
                                               es': seq<Event>, t: State)
    requires Reaches(s0, es, s) && b in s.env.owner && s.env.owner[b] == InStack
    requires Run(s, es') == Some(t) && StackDone(b) !in es'
    ensures b in t.env.owner && t.env.owner[b] == InStack
    ensures HoldsBuffer(t.task.pc) ==> t.task.ptr != b
  {
    RunAppend(s0, es, es');
    LedgerHolds(s0, es + es', t);
    if es' != [] {
      var m := |es'| - 1;
      var u := Run(s, es'[..m]).value;
      RunAppend(s0, es, es'[..m]);
      StackKeepsItsBuffer(s0, es, s, b, es'[..m], u);
      assert es'[m] in es';
      StaysInStack(u, es'[m], t, b);
    }
  }

  lemma StaysInStack(s: State, e: Event, s': State, b: BufferId)
    requires Step(s, e) == Some(s') && b in s.env.owner && s.env.owner[b] == InStack && e != StackDone(b)
    requires HoldsBuffer(s.task.pc) ==> s.task.ptr != b
    ensures b in s'.env.owner && s'.env.owner[b] == InStack
  {
    if !(e.Acquire? || e.SendTo? || e.Release? || e.StackDone?) { OwnershipKept(s, e, s'); }
  }

  /** A successful send leaves the buffer with the stack. */
  lemma SentBufferIsTheStacks(s: State, t: State)
    requires Step(s, SendTo(true)) == Some(t)
    ensures s.task.ptr in t.env.owner && t.env.owner[s.task.ptr] == InStack
  {
  }

  /** The task can never be left without a buffer for good: from every reachable state in
      which it waits for one, a buffer of the pool, or one the stack has and may give back
      next, puts it at its loop head. */
  lemma NeverOutOfBuffers(s0: State, es: seq<Event>, s: State, contents: Payload)
    returns (b: BufferId, es': seq<Event>, t: State)
    requires Reaches(s0, es, s) && s.task.pc.Acquiring? && s0.env.owner != map[]
    ensures es' == [Acquire(b, contents)] || es' == [StackDone(b)] + [Acquire(b, contents)]
    ensures Run(s, es') == Some(t) && t.task.pc.Head? && t.task.ptr == b && t.env.owner[b] == InTask
  {
    Reachable(s0, es, s);
    assert s.env.owner.Keys == s0.env.owner.Keys != {};
    b :| b in s.env.owner;
    var u := s;
    es' := [];
    if s.env.owner[b] == InStack {
      u := GivenBack(s, b);
      RunOne(s, StackDone(b));
      es' := [StackDone(b)];
    }
    t := TakeFromPool(u, b, contents);
    ExtendOne(s, es', u, Acquire(b, contents), t);
    es' := es' + [Acquire(b, contents)];
  }

  lemma GivenBack(s: State, b: BufferId) returns (u: State)
    requires b in s.env.owner && s.env.owner[b] == InStack
    ensures Step(s, StackDone(b)) == Some(u)
    ensures u == s.(env := s.env.(owner := s.env.owner[b := InPool]))
  {
    u := Step(s, StackDone(b)).value;
  }

  lemma TakeFromPool(u: State, b: BufferId, contents: Payload) returns (t: State)
    requires u.task.pc.Acquiring? && b in u.env.owner && u.env.owner[b] == InPool
    ensures Step(u, Acquire(b, contents)) == Some(t)
    ensures t.task.pc.Head? && t.task.ptr == b && b in t.env.owner && t.env.owner[b] == InTask
  {
    t := Step(u, Acquire(b, contents)).value;
  }
}
