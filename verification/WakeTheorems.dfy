/** What wakes the CAN_ETH task, read off the events alone. */
module WakeTheorems {
  import opened Words
  import opened Caneth
  import opened Bridge
  import opened BridgeInvariants
  import opened BridgeTheorems

  /** The events since the task last woke. */
  function SinceWake(es: seq<Event>): seq<Event>
  {
    if es == [] || es[|es| - 1].Wake? then [] else SinceWake(es[..|es| - 1]) + [es[|es| - 1]]
  }

  /** The events between the last time the task woke and the time before. */
  function BeforeWake(es: seq<Event>): seq<Event>
  {
    if es == [] then []
    else if es[|es| - 1].Wake? then SinceWake(es[..|es| - 1])
    else BeforeWake(es[..|es| - 1])
  }

  /** A pending bit means exactly that its event has happened since the task last woke, be
      it once or more often. */
  lemma {:induction false} PendingBits(s0: State, es: seq<Event>, s: State)
    requires Reaches(s0, es, s)
    ensures s.env.queueBit <==> Notify in SinceWake(es)
    ensures s.env.flushBit <==> FlushTick in SinceWake(es)
  {
    if es != [] {
      var m := |es| - 1;
      var t := Run(s0, es[..m]).value;
      PendingBits(s0, es[..m], t);
      BitsStep(t, es[m], s);
    }
  }

  lemma BitsStep(s: State, e: Event, s': State)
    requires Step(s, e) == Some(s')
    ensures s'.env.queueBit <==> !e.Wake? && (s.env.queueBit || e.Notify?)
    ensures s'.env.flushBit <==> !e.Wake? && (s.env.flushBit || e.FlushTick?)
  {
    if e.FlushTick? || e.Wake? {
    } else if IsTaskEvent(e) {
      TaskFrame(s, e, s');
      FlushBitKept(s, e, s');
    } else if IsCan1Event(e) {
      ProducerFrame(s.env, e, s'.env);
    } else {
      OutsideFrame(s.env, e, s'.env);
      FlushBitKept(s, e, s');
    }
  }

  lemma FlushBitKept(s: State, e: Event, s': State)
    requires Step(s, e) == Some(s') && !IsCan1Event(e) && !e.FlushTick? && !e.Wake?
    ensures s'.env.flushBit == s.env.flushBit
  {
    if e.Receive? {
    } else if e.Decide? {
    } else if e.SendTo? {
    } else {
    }
  }

  /** The events that the task believes in. */
  predicate Believes(pc: Pc, queue: bool, flush: bool)
  {
    && (pc.Woken? ==> pc.queue == queue && pc.flush == flush)
    && (pc.Deciding? || pc.Sending? ==> pc.flush == flush)
  }

  /** What the task takes for a queue event or a flush is one: a frame was announced, or
      the timer fired, between its last two wakes, and it misses neither. */
  lemma {:induction false} WakeTellsTheTruth(s0: State, es: seq<Event>, s: State)
    requires Reaches(s0, es, s)
    ensures Believes(s.task.pc, Notify in BeforeWake(es), FlushTick in BeforeWake(es))
  {
    if es != [] {
      var m := |es| - 1;
      var t := Run(s0, es[..m]).value;
      WakeTellsTheTruth(s0, es[..m], t);
      PendingBits(s0, es[..m], t);
      BeliefStep(t, es[m], s, Notify in BeforeWake(es[..m]), FlushTick in BeforeWake(es[..m]));
    }
  }

  lemma BeliefStep(s: State, e: Event, s': State, queue: bool, flush: bool)
    requires Step(s, e) == Some(s') && Believes(s.task.pc, queue, flush)
    ensures e.Wake? ==> Believes(s'.task.pc, s.env.queueBit, s.env.flushBit)
    ensures !e.Wake? ==> Believes(s'.task.pc, queue, flush)
  {
    if !IsTaskEvent(e) {
      EnvFrame(s, e, s');
    } else if e.Receive? {
    } else if e.Decide? {
    } else {
    }
  }

  /** A datagram of fewer than 16 frames is only sent if the timer has fired between the
      last two wakes. */
  lemma ShortOnlyAfterTick(s0: State, es: seq<Event>, s: State, ok: bool, t: State)
    requires Reaches(s0, es, s) && Step(s, SendTo(ok)) == Some(t)
    ensures |t.env.attempts| == |s.env.attempts| + 1
    ensures |Parsed(t.env.attempts[|s.env.attempts|].bytes)| < 16 ==> FlushTick in BeforeWake(es)
  {
    SendShape(s, ok, t);
    CountsHold(s0, es, s);
    SentParses(s, ok);
    WakeTellsTheTruth(s0, es, s);
  }

  /** Until the network has come up the task has done nothing. */
  lemma {:induction false} WaitsForNetwork(s0: State, es: seq<Event>, s: State)
    requires Reaches(s0, es, s) && !s0.env.netUp && forall e <- es :: e.NetChange? ==> !e.up
    ensures s.task.pc == Boot && s.env.attempts == [] && s.env.ops == [] && !s.env.netUp
  {
    if es != [] {
      var m := |es| - 1;
      var t := Run(s0, es[..m]).value;
      WaitsForNetwork(s0, es[..m], t);
      assert es[m] in es;
      if !IsTaskEvent(es[m]) { EnvFrame(t, es[m], s); }
    }
  }
}
