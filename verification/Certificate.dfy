/** What a heartbeat says about the bridge: the flags it reports are the ones that runs of
    the transition system raise, sampled one after the other while the bridge goes on. */
module Certificate {
  import opened Words
  import opened Bridge
  import opened BridgeInvariants
  import opened BridgeTheorems
  import opened Canproto
  import opened HeartbeatTask

  /** The status flag that a step of the bridge sets, if any. */
  function RaisedBy(s: State, e: Event): seq<Flag>
  {
    if IsFault(e) || (e.CanRead? && |s.env.messages| >= s.env.capacity) then [Can1]
    else if e.FlagRefused? || e.FlagFailed? then [CanEth]
    else []
  }

  /** The status flags set during a run, in order. */
  function Raised(s: State, es: seq<Event>): seq<Flag>
    requires Run(s, es).Some?
  {
    if es == [] then []
    else
      var m := |es| - 1;
      Raised(s, es[..m]) + RaisedBy(Run(s, es[..m]).value, es[m])
  }

  /** Both flags of the bridge are set exactly by the calls that were made. */
  lemma {:induction false} FlagsExact(s0: State, es: seq<Event>, s: State)
    requires Run(s0, es) == Some(s)
    ensures s.env.can1Error <==> s0.env.can1Error || Can1 in Raised(s0, es)
    ensures s.env.canethError <==> s0.env.canethError || CanEth in Raised(s0, es)
  {
    if es != [] {
      var m := |es| - 1;
      var t := Run(s0, es[..m]).value;
      FlagsExact(s0, es[..m], t);
      FlagsStep(t, es[m], s);
      Can1Exact(t, es[m], s);
    }
  }

  lemma Can1Exact(s: State, e: Event, s': State)
    requires Step(s, e) == Some(s')
    ensures s'.env.can1Error <==> s.env.can1Error || Can1 in RaisedBy(s, e)
  {
    if IsTaskEvent(e) {
      TaskFrame(s, e, s');
    } else if IsCan1Event(e) {
      ProducerFrame(s.env, e, s'.env);
    }
  }

  /** The heartbeat task has seen what the bridge has raised: can1_error sampled after the
      run a, caneth_error later, after b as well. Other flags may come from anywhere. */
  ghost predicate Sampled(s0: State, a: seq<Event>, b: seq<Event>, h: seq<Flag>, sch: Schedule)
    requires Run(s0, a).Some? && Run(s0, a + b).Some?
  {
    && (Can1 in AtCan1(h, sch) <==> Can1 in Raised(s0, a))
    && (CanEth in AtCaneth(h, sch) <==> CanEth in Raised(s0, a + b))
  }

  /** A clean heartbeat is a certificate: if can1_error and caneth_error are both 0 in the
      n-th heartbeat of any run of the task, then at the moment can1_error was sampled
      every frame read so far was delivered or still on its way, in order, however the
      bridge went on before caneth_error was sampled. */
  lemma CleanSamplesCertify(s0: State, a: seq<Event>, s1: State, b: seq<Event>, s2: State,
                            h: seq<Flag>, schedules: seq<Schedule>, sent: seq<seq<u8>>, n: nat)
    requires Reaches(s0, a, s1) && s0.env.netUp && NetworkStaysUp(a)
    requires Run(s0, a + b) == Some(s2)
    requires Truthful(h, schedules, sent) && n < |sent|
    requires Sampled(s0, a, b, HeartbeatTask.After(h, schedules[..n]), schedules[n])
    ensures |sent[n]| == 8
    ensures HeartbeatOf(sent[n]).can1Error == 0 && HeartbeatOf(sent[n]).canethError == 0 ==>
              Pipeline(s1) == ConvertAll(Reads(a))
  {
    ReportsBridge(s0, a, s1, b, s2, HeartbeatTask.After(h, schedules[..n]), schedules[n], n + 1);
    assert Tells(sent[n], Truth(n + 1, HeartbeatTask.After(h, schedules[..n]), schedules[n]));
    if !s1.env.can1Error && !s2.env.canethError {
      Sticky(s0, a, s1, b, s2);
      NoSilentLoss(s0, a, s1);
    }
  }

  /** What is sampled is the state of the bridge's flags at the two moments. */
  lemma ReportsBridge(s0: State, a: seq<Event>, s1: State, b: seq<Event>, s2: State,
                      h: seq<Flag>, sch: Schedule, n: nat)
    requires Reaches(s0, a, s1) && Run(s0, a + b) == Some(s2) && Sampled(s0, a, b, h, sch)
    ensures Truth(n, h, sch).can1Error == Num(s1.env.can1Error)
    ensures Truth(n, h, sch).canethError == Num(s2.env.canethError)
  {
    FlagsExact(s0, a, s1);
    FlagsExact(s0, a + b, s2);
  }

  /** A flag clear later was clear before. */
  lemma Sticky(s0: State, a: seq<Event>, s1: State, b: seq<Event>, s2: State)
    requires Run(s0, a) == Some(s1) && Run(s0, a + b) == Some(s2)
    ensures s1.env.canethError ==> s2.env.canethError
  {
    RunAppend(s0, a, b);
    FlagsExact(s1, b, s2);
  }

  /** ...and a flag that is 1 is no false alarm: without controller faults, a frame had
      been lost by the time it was sampled. */
  lemma SetSamplesMeanLoss(s0: State, a: seq<Event>, s1: State, b: seq<Event>, s2: State,
                           h: seq<Flag>, schedules: seq<Schedule>, sent: seq<seq<u8>>, n: nat)
    requires Reaches(s0, a, s1) && Run(s0, a + b) == Some(s2) && forall e <- a :: !IsFault(e)
    requires Truthful(h, schedules, sent) && n < |sent|
    requires Sampled(s0, a, b, HeartbeatTask.After(h, schedules[..n]), schedules[n])
    ensures |sent[n]| == 8
    ensures HeartbeatOf(sent[n]).can1Error == 1 ==> |Pipeline(s1)| < |Reads(a)|
    ensures HeartbeatOf(sent[n]).canethError == 1 ==> |Pipeline(s2)| < |Reads(a + b)|
  {
    ReportsBridge(s0, a, s1, b, s2, HeartbeatTask.After(h, schedules[..n]), schedules[n], n + 1);
    assert Tells(sent[n], Truth(n + 1, HeartbeatTask.After(h, schedules[..n]), schedules[n]));
    Can1ErrorMeansLoss(s0, a, s1);
    ReadIsReads(s0, a, s1);
    CanethErrorMeansLoss(s0, a + b, s2);
  }

  lemma ReadIsReads(s0: State, es: seq<Event>, s: State)
    requires Reaches(s0, es, s)
    ensures s.env.read == Reads(es)
  {
    History(s0, es, s);
  }

  lemma CanethErrorMeansLoss(s0: State, es: seq<Event>, s: State)
    requires Reaches(s0, es, s)
    ensures s.env.canethError ==> |Pipeline(s)| < |Reads(es)|
  {
    Reachable(s0, es, s);
    ReadIsReads(s0, es, s);
  }

  // ---- The heartbeat task and the bridge in one run ----

  /** What the bridge does during one heartbeat period, cut where the heartbeat task makes
      its own statements. */
  datatype Segments = Segments(beforeCan1: seq<Event>, beforeCan2: seq<Event>, beforeCaneth: seq<Event>,
                               beforeShell: seq<Event>, beforeTx: seq<Event>, afterTx: seq<Event>)

  // ---- The bridge's events up to each sampling, from those before the pass ----

  function UpToCan1(past: seq<Event>, g: Segments): seq<Event> { past + g.beforeCan1 }

  function UpToCan2(past: seq<Event>, g: Segments): seq<Event> { UpToCan1(past, g) + g.beforeCan2 }

  function UpToCaneth(past: seq<Event>, g: Segments): seq<Event> { UpToCan2(past, g) + g.beforeCaneth }

  function UpToShell(past: seq<Event>, g: Segments): seq<Event> { UpToCaneth(past, g) + g.beforeShell }

  function UpToTx(past: seq<Event>, g: Segments): seq<Event> { UpToShell(past, g) + g.beforeTx }

  function UpToEnd(past: seq<Event>, g: Segments): seq<Event> { UpToTx(past, g) + g.afterTx }

  /** The bridge's events during all these periods. */
  function EventsOf(gs: seq<Segments>): seq<Event>
  {
    if gs == [] then [] else UpToEnd(EventsOf(gs[..|gs| - 1]), gs[|gs| - 1])
  }

  /** The calls that only the bridge makes. */
  function OfBridge(fs: seq<Flag>): seq<Flag>
  {
    if fs == [] then []
    else
      var f := fs[|fs| - 1];
      OfBridge(fs[..|fs| - 1]) + if f.Can1? || f.CanEth? then [f] else []
  }

  /** While the bridge, after past, does es, the flags raised are fs: the bridge's own calls,
      in order, among whatever the other tasks raise. */
  ghost predicate Matches(s0: State, past: seq<Event>, es: seq<Event>, fs: seq<Flag>)
  {
    && Run(s0, past).Some? && Run(s0, past + es).Some?
    && Raised(s0, past + es) == Raised(s0, past) + OfBridge(fs)
  }

  ghost predicate JointPass(s0: State, past: seq<Event>, g: Segments, sch: Schedule)
  {
    && Matches(s0, past, g.beforeCan1, sch.beforeCan1)
    && Matches(s0, UpToCan1(past, g), g.beforeCan2, sch.beforeCan2)
    && Matches(s0, UpToCan2(past, g), g.beforeCaneth, sch.beforeCaneth)
    && Matches(s0, UpToCaneth(past, g), g.beforeShell, sch.beforeShell)
    && Matches(s0, UpToShell(past, g), g.beforeTx, sch.beforeTx)
    && Matches(s0, UpToTx(past, g), g.afterTx, sch.afterTx)
  }

  /** One run of both, from power-on: bridge and heartbeat task take turns, and the flags
      the task samples are the ones the bridge has raised. */
  ghost predicate Joint(s0: State, gs: seq<Segments>, schedules: seq<Schedule>)
  {
    && |gs| == |schedules|
    && forall n :: 0 <= n < |gs| ==> JointPass(s0, EventsOf(gs[..n]), gs[n], schedules[n])
  }

  lemma {:induction false} OfBridgeAppend(a: seq<Flag>, b: seq<Flag>)
    ensures OfBridge(a + b) == OfBridge(a) + OfBridge(b)
  {
    if b == [] {
      assert a + b == a;
    } else {
      var m := |b| - 1;
      assert (a + b)[..|a + b| - 1] == a + b[..m];
      OfBridgeAppend(a, b[..m]);
    }
  }

  lemma {:induction false} OfBridgeMembers(fs: seq<Flag>)
    ensures Can1 in OfBridge(fs) <==> Can1 in fs
    ensures CanEth in OfBridge(fs) <==> CanEth in fs
  {
    if fs != [] {
      var m := |fs| - 1;
      OfBridgeMembers(fs[..m]);
      assert fs == fs[..m] + [fs[m]];
    }
  }

  /** The flags raised so far are the bridge's, among others. */
  ghost predicate Agree(s0: State, past: seq<Event>, h: seq<Flag>)
  {
    Run(s0, past).Some? && OfBridge(h) == Raised(s0, past)
  }

  lemma AgreeStep(s0: State, past: seq<Event>, h: seq<Flag>, es: seq<Event>, fs: seq<Flag>)
    requires Agree(s0, past, h) && Matches(s0, past, es, fs)
    ensures Agree(s0, past + es, h + fs)
  {
    OfBridgeAppend(h, fs);
  }

  /** Samplings in a joint pass see the bridge's flags as they are at that moment. */
  lemma AgreeAtSamplings(s0: State, past: seq<Event>, h: seq<Flag>, g: Segments, sch: Schedule)
    requires Agree(s0, past, h) && JointPass(s0, past, g, sch)
    ensures Agree(s0, UpToCan1(past, g), AtCan1(h, sch))
    ensures Agree(s0, UpToCaneth(past, g), AtCaneth(h, sch))
    ensures Agree(s0, UpToShell(past, g), AtShell(h, sch))
  {
    AgreeStep(s0, past, h, g.beforeCan1, sch.beforeCan1);
    AgreeStep(s0, UpToCan1(past, g), AtCan1(h, sch), g.beforeCan2, sch.beforeCan2);
    AgreeStep(s0, UpToCan2(past, g), AtCan2(h, sch), g.beforeCaneth, sch.beforeCaneth);
    AgreeStep(s0, UpToCaneth(past, g), AtCaneth(h, sch), g.beforeShell, sch.beforeShell);
  }

  lemma AgreeAtEnd(s0: State, past: seq<Event>, h: seq<Flag>, g: Segments, sch: Schedule)
    requires Agree(s0, UpToShell(past, g), AtShell(h, sch)) && JointPass(s0, past, g, sch)
    ensures Agree(s0, UpToEnd(past, g), AtEnd(h, sch))
  {
    AgreeStep(s0, UpToShell(past, g), AtShell(h, sch), g.beforeTx, sch.beforeTx);
    var own: seq<Flag> := if sch.txOk then [] else [Can2];
    OwnFlagAgrees(s0, UpToTx(past, g), AtShell(h, sch) + sch.beforeTx, own);
    AgreeStep(s0, UpToTx(past, g), AtShell(h, sch) + sch.beforeTx + own, g.afterTx, sch.afterTx);
  }

  /** can2_error is not the bridge's. */
  lemma OwnFlagAgrees(s0: State, past: seq<Event>, h: seq<Flag>, own: seq<Flag>)
    requires Agree(s0, past, h) && (own == [] || own == [Can2])
    ensures Agree(s0, past, h + own)
  {
    OfBridgeAppend(h, own);
    assert own != [] ==> own[..0] == [];
    assert OfBridge(own) == [];
  }

  lemma {:induction false} JointAgrees(s0: State, gs: seq<Segments>, schedules: seq<Schedule>)
    requires Joint(s0, gs, schedules)
    ensures Agree(s0, EventsOf(gs), HeartbeatTask.After([], schedules))
  {
    if gs != [] {
      var m := |gs| - 1;
      JointPrefix(s0, gs, schedules, m);
      JointAgrees(s0, gs[..m], schedules[..m]);
      var past, h := EventsOf(gs[..m]), HeartbeatTask.After([], schedules[..m]);
      AgreeAtSamplings(s0, past, h, gs[m], schedules[m]);
      AgreeAtEnd(s0, past, h, gs[m], schedules[m]);
    }
  }

  lemma JointPrefix(s0: State, gs: seq<Segments>, schedules: seq<Schedule>, n: nat)
    requires Joint(s0, gs, schedules) && n <= |gs|
    ensures Joint(s0, gs[..n], schedules[..n])
  {
    forall k | 0 <= k < n
      ensures JointPass(s0, EventsOf(gs[..n][..k]), gs[..n][k], schedules[..n][k])
    {
      assert gs[..n][..k] == gs[..k];
    }
  }

  /** In a joint run, heartbeat n samples can1_error after one run of the bridge, and
      caneth_error after a longer one. */
  lemma JointSampled(s0: State, gs: seq<Segments>, schedules: seq<Schedule>, n: nat)
    returns (a: seq<Event>, s: State, b: seq<Event>, s': State)
    requires Joint(s0, gs, schedules) && n < |gs|
    ensures a == UpToCan1(EventsOf(gs[..n]), gs[n]) && Run(s0, a) == Some(s)
    ensures a + b == UpToCaneth(EventsOf(gs[..n]), gs[n]) && Run(s0, a + b) == Some(s')
    ensures Sampled(s0, a, b, HeartbeatTask.After([], schedules[..n]), schedules[n])
  {
    var past, g := EventsOf(gs[..n]), gs[n];
    JointSamplings(s0, gs, schedules, n);
    a, b := UpToCan1(past, g), g.beforeCan2 + g.beforeCaneth;
    SameEvents(past, g);
    AgreeSampled(s0, a, b, HeartbeatTask.After([], schedules[..n]), schedules[n]);
    s, s' := Run(s0, a).value, Run(s0, a + b).value;
  }

  lemma SameEvents(past: seq<Event>, g: Segments)
    ensures UpToCan1(past, g) + (g.beforeCan2 + g.beforeCaneth) == UpToCaneth(past, g)
  {
  }

  lemma JointSamplings(s0: State, gs: seq<Segments>, schedules: seq<Schedule>, n: nat)
    requires Joint(s0, gs, schedules) && n < |gs|
    ensures var past, h := EventsOf(gs[..n]), HeartbeatTask.After([], schedules[..n]);
            && Agree(s0, UpToCan1(past, gs[n]), AtCan1(h, schedules[n]))
            && Agree(s0, UpToCaneth(past, gs[n]), AtCaneth(h, schedules[n]))
  {
    JointPrefix(s0, gs, schedules, n);
    JointAgrees(s0, gs[..n], schedules[..n]);
    AgreeAtSamplings(s0, EventsOf(gs[..n]), HeartbeatTask.After([], schedules[..n]), gs[n], schedules[n]);
  }

  lemma AgreeSampled(s0: State, a: seq<Event>, b: seq<Event>, h: seq<Flag>, sch: Schedule)
    requires Agree(s0, a, AtCan1(h, sch)) && Agree(s0, a + b, AtCaneth(h, sch))
    ensures Sampled(s0, a, b, h, sch)
  {
    OfBridgeMembers(AtCan1(h, sch));
    OfBridgeMembers(AtCaneth(h, sch));
  }

  /** A clean heartbeat is a certificate. Bridge and heartbeat task run together from
      power-on, with the network up: if can1_error and caneth_error are both 0 in heartbeat
      n, then at the moment can1_error was sampled every frame read so far was delivered or
      still on its way, in order, whatever the bridge did before caneth_error was sampled. */
  lemma CleanHeartbeatCertifies(s0: State, gs: seq<Segments>, schedules: seq<Schedule>,
                                sent: seq<seq<u8>>, n: nat) returns (a: seq<Event>, s: State)
    requires Init(s0) && Joint(s0, gs, schedules) && Truthful([], schedules, sent) && n < |sent|
    ensures a == UpToCan1(EventsOf(gs[..n]), gs[n]) && Run(s0, a) == Some(s)
    ensures |sent[n]| == 8
    ensures s0.env.netUp && NetworkStaysUp(a)
            && HeartbeatOf(sent[n]).can1Error == 0 && HeartbeatOf(sent[n]).canethError == 0 ==>
              Pipeline(s) == ConvertAll(Reads(a))
  {
    var b, s';
    a, s, b, s' := JointSampled(s0, gs, schedules, n);
    NumberAndRange([], schedules, sent, n);
    if s0.env.netUp && NetworkStaysUp(a) {
      CleanSamplesCertify(s0, a, s, b, s', [], schedules, sent, n);
    }
  }

  /** ...and a flag that is 1 is no false alarm: if the controller has reported no fault,
      a frame had been lost by the time the flag was sampled. */
  lemma SetFlagMeansLoss(s0: State, gs: seq<Segments>, schedules: seq<Schedule>, sent: seq<seq<u8>>, n: nat)
    returns (a: seq<Event>, s: State, a': seq<Event>, s': State)
    requires Init(s0) && Joint(s0, gs, schedules) && Truthful([], schedules, sent) && n < |sent|
    requires forall e <- UpToCan1(EventsOf(gs[..n]), gs[n]) :: !IsFault(e)
    ensures a == UpToCan1(EventsOf(gs[..n]), gs[n]) && Run(s0, a) == Some(s)
    ensures a' == UpToCaneth(EventsOf(gs[..n]), gs[n]) && Run(s0, a') == Some(s')
    ensures |sent[n]| == 8
    ensures HeartbeatOf(sent[n]).can1Error == 1 ==> |Pipeline(s)| < |Reads(a)|
    ensures HeartbeatOf(sent[n]).canethError == 1 ==> |Pipeline(s')| < |Reads(a')|
  {
    var b;
    a, s, b, s' := JointSampled(s0, gs, schedules, n);
    a' := a + b;
    SetSamplesMeanLoss(s0, a, s, b, s', [], schedules, sent, n);
  }
}
