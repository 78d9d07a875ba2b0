/** The bridge's guarantees, each stated over every run from power-on. */
module BridgeTheorems {
  import opened Words
  import opened Caneth
  import opened Bridge
  import opened BridgeInvariants
  import opened Subsequences

  lemma Reachable(s0: State, es: seq<Event>, s: State)
    requires Reaches(s0, es, s)
    ensures Inv(s)
    ensures s.env.owner.Keys == s0.env.owner.Keys
  {
    InvInit(s0);
    InvRun(s0, es, s);
  }

  // ---- What the history fields record, read off the events alone ----

  function Reads(es: seq<Event>): seq<RxFrame>
  {
    if es == [] then []
    else
      var e := es[|es| - 1];
      Reads(es[..|es| - 1]) + if e.CanRead? then [e.rx] else []
  }

  predicate NetworkStaysUp(es: seq<Event>)
  {
    forall e <- es :: e.NetChange? ==> e.up
  }

  lemma {:induction false} History(s0: State, es: seq<Event>, s: State)
    requires Run(s0, es) == Some(s)
    ensures s.env.read == s0.env.read + Reads(es)
    ensures s.env.canethError <==> s0.env.canethError || CanethReported(es)
    ensures s0.env.netUp && NetworkStaysUp(es) ==> s.env.netUp && s.env.discarded == s0.env.discarded
  {
    if es == [] {
    } else {
      var m := |es| - 1;
      var t := Run(s0, es[..m]).value;
      History(s0, es[..m], t);
      FlagsStep(t, es[m], s);
      NetworkStep(t, es[m], s);
      ReportedPush(es[..m], es[m]);
      assert es == es[..m] + [es[m]];
    }
  }

  /** One of the two calls that set the flag has been made. */
  ghost predicate CanethReported(es: seq<Event>) { exists e <- es :: e.FlagRefused? || e.FlagFailed? }

  lemma ReportedPush(es: seq<Event>, e: Event)
    ensures CanethReported(es + [e]) <==> CanethReported(es) || e.FlagRefused? || e.FlagFailed?
    ensures NetworkStaysUp(es + [e]) <==> NetworkStaysUp(es) && (e.NetChange? ==> e.up)
  {
    assert e in es + [e];
    forall f | f in es
      ensures f in es + [e]
    {
    }
  }

  lemma NetworkStep(s: State, e: Event, s': State)
    requires Step(s, e) == Some(s')
    ensures s'.env.netUp == if e.NetChange? then e.up else s.env.netUp
  {
    if IsTaskEvent(e) { TaskFrame(s, e, s'); } else { EnvFrame(s, e, s'); }
  }

  // ---- What a bridge frame says ----

  datatype CanId = Id11(n: nat) | Id29(n: nat)

  /** A CAN message: identifier, remote request, data length code, data bytes. */
  datatype CanMessage = CanMessage(id: CanId, remote: bool, dlc: nat, data: Data8)

  function Meaning(rx: RxFrame): CanMessage
  {
    CanMessage(match rx.ide case StandardId => Id11(rx.stdId) case ExtendedId => Id29(rx.extId),
               rx.remote, rx.dlc, rx.data)
  }

  function LittleEndian(b0: nat, b1: nat, b2: nat, b3: nat): nat
  {
    b0 + 0x100 * b1 + 0x1_0000 * b2 + 0x100_0000 * b3
  }

  /** A receiver's reading of the 15 wire bytes, from the comments of the wire format. It
      refuses a flag that is neither 0 nor 1. */
  function ReadWire(bytes: seq<u8>): Option<CanMessage>
    requires |bytes| == 15
  {
    var id := LittleEndian(bytes[0], bytes[1], bytes[2], bytes[3]);
    if bytes[13] > 1 || bytes[14] > 1 then None
    else Some(CanMessage(if bytes[13] == 1 then Id29(id) else Id11(id), bytes[14] == 1, bytes[4], bytes[5..13]))
  }

  /** The wire form of a received frame means the same message, provided the DLC fits a
      byte; otherwise only the DLC differs. */
  lemma WireMeansTheSame(rx: RxFrame)
    ensures ReadWire(FrameBytes(Convert(rx))) == Some(Meaning(rx).(dlc := rx.dlc % 0x100))
    ensures ReadWire(FrameBytes(Convert(rx))) == Some(Meaning(rx)) <==> rx.dlc < 0x100
  {
    WireBytes(rx);
    IdOnTheWire(Convert(rx).id);
  }

  /** Where each field of a received frame is on the wire. */
  lemma WireBytes(rx: RxFrame)
    ensures var bytes, id := FrameBytes(Convert(rx)), ToLE(Convert(rx).id, 4);
            && bytes[0] == id[0] && bytes[1] == id[1] && bytes[2] == id[2] && bytes[3] == id[3]
            && bytes[4] == rx.dlc % 0x100 && bytes[5..13] == rx.data
            && bytes[13] == Num(rx.ide.ExtendedId?) && bytes[14] == Num(rx.remote)
  {
    assert FrameBytes(Convert(rx))[5..13] == Convert(rx).data;
  }

  lemma IdOnTheWire(id: u32)
    ensures var bs := ToLE(id, 4);
            LittleEndian(bs[0], bs[1], bs[2], bs[3]) == id
  {
    Pow256Values();
    FromToLE(id, 4);
    FromLE4(ToLE(id, 4));
  }

  lemma FromLE4(bs: seq<u8>)
    requires |bs| == 4
    ensures FromLE(bs) == LittleEndian(bs[0], bs[1], bs[2], bs[3])
  {
    var b0: nat, b1: nat, b2: nat, b3: nat := bs[0], bs[1], bs[2], bs[3];
    assert bs[1..][1..] == bs[2..] && bs[2..][1..] == bs[3..] && bs[3..][1..] == [];
    assert FromLE(bs[3..]) == b3;
    assert FromLE(bs[2..]) == b2 + 0x100 * b3;
    assert FromLE(bs[1..]) == b1 + 0x100 * (b2 + 0x100 * b3);
  }

  /** Zero-filled past its data length. */
  predicate ZeroFilled(dlc: nat, data: Data8) { forall i :: dlc <= i < 8 ==> data[i] == 0 }

  /** The wire format's "zero-filled if less than 8 bytes" is not established by the bridge:
      it holds of a frame exactly when the controller already delivered zeros. */
  lemma ZeroFillIsInherited(rx: RxFrame)
    requires rx.dlc < 0x100
    ensures ZeroFilled(Convert(rx).count, Convert(rx).data) <==> ZeroFilled(rx.dlc, rx.data)
  {
  }

  // ---- End to end ----

  /** No silent loss. If the network stayed up and neither error flag is set, the frames
      handed to the stack (decoded from the bytes sent), the batch, the queue, the frame
      in the CAN1 task's hands and the message buffer hold, in order, exactly the frames
      the interrupt read. */
  lemma NoSilentLoss(s0: State, es: seq<Event>, s: State)
    requires Reaches(s0, es, s) && s0.env.netUp && NetworkStaysUp(es)
    requires !s.env.can1Error && !s.env.canethError
    ensures Delivered(s.env.attempts) + Unreported(s) + s.env.queue + InHand(s.env.producer)
            + ConvertAll(s.env.messages) == ConvertAll(Reads(es))
  {
    Reachable(s0, es, s);
    History(s0, es, s);
    assert s.env.read == Reads(es);
  }

  /** The controller itself reports an error, or a read from it fails. */
  predicate IsFault(e: Event) { e.CanReadFailed? || e.CanErrorCallback? }

  /** The flags are exact: without controller faults, both are clear if and only if no
      frame has been lost. */
  lemma FlagsMeanLoss(s0: State, es: seq<Event>, s: State)
    requires Reaches(s0, es, s) && s0.env.netUp && NetworkStaysUp(es)
    requires forall e <- es :: !IsFault(e)
    ensures !s.env.can1Error && !s.env.canethError <==> Pipeline(s) == ConvertAll(Reads(es))
  {
    Reachable(s0, es, s);
    History(s0, es, s);
    assert s.env.read == Reads(es);
    Can1ErrorMeansLoss(s0, es, s);
  }

  lemma {:induction false} Can1ErrorMeansLoss(s0: State, es: seq<Event>, s: State)
    requires Reaches(s0, es, s) && forall e <- es :: !IsFault(e)
    ensures s.env.can1Error ==> |Pipeline(s)| < |s.env.read|
  {
    if es != [] {
      var m := |es| - 1;
      var t := Run(s0, es[..m]).value;
      assert es == es[..m] + [es[m]] && es[m] in es;
      Can1ErrorMeansLoss(s0, es[..m], t);
      Reachable(s0, es[..m], t);
      Effect(t, es[m], s);
      LossGrows(t, es[m], s);
    }
  }

  lemma Effect(s: State, e: Event, s': State)
    requires Inv(s) && Step(s, e) == Some(s')
    ensures PipelineEffect(s, e, s') && |Pipeline(s)| <= |s.env.read|
  {
    SubseqLength(Pipeline(s), ConvertAll(s.env.read));
    if IsTaskEvent(e) { TaskPipeline(s, e, s'); } else { EnvPipeline(s, e, s'); }
  }

  /** Losses are never made good, and a full message buffer is one. */
  lemma LossGrows(s: State, e: Event, s': State)
    requires Step(s, e) == Some(s') && PipelineEffect(s, e, s') && !IsFault(e)
    requires |Pipeline(s)| <= |s.env.read|
    ensures |s.env.read| - |Pipeline(s)| <= |s'.env.read| - |Pipeline(s')|
    ensures s'.env.can1Error ==> s.env.can1Error || |Pipeline(s')| < |s'.env.read|
  {
    FlagsStep(s, e, s');
    if Drops(s, e) {
      EffectCuts(s, e, s');
      var x, m, y :| CutAt(Pipeline(s), Pipeline(s'), x, m, y);
    }
    Can1ErrorStep(s, e, s');
  }

  lemma Can1ErrorStep(s: State, e: Event, s': State)
    requires Step(s, e) == Some(s') && !IsFault(e)
    ensures s'.env.can1Error ==> s.env.can1Error || (e.CanRead? && |s.env.messages| >= s.env.capacity)
  {
    if IsTaskEvent(e) { TaskFrame(s, e, s'); }
  }

  /** In every run, whatever fails, the delivered frames are frames that were read, in
      reading order, none twice. */
  lemma DeliveredInOrder(s0: State, es: seq<Event>, s: State)
    requires Reaches(s0, es, s)
    ensures Subseq(Delivered(s.env.attempts), ConvertAll(Reads(es)))
    ensures exists at: seq<nat> :: Embeds(Delivered(s.env.attempts), ConvertAll(Reads(es)), at)
  {
    Reachable(s0, es, s);
    History(s0, es, s);
    assert s.env.read == Reads(es);
    DeliveredIsPrefix(StationsOf(s), ConvertAll(s.env.read));
    SubseqEmbeds(Delivered(s.env.attempts), ConvertAll(s.env.read));
  }

  lemma DeliveredIsPrefix(p: Stations, read: seq<Frame>)
    requires Subseq(Flatten(p), read)
    ensures Subseq(p.delivered, read)
  {
    var rest := p.held + p.queue + p.inHand + p.waiting;
    assert Flatten(p) == p.delivered + rest;
    AppendNil(Flatten(p));
    AppendNil(p.delivered);
    SubseqCut(p.delivered, rest, [], read);
  }

  /** Conservation: the frames of all attempted datagrams, then the batch, then the
      queue, are exactly the accepted frames. */
  lemma AttemptsConserveFrames(s0: State, es: seq<Event>, s: State)
    requires Reaches(s0, es, s)
    ensures Attempted(s.env.attempts) + Batch(s.task) + s.env.queue == s.env.accepted
  {
    Reachable(s0, es, s);
  }

  /** Whatever else happens meanwhile, the frames of a failed send stay held, in one piece,
      until the failure is reported. */
  lemma {:induction false} FailedBatchHeld(s0: State, es: seq<Event>, s: State, mid: seq<Event>, t: State)
    requires Reaches(s0, es, s) && s.task.pc.Sending?
    requires Run(s, [SendTo(false)] + mid) == Some(t) && forall e <- mid :: !e.FlagFailed?
    ensures Batch(s.task) != [] && StationsOf(t).held == Batch(s.task)
    ensures t.env.attempts == s.env.attempts + [SentAttempt(s.task, false)]
    ensures (t.task.pc.SendFailed? || t.task.pc.Released?) && t.task.buffered == s.task.buffered
  {
    Reachable(s0, es, s);
    SentParses(s, false);
    RunOne(s, SendTo(false));
    RunAppend(s, [SendTo(false)], mid);
    if mid == [] {
      SendShape(s, false, t);
    } else {
      var m := |mid| - 1;
      RunAppend(s, [SendTo(false)], mid[..m]);
      var u := Run(s, [SendTo(false)] + mid[..m]).value;
      FailedBatchHeld(s0, es, s, mid[..m], u);
      assert mid[m] in mid;
      WaitsForReport(u, mid[m], t);
    }
  }

  lemma WaitsForReport(u: State, e: Event, t: State)
    requires Step(u, e) == Some(t) && !e.FlagFailed? && (u.task.pc.SendFailed? || u.task.pc.Released?)
    ensures t.task.pc.SendFailed? || t.task.pc.Released?
    ensures t.env.attempts == u.env.attempts && t.task.buffered == u.task.buffered
  {
    if IsTaskEvent(e) { TaskFrame(u, e, t); } else { EnvFrame(u, e, t); }
  }

  /** A failed send loses its own batch, whole, and nothing else, in every interleaving:
      whatever runs between the failure and its report, the report takes out of the
      pipeline exactly the frames that were in the batch when they were sent, leaves all
      other stations as they are, and raises the flag. */
  lemma FailedSendDropsOneBatch(s0: State, es: seq<Event>, s: State, mid: seq<Event>, t: State, t': State)
    requires Reaches(s0, es, s) && s.task.pc.Sending?
    requires Run(s, [SendTo(false)] + mid) == Some(t) && forall e <- mid :: !e.FlagFailed?
    requires Step(t, FlagFailed) == Some(t')
    ensures StationsOf(t).held == Batch(s.task) != []
    ensures StationsOf(t') == StationsOf(t).(held := [])
    ensures t'.env.canethError && t'.task.buffered == s.task.buffered
    ensures Attempted(t'.env.attempts) == Attempted(s.env.attempts) + Batch(s.task)
    ensures Delivered(t'.env.attempts) == Delivered(s.env.attempts)
  {
    FailedBatchHeld(s0, es, s, mid, t);
    RunAppend(s0, es, [SendTo(false)] + mid);
    ReportDropsBatch(s0, es + ([SendTo(false)] + mid), t, t');
    CountsHold(s0, es, s);
    FailureCounts(s, t'.env.attempts);
  }

  lemma FailureCounts(s: State, attempts: seq<Attempt>)
    requires Batching(s) && s.task.pc.Sending? && attempts == s.env.attempts + [SentAttempt(s.task, false)]
    ensures Attempted(attempts) == Attempted(s.env.attempts) + Batch(s.task)
    ensures Delivered(attempts) == Delivered(s.env.attempts)
  {
    SentParses(s, false);
    FailureDeliversNothing(s.env.attempts, SentAttempt(s.task, false));
  }

  /** In every reachable state in which a failure is about to be reported. */
  lemma ReportDropsBatch(s0: State, es: seq<Event>, s: State, t: State)
    requires Reaches(s0, es, s) && Step(s, FlagFailed) == Some(t)
    ensures DropsFailedBatch(s, t) && t.env.canethError
    ensures t.env.attempts == s.env.attempts && t.task.buffered == s.task.buffered
  {
    Reachable(s0, es, s);
    TaskPipeline(s, FlagFailed, t);
    TaskFrame(s, FlagFailed, t);
  }

  lemma FailureDeliversNothing(attempts: seq<Attempt>, a: Attempt)
    requires !a.ok
    ensures Attempted(attempts + [a]) == Attempted(attempts) + Parsed(a.bytes)
    ensures Delivered(attempts + [a]) == Delivered(attempts)
  {
    AttemptedPush(attempts, a);
    AppendNil(Delivered(attempts));
  }

  // ---- Notifications ----

  /** Exact accounting in every interleaving; hence a queue-event wake always finds a
      frame, and the assertion on buffered_frames never fires. */
  lemma NotificationAccounting(s0: State, es: seq<Event>, s: State)
    requires Reaches(s0, es, s)
    ensures |s.env.queue| == s.env.coalesced + Num(s.env.queueBit) + Num(s.env.producer.Sent?)
                             + Num(s.task.pc.Woken? && s.task.pc.queue)
    ensures s.env.coalesced <= 31
    ensures s.task.pc.Woken? && s.task.pc.queue ==> s.env.queue != [] && s.task.buffered < MAX_COUNT
    ensures s.task.pc != Crashed
  {
    Reachable(s0, es, s);
  }

  /** No queue event pending, and neither side between its queue call and its
      notification call. */
  predicate Settled(s: State)
  {
    !s.env.queueBit && !s.env.producer.Sent? && !(s.task.pc.Woken? && s.task.pc.queue)
  }

  /** When settled, the queue holds exactly one frame per merged notification: it is
      empty if and only if no two notifications were ever merged. */
  lemma SettledLag(s0: State, es: seq<Event>, s: State)
    requires Reaches(s0, es, s) && Settled(s)
    ensures |s.env.queue| == s.env.coalesced <= 31
    ensures s.env.queue == [] <==> s.env.coalesced == 0
  {
    Reachable(s0, es, s);
  }

  /** The lag is permanent: from one settled state to any later one, whatever arrives and
      however often the task is woken, the queue is never shorter. */
  lemma LagNeverShrinks(s0: State, es: seq<Event>, s: State, es': seq<Event>, t: State)
    requires Reaches(s0, es, s) && Settled(s)
    requires Run(s, es') == Some(t) && Settled(t)
    ensures |s.env.queue| <= |t.env.queue|
  {
    SettledLag(s0, es, s);
    RunAppend(s0, es, es');
    SettledLag(s0, es + es', t);
    CoalescedGrows(s, es', t);
  }

  lemma {:induction false} CoalescedGrows(s: State, es: seq<Event>, t: State)
    requires Run(s, es) == Some(t)
    ensures s.env.coalesced <= t.env.coalesced
  {
    if es != [] {
      var m := |es| - 1;
      var u := Run(s, es[..m]).value;
      CoalescedGrows(s, es[..m], u);
      CoalescedStep(u, es[m], t);
    }
  }

  lemma CoalescedStep(s: State, e: Event, s': State)
    requires Step(s, e) == Some(s')
    ensures s.env.coalesced <= s'.env.coalesced
  {
    if IsTaskEvent(e) {
      TaskFrame(s, e, s');
    } else if e.Notify? {
    } else if IsCan1Event(e) {
      ProducerFrame(s.env, e, s'.env);
    } else {
      OutsideFrame(s.env, e, s'.env);
    }
  }

  /** One frame, from the interrupt through the CAN1 task. */
  function FrameThrough(rx: RxFrame): seq<Event>
  {
    [CanRead(rx), Take, CheckNetwork, Offer, Notify, Dispatch]
  }

  /** With the network up, the CAN1 task idle, its message buffer empty and room in the
      queue, a frame is accepted and its notification reaches the CAN_ETH task. */
  lemma FrameAccepted(s: State, rx: RxFrame) returns (t: State)
    requires s.env.netUp && s.env.producer.Waiting? && s.env.messages == [] && s.env.capacity > 0
    requires |s.env.queue| < QUEUE_LENGTH && DispatchOk(rx)
    ensures Run(s, FrameThrough(rx)) == Some(t) && t.task == s.task
    ensures t.env == s.env.(read := s.env.read + [rx], queue := s.env.queue + [Convert(rx)],
                            accepted := s.env.accepted + [Convert(rx)], queueBit := true,
                            coalesced := s.env.coalesced + Num(s.env.queueBit))
  {
    var u := Approach(s, rx);
    var es := [CanRead(rx), Take, CheckNetwork];
    t := Deliver(s, es, u, rx);
    assert es + [Offer] + [Notify] + [Dispatch] == FrameThrough(rx);
  }

  lemma Deliver(s: State, es: seq<Event>, u: State, rx: RxFrame) returns (t: State)
    requires Run(s, es) == Some(u) && u.env.producer == Offering(rx)
    requires |u.env.queue| < QUEUE_LENGTH && DispatchOk(rx)
    ensures Run(s, es + [Offer] + [Notify] + [Dispatch]) == Some(t) && t.task == u.task
    ensures t.env == u.env.(queue := u.env.queue + [Convert(rx)], accepted := u.env.accepted + [Convert(rx)],
                            queueBit := true, coalesced := u.env.coalesced + Num(u.env.queueBit),
                            producer := Waiting)
  {
    var v := QueueAndNotify(s, es, u, rx);
    t := DispatchStep(v);
    ExtendOne(s, es + [Offer] + [Notify], v, Dispatch, t);
  }

  lemma QueueAndNotify(s: State, es: seq<Event>, u: State, rx: RxFrame) returns (t: State)
    requires Run(s, es) == Some(u) && u.env.producer == Offering(rx) && |u.env.queue| < QUEUE_LENGTH
    ensures Run(s, es + [Offer] + [Notify]) == Some(t) && t.task == u.task
    ensures t.env == u.env.(queue := u.env.queue + [Convert(rx)], accepted := u.env.accepted + [Convert(rx)],
                            queueBit := true, coalesced := u.env.coalesced + Num(u.env.queueBit),
                            producer := Dispatching(rx))
  {
    var v := OfferAccepted(u, rx);
    ExtendOne(s, es, u, Offer, v);
    t := NotifyStep(v, rx);
    ExtendOne(s, es + [Offer], v, Notify, t);
  }

  lemma OfferAccepted(u: State, rx: RxFrame) returns (v: State)
    requires u.env.producer == Offering(rx) && |u.env.queue| < QUEUE_LENGTH
    ensures Step(u, Offer) == Some(v)
    ensures v == u.(env := u.env.(queue := u.env.queue + [Convert(rx)],
                                  accepted := u.env.accepted + [Convert(rx)], producer := Sent(rx)))
  {
    v := Step(u, Offer).value;
  }

  lemma NotifyStep(u: State, rx: RxFrame) returns (v: State)
    requires u.env.producer == Sent(rx)
    ensures Step(u, Notify) == Some(v)
    ensures v == u.(env := u.env.(queueBit := true, coalesced := u.env.coalesced + Num(u.env.queueBit),
                                  producer := Dispatching(rx)))
  {
    v := Step(u, Notify).value;
  }

  /** At rest, a frame that is read reaches the CAN1 task's network check. */
  lemma Approach(s: State, rx: RxFrame) returns (t: State)
    requires s.env.producer.Waiting? && s.env.messages == [] && s.env.capacity > 0
    ensures Run(s, [CanRead(rx), Take, CheckNetwork]) == Some(t) && t.task == s.task
    ensures t.env == s.env.(read := s.env.read + [rx],
                            producer := if s.env.netUp then Offering(rx) else Dispatching(rx),
                            discarded := s.env.discarded + Num(!s.env.netUp))
  {
    var t1 := ReadAtRest(s, rx);
    RunOne(s, CanRead(rx));
    var t2 := TakeOnly(t1, rx);
    ExtendOne(s, [CanRead(rx)], t1, Take, t2);
    t := CheckStep(t2, rx);
    ExtendOne(s, [CanRead(rx)] + [Take], t2, CheckNetwork, t);
    assert [CanRead(rx)] + [Take] + [CheckNetwork] == [CanRead(rx), Take, CheckNetwork];
  }

  lemma ReadAtRest(s: State, rx: RxFrame) returns (t: State)
    requires s.env.messages == [] && s.env.capacity > 0
    ensures Step(s, CanRead(rx)) == Some(t)
    ensures t == s.(env := s.env.(read := s.env.read + [rx], messages := [rx]))
  {
    t := Step(s, CanRead(rx)).value;
  }

  lemma CheckStep(s: State, rx: RxFrame) returns (t: State)
    requires s.env.producer == Holding(rx)
    ensures Step(s, CheckNetwork) == Some(t)
    ensures t == s.(env := s.env.(producer := if s.env.netUp then Offering(rx) else Dispatching(rx),
                                  discarded := s.env.discarded + Num(!s.env.netUp)))
  {
    t := Step(s, CheckNetwork).value;
  }

  lemma TakeOnly(s: State, rx: RxFrame) returns (t: State)
    requires s.env.producer.Waiting? && s.env.messages == [rx]
    ensures Step(s, Take) == Some(t)
    ensures t == s.(env := s.env.(messages := [], producer := Holding(rx)))
  {
    t := Step(s, Take).value;
    assert t.env.messages == [];
  }

  /** The bridge never wedges: from every reachable settled state with the network up and
      both tasks at rest, the next frame is accepted, wakes the CAN_ETH task, and that
      wake moves a frame from the queue into the batch. */
  lemma NeverWedges(s0: State, es: seq<Event>, s: State, rx: RxFrame) returns (t: State)
    requires Reaches(s0, es, s) && Settled(s) && DispatchOk(rx)
    requires s.env.netUp && s.env.producer.Waiting? && s.env.messages == [] && s.env.capacity > 0
    requires s.task.pc.Head?
    ensures Run(s, FrameThrough(rx) + [Wake] + [Receive]) == Some(t)
    ensures |t.env.queue| == |s.env.queue| && t.env.accepted == s.env.accepted + [Convert(rx)]
    ensures t.task.buffered == s.task.buffered + 1 && Settled(t)
    ensures Batch(t.task) + t.env.queue == Batch(s.task) + s.env.queue + [Convert(rx)]
  {
    SettledLag(s0, es, s);
    var u := FrameAccepted(s, rx);
    RunAppend(s0, es, FrameThrough(rx));
    CountsHold(s0, es + FrameThrough(rx), u);
    var w := WakeUp(u);
    ExtendOne(s, FrameThrough(rx), u, Wake, w);
    t := WakeTakesFrame(w);
    ExtendOne(s, FrameThrough(rx) + [Wake], w, Receive, t);
    PushBack(Batch(s.task), s.env.queue, Convert(rx));
  }

  lemma WakeUp(u: State) returns (w: State)
    requires Accounting(u) && Batching(u) && u.task.pc.Head? && (u.env.queueBit || u.env.flushBit)
    ensures Step(u, Wake) == Some(w) && Accounting(w) && Batching(w)
    ensures w.task == u.task.(pc := Woken(u.env.queueBit, u.env.flushBit))
    ensures w.env == u.env.(queueBit := false, flushBit := false)
  {
    w := Step(u, Wake).value;
    AccountingStep(u, Wake, w);
    BatchingStep(u, Wake, w);
  }

  lemma CountsHold(s0: State, es: seq<Event>, s: State)
    requires Reaches(s0, es, s)
    ensures Accounting(s) && Batching(s)
  {
    Reachable(s0, es, s);
  }

  /** Handling a queue event moves one frame from the queue to the end of the batch. */
  lemma WakeTakesFrame(w: State) returns (t: State)
    requires Accounting(w) && Batching(w) && w.task.pc.Woken? && w.task.pc.queue
    ensures Step(w, Receive) == Some(t) && |t.env.queue| == |w.env.queue| - 1
    ensures t.env == w.env.(queue := t.env.queue)
    ensures t.task.buffered == w.task.buffered + 1 && t.task.pc == Deciding(w.task.pc.flush)
    ensures Batch(t.task) + t.env.queue == Batch(w.task) + w.env.queue
  {
    t := Step(w, Receive).value;
    BatchReceive(w, t);
    AccountingReceive(w, t);
    MoveFirst(Batch(w.task), w.env.queue);
  }

  lemma MoveFirst<T>(a: seq<T>, b: seq<T>)
    requires b != []
    ensures a + b == (a + [b[0]]) + b[1..]
  {
  }

  /** n frames arrive back to back while the CAN_ETH task is not running. */
  lemma {:induction false} Burst(s: State, rx: RxFrame, n: nat) returns (es: seq<Event>, t: State)
    requires s.env.netUp && s.env.producer.Waiting? && s.env.messages == [] && s.env.capacity > 0
    requires s.env.queue == [] && !s.env.queueBit && s.env.coalesced == 0
    requires 1 <= n <= QUEUE_LENGTH && DispatchOk(rx)
    ensures Run(s, es) == Some(t) && t.task == s.task
    ensures |t.env.queue| == n && t.env.queueBit && t.env.coalesced == n - 1
    ensures t.env.netUp && t.env.producer.Waiting? && t.env.messages == [] && t.env.owner == s.env.owner
    ensures t.env.capacity == s.env.capacity && t.env.flushBit == s.env.flushBit
  {
    if n == 1 {
      es := FrameThrough(rx);
      t := FrameAccepted(s, rx);
    } else {
      var es', u := Burst(s, rx, n - 1);
      t := FrameAccepted(u, rx);
      es := es' + FrameThrough(rx);
      RunAppend(s, es', FrameThrough(rx));
    }
  }

  /** Every lag from 0 to 31 really occurs: a burst of lag + 1 frames before the first
      wake leaves the bridge idle, at its loop head, with that many frames queued. */
  lemma LagOccurs(s0: State, rx: RxFrame, b: BufferId, contents: Payload, lag: nat)
    returns (es: seq<Event>, s: State)
    requires Init(s0) && s0.env.netUp && s0.env.capacity > 0 && b in s0.env.owner && DispatchOk(rx)
    requires lag <= 31
    ensures Reaches(s0, es, s) && Settled(s) && s.task.pc.Head? && s.env.producer.Waiting?
    ensures |s.env.queue| == lag && s.env.messages == []
  {
    var burst, u := Burst(s0, rx, lag + 1);
    var u1 := Step(u, NetworkSeen).value;
    ExtendOne(s0, burst, u, NetworkSeen, u1);
    var u2 := Step(u1, Acquire(b, contents)).value;
    ExtendOne(s0, burst + [NetworkSeen], u1, Acquire(b, contents), u2);
    es := burst + [NetworkSeen] + [Acquire(b, contents)];
    Reachable(s0, es, u2);
    es, s := TakeOne(s0, es, u2);
  }

  lemma DecideKeepsShortBatch(d: State)
    requires d.task.pc == Deciding(false) && d.task.buffered < MAX_COUNT
    ensures Step(d, Decide) == Some(State(d.env, d.task.(pc := Head)))
  {
  }

  /** One pass of the loop over a queue event with no flush and a batch that stays short. */
  lemma TakeOne(s0: State, es: seq<Event>, u: State) returns (es': seq<Event>, t: State)
    requires Run(s0, es) == Some(u) && Accounting(u) && Batching(u)
    requires u.task.pc.Head? && u.task.buffered == 0 && u.env.queueBit && !u.env.flushBit
    ensures Run(s0, es') == Some(t) && t.task.pc.Head? && !t.env.queueBit
    ensures |t.env.queue| == |u.env.queue| - 1
    ensures t.env == u.env.(queue := t.env.queue, queueBit := false)
  {
    var w := WakeUp(u);
    ExtendOne(s0, es, u, Wake, w);
    var d := WakeTakesFrame(w);
    ExtendOne(s0, es + [Wake], w, Receive, d);
    t := State(d.env, d.task.(pc := Head));
    DecideKeepsShortBatch(d);
    ExtendOne(s0, es + [Wake] + [Receive], d, Decide, t);
    es' := es + [Wake] + [Receive] + [Decide];
  }

  // ---- A frame all the way ----

  /** From power-on, any one frame reaches the stack, as read, by the next flush: a run in
      which the only datagram sent holds it and nothing else. */
  lemma SendsOneFrame(s0: State, rx: RxFrame, b: BufferId, contents: Payload) returns (es: seq<Event>, s: State)
    requires Init(s0) && s0.env.netUp && s0.env.capacity > 0 && b in s0.env.owner && DispatchOk(rx)
    ensures Reaches(s0, es, s) && Reads(es) == [rx] && s.task.pc == Finished
    ensures |s.env.attempts| == 1 && s.env.attempts[0].ok
    ensures Decode(s.env.attempts[0].bytes) == Some(Datagram(1, [Convert(rx)]))
  {
    var ready, u := ReadyWithOne(s0, rx, b, contents);
    var sending, d := TakeAndDecide(s0, ready, u);
    es, s := FirstSend(s0, sending, d);
    History(s0, es, s);
  }

  lemma FirstSend(s0: State, es: seq<Event>, d: State) returns (es': seq<Event>, s: State)
    requires Reaches(s0, es, d) && d.task.pc.Sending? && d.env.attempts == []
    ensures Reaches(s0, es', s) && s.task.pc == Finished && s.env.read == d.env.read
    ensures |s.env.attempts| == 1 && s.env.attempts[0].ok
    ensures Decode(s.env.attempts[0].bytes) == Some(Datagram(1, Batch(d.task)))
  {
    s := SendSucceeds(d);
    ExtendOne(s0, es, d, SendTo(true), s);
    es' := es + [SendTo(true)];
    CountsHold(s0, es, d);
    SentParses(d, true);
    FirstNumber(s0, es', s);
  }

  lemma FirstNumber(s0: State, es: seq<Event>, s: State)
    requires Reaches(s0, es, s) && |s.env.attempts| == 1
    ensures var bytes := s.env.attempts[0].bytes;
            Decode(bytes) == Some(Datagram(1, Parsed(bytes)))
  {
    DatagramsWellFormed(s0, es, s, 1);
    DecodeParts(s.env.attempts[0].bytes);
  }

  lemma SendSucceeds(d: State) returns (s: State)
    requires d.task.pc.Sending?
    ensures Step(d, SendTo(true)) == Some(s) && s.task.pc == Finished && s.env.read == d.env.read
    ensures s.env.attempts == d.env.attempts + [SentAttempt(d.task, true)]
  {
    s := Step(d, SendTo(true)).value;
    SendShape(d, true, s);
  }

  lemma DecodeParts(bytes: seq<u8>)
    requires Decode(bytes).Some?
    ensures Decode(bytes) == Some(Datagram(Decode(bytes).value.seqnum, Parsed(bytes)))
  {
  }

  /** The task at its loop head with a buffer, a frame queued, and both events pending. */
  lemma ReadyWithOne(s0: State, rx: RxFrame, b: BufferId, contents: Payload) returns (es: seq<Event>, u: State)
    requires Init(s0) && s0.env.netUp && s0.env.capacity > 0 && b in s0.env.owner && DispatchOk(rx)
    ensures Reaches(s0, es, u) && u.env.read == [rx] && u.env.queue == [Convert(rx)]
    ensures u.task.pc.Head? && u.task.buffered == 0 && u.env.queueBit && u.env.flushBit && u.env.attempts == []
  {
    var start, u2 := FirstBuffer(s0, b, contents);
    var u3 := FrameAccepted(u2, rx);
    Extend(s0, start, u2, FrameThrough(rx), u3);
    es, u := start + FrameThrough(rx) + [FlushTick], State(u3.env.(flushBit := true), u3.task);
    ExtendOne(s0, start + FrameThrough(rx), u3, FlushTick, u);
  }

  lemma FirstBuffer(s0: State, b: BufferId, contents: Payload) returns (es: seq<Event>, u: State)
    requires Init(s0) && s0.env.netUp && b in s0.env.owner
    ensures Reaches(s0, es, u) && u.task.pc.Head? && u.task.buffered == 0
    ensures u.env == s0.env.(owner := u.env.owner, ops := u.env.ops)
  {
    var u1 := Step(s0, NetworkSeen).value;
    RunOne(s0, NetworkSeen);
    u := Step(u1, Acquire(b, contents)).value;
    es := [NetworkSeen] + [Acquire(b, contents)];
    ExtendOne(s0, [NetworkSeen], u1, Acquire(b, contents), u);
  }

  /** One pass over both events, up to the send. */
  lemma TakeAndDecide(s0: State, es: seq<Event>, u: State) returns (es': seq<Event>, t: State)
    requires Reaches(s0, es, u) && u.task.pc.Head? && u.task.buffered == 0
    requires u.env.queueBit && u.env.flushBit && |u.env.queue| == 1
    ensures Reaches(s0, es', t) && t.task.pc.Sending?
    ensures Batch(t.task) == u.env.queue && t.env.attempts == u.env.attempts && t.env.read == u.env.read
  {
    CountsHold(s0, es, u);
    var w := WakeBoth(u);
    ExtendOne(s0, es, u, Wake, w);
    var d := WakeTakesFrame(w);
    ExtendOne(s0, es + [Wake], w, Receive, d);
    t := FlushDecides(d);
    ExtendOne(s0, es + [Wake] + [Receive], d, Decide, t);
    es' := es + [Wake] + [Receive] + [Decide];
    OnlyFrame(Batch(t.task), d.env.queue, u.env.queue);
  }

  lemma OnlyFrame<T>(a: seq<T>, b: seq<T>, q: seq<T>)
    requires a + b == [] + q && b == []
    ensures a == q
  {
    AppendNil(a);
  }

  lemma WakeBoth(u: State) returns (w: State)
    requires Accounting(u) && Batching(u) && u.task.pc.Head? && u.task.buffered == 0
    requires u.env.queueBit && u.env.flushBit
    ensures Step(u, Wake) == Some(w) && Accounting(w) && Batching(w)
    ensures w.task.pc == Woken(true, true) && w.task.buffered == 0 && Batch(w.task) == []
    ensures w.env == u.env.(queueBit := false, flushBit := false)
  {
    w := WakeUp(u);
  }

  lemma FlushDecides(d: State) returns (t: State)
    requires d.task.pc == Deciding(true) && d.task.buffered > 0
    ensures Step(d, Decide) == Some(t) && t.task.pc.Sending? && t.env == d.env && Batch(t.task) == Batch(d.task)
  {
    t := Step(d, Decide).value;
    BatchDecide(d, t);
  }

  /** This frame of length 0 is sent with a stale byte: in some run a datagram whose
      one frame is not zero-filled past its data length is handed to the stack. */
  lemma NotAlwaysZeroFilled(s0: State, b: BufferId, contents: Payload) returns (es: seq<Event>, s: State)
    requires Init(s0) && s0.env.netUp && s0.env.capacity > 0 && b in s0.env.owner
    ensures Reaches(s0, es, s)
    ensures |s.env.attempts| == 1 && s.env.attempts[0].ok && |Parsed(s.env.attempts[0].bytes)| == 1
    ensures var f := Parsed(s.env.attempts[0].bytes)[0];
            f.count == 0 && !ZeroFilled(f.count, f.data)
  {
    var rx := RxFrame(1, 0, StandardId, false, 0, [7, 0, 0, 0, 0, 0, 0, 0]);
    es, s := SendsOneFrame(s0, rx, b, contents);
    StaleFrame(rx);
  }

  lemma StaleFrame(rx: RxFrame)
    requires rx == RxFrame(1, 0, StandardId, false, 0, [7, 0, 0, 0, 0, 0, 0, 0])
    ensures Convert(rx).count == 0 && !ZeroFilled(Convert(rx).count, Convert(rx).data)
  {
    assert Convert(rx).data[0] == 7;
  }

  // ---- Buffers ----

  /** The task only ever writes, sends or releases a buffer it owns. */
  lemma WritesOnlyOwnedBuffers(s0: State, es: seq<Event>, s: State, e: Event)
    requires Reaches(s0, es, s) && Step(s, e).Some?
    requires e.Receive? || e.Decide? || e.SendTo? || e.Release?
    ensures s.task.ptr in s.env.owner && s.env.owner[s.task.ptr] == InTask
  {
    Reachable(s0, es, s);
  }

  /** At the loop head the task owns exactly one buffer; outside the two buffer waits and
      the clean-up it never owns another; and buffers neither appear nor vanish. */
  lemma OneBufferHeld(s0: State, es: seq<Event>, s: State)
    requires Reaches(s0, es, s)
    ensures (set b | b in s.env.owner && s.env.owner[b] == InTask)
            == if HoldsBuffer(s.task.pc) then {s.task.ptr} else {}
    ensures s.task.pc.Head? ==> HoldsBuffer(s.task.pc)
    ensures (set b | b in s.env.owner && s.env.owner[b] == InPool)
            + (set b | b in s.env.owner && s.env.owner[b] == InStack)
            + (set b | b in s.env.owner && s.env.owner[b] == InTask) == s0.env.owner.Keys
  {
    Reachable(s0, es, s);
  }

  /** Each acquired buffer is handed to the stack or returned to the pool exactly once,
      before the next is acquired. */
  lemma EachBufferDisposedOnce(s0: State, es: seq<Event>, s: State, i: nat)
    requires Reaches(s0, es, s) && i < |s.env.ops| && s.env.ops[i].Acquired?
    ensures i == |s.env.ops| - 1 ==> HoldsBuffer(s.task.pc) && s.env.ops[i].b == s.task.ptr
    ensures i < |s.env.ops| - 1 ==> !s.env.ops[i + 1].Acquired? && s.env.ops[i + 1].b == s.env.ops[i].b
    ensures i < |s.env.ops| - 2 ==> s.env.ops[i + 2].Acquired?
  {
    OwnershipHolds(s0, es, s);
    NextOp(s.env.ops, i);
  }

  lemma OwnershipHolds(s0: State, es: seq<Event>, s: State)
    requires Reaches(s0, es, s)
    ensures Ownership(s)
  {
    Reachable(s0, es, s);
  }

  lemma NextOp(ops: seq<BufferOp>, i: nat)
    requires Alternates(ops) && i < |ops| && ops[i].Acquired?
    ensures i % 2 == 0
    ensures i < |ops| - 1 ==> !ops[i + 1].Acquired? && ops[i + 1].b == ops[i].b
    ensures i < |ops| - 2 ==> ops[i + 2].Acquired?
  {
    if i < |ops| - 1 {
      assert (i + 1) % 2 == 1;
    }
  }

  // ---- Sequence numbers and batches ----

  /** The n-th datagram passed to FreeRTOS_sendto, counting from 1, decodes, carries
      n mod 65536, holds 1 to 16 frames in 12 + 15 * count bytes, and is full unless the
      wake carried the flush bit. */
  lemma DatagramsWellFormed(s0: State, es: seq<Event>, s: State, n: nat)
    requires Reaches(s0, es, s) && 1 <= n <= |s.env.attempts|
    ensures var a := s.env.attempts[n - 1];
            && Decode(a.bytes).Some?
            && Decode(a.bytes).value.seqnum == n % 0x1_0000
            && 1 <= |Decode(a.bytes).value.frames| <= 16
            && |a.bytes| == 12 + 15 * |Decode(a.bytes).value.frames| <= 252
            && (|Decode(a.bytes).value.frames| < 16 ==> a.flush)
  {
    Reachable(s0, es, s);
    assert WellFormed(s.env.attempts[n - 1], n);
  }

  function SeqnumOf(a: Attempt): u16
    requires Decode(a.bytes).Some?
  {
    Decode(a.bytes).value.seqnum
  }

  /** A receiver counts losses from the sequence numbers: between two delivered datagrams
      with only failures in between, the modular gap minus one is the number of failures,
      exactly when fewer than 65535 failed. */
  lemma SeqnumGapCountsFailures(s0: State, es: seq<Event>, s: State, i: nat, j: nat)
    requires Reaches(s0, es, s) && i < j < |s.env.attempts|
    requires s.env.attempts[i].ok && s.env.attempts[j].ok
    requires forall k :: i < k < j ==> !s.env.attempts[k].ok
    ensures Decode(s.env.attempts[i].bytes).Some? && Decode(s.env.attempts[j].bytes).Some?
    ensures var gap := (SeqnumOf(s.env.attempts[j]) - SeqnumOf(s.env.attempts[i])) % 0x1_0000;
            var failures := j - i - 1;
            gap - 1 == failures <==> failures < 65535
  {
    Numbered(s0, es, s, i);
    Numbered(s0, es, s, j);
    GapIsFailures(i + 1, j + 1);
  }

  lemma Numbered(s0: State, es: seq<Event>, s: State, i: nat)
    requires Reaches(s0, es, s) && i < |s.env.attempts|
    ensures Decode(s.env.attempts[i].bytes).Some?
    ensures SeqnumOf(s.env.attempts[i]) == (i + 1) % 0x1_0000
  {
    DatagramsWellFormed(s0, es, s, i + 1);
  }

  lemma GapIsFailures(m: nat, n: nat)
    requires m < n
    ensures (n % 0x1_0000 - m % 0x1_0000) % 0x1_0000 - 1 == n - m - 1 <==> n - m - 1 < 65535
  {
    ModGap(m, n);
  }

  lemma ModGap(a: nat, b: nat)
    requires a < b
    ensures (b % 0x1_0000 - a % 0x1_0000) % 0x1_0000 == (b - a) % 0x1_0000
    ensures (b - a) % 0x1_0000 == b - a <==> b - a < 0x1_0000
  {
    var q, r := a / 0x1_0000, b / 0x1_0000;
    assert b % 0x1_0000 - a % 0x1_0000 == b - a - 0x1_0000 * (r - q);
  }

  /** The frame that a step moves from the queue into the batch, if any. */
  function TakenBy(s: State, e: Event): seq<Frame>
  {
    if e.Receive? && s.task.pc.Woken? && s.task.pc.queue && s.task.buffered < MAX_COUNT && s.env.queue != []
    then [s.env.queue[0]] else []
  }

  /** The frames taken from the queue during a run, in order. */
  function Taken(s: State, es: seq<Event>): seq<Frame>
    requires Run(s, es).Some?
  {
    if es == [] then []
    else
      var m := |es| - 1;
      Taken(s, es[..m]) + TakenBy(Run(s, es[..m]).value, es[m])
  }

  ghost predicate IsSuffix<T>(a: seq<T>, b: seq<T>)
  {
    |a| <= |b| && b[|b| - |a|..] == a
  }

  lemma SuffixPush<T>(a: seq<T>, b: seq<T>, c: seq<T>)
    requires IsSuffix(a, b)
    ensures IsSuffix(a + c, b + c)
  {
    assert b == b[..|b| - |a|] + a;
    assert b + c == b[..|b| - |a|] + (a + c);
  }

  /** Unless it is on its way out, the batch holds only frames taken since s. */
  lemma {:induction false} BatchIsRecent(s: State, es: seq<Event>, t: State)
    requires Inv(s) && Run(s, es) == Some(t)
    requires Batch(s.task) == [] || s.task.pc.Sending?
    ensures IsSuffix(Batch(t.task), Taken(s, es)) || t.task.pc.Sending?
  {
    if es != [] {
      var m := |es| - 1;
      var u := Run(s, es[..m]).value;
      BatchIsRecent(s, es[..m], u);
      RunKeepsBatching(s, es[..m], u);
      StaysRecent(u, es[m], t, Taken(s, es[..m]));
    }
  }

  lemma StaysRecent(s: State, e: Event, s': State, taken: seq<Frame>)
    requires Batching(s) && Step(s, e) == Some(s') && (IsSuffix(Batch(s.task), taken) || s.task.pc.Sending?)
    ensures IsSuffix(Batch(s'.task), taken + TakenBy(s, e)) || s'.task.pc.Sending?
  {
    BatchGrows(s, e, s');
    if !s.task.pc.Sending? {
      SuffixPush(Batch(s.task), taken, TakenBy(s, e));
    }
  }

  /** A step empties the batch, keeps it, or appends the frame it takes from the queue. */
  lemma BatchGrows(s: State, e: Event, s': State)
    requires Batching(s) && Step(s, e) == Some(s')
    ensures Batch(s'.task) == [] || Batch(s'.task) == Batch(s.task) + TakenBy(s, e)
    ensures s.task.pc.Sending? ==> Batch(s'.task) == [] || s'.task.pc.Sending?
  {
    if e.Receive? {
      BatchReceive(s, s');
      AppendNil(Batch(s.task));
    } else if e.Decide? {
      BatchDecide(s, s');
    } else if e.SendTo? {
      var a := BatchSend(s, e.ok, s');
    } else {
      BatchKept(s, e, s');
      if !IsTaskEvent(e) { EnvFrame(s, e, s'); }
    }
    AppendNil(Batch(s.task));
  }

  /** No frame waits past the next flush: once a wake with the flush bit has been decided,
      whenever the task is back at its loop head its batch holds none of the earlier
      frames, only the most recent of those it has taken from the queue since. */
  lemma FlushEmptiesBatch(s0: State, es: seq<Event>, s: State, es': seq<Event>, t: State)
    requires Reaches(s0, es, s) && s.task.pc == Deciding(true)
    requires Run(s, [Decide] + es') == Some(t) && t.task.pc.Head?
    ensures var u := Step(s, Decide).value;
            Run(u, es') == Some(t) && IsSuffix(Batch(t.task), Taken(u, es'))
    ensures |Batch(t.task)| == t.task.buffered < MAX_COUNT
  {
    var u := FlushDecided(s0, es, s);
    RunOne(s, Decide);
    RunAppend(s, [Decide], es');
    BatchIsRecent(u, es', t);
    RunKeepsBatching(u, es', t);
  }

  lemma FlushDecided(s0: State, es: seq<Event>, s: State) returns (u: State)
    requires Reaches(s0, es, s) && s.task.pc == Deciding(true)
    ensures Step(s, Decide) == Some(u) && Inv(u)
    ensures Batch(u.task) == [] || u.task.pc.Sending?
  {
    u := Step(s, Decide).value;
    ExtendOne(s0, es, s, Decide, u);
    Reachable(s0, es + [Decide], u);
    FlushClears(s, u);
  }

  lemma FlushClears(s: State, u: State)
    requires s.task.pc == Deciding(true) && Step(s, Decide) == Some(u)
    ensures Batch(u.task) == [] || u.task.pc.Sending?
  {
    DecideShape(s, u);
    if s.task.buffered != 0 { assert u.task.pc == Sending(true); }
  }

  lemma RunKeepsBatching(s: State, es: seq<Event>, t: State)
    requires Inv(s) && Run(s, es) == Some(t)
    ensures Batching(t)
  {
    InvRun(s, es, t);
  }

  // ---- Worker dispatch ----

  /** Every frame still in the CAN1 task or its message buffer was read. */
  ghost predicate FromReads(s: State)
  {
    && (forall rx <- s.env.messages :: rx in s.env.read)
    && (!s.env.producer.Waiting? && !s.env.producer.Halted? ==> s.env.producer.rx in s.env.read)
    && (s.env.producer.Halted? ==> exists rx <- s.env.read :: !DispatchOk(rx))
  }

  lemma FromReadsStep(s: State, e: Event, s': State)
    requires FromReads(s) && Step(s, e) == Some(s')
    ensures FromReads(s')
  {
    if IsTaskEvent(e) {
      TaskFrame(s, e, s');
    } else {
      EnvHistory(s, e, s');
      FromReadsEnv(s, e, s');
    }
  }

  lemma FromReadsEnv(s: State, e: Event, s': State)
    requires FromReads(s) && Step(s, e) == Some(s') && !IsTaskEvent(e)
    ensures FromReads(s')
  {
    if IsCan1Event(e) {
      FromReadsProducer(s, e, s');
    } else {
      OutsideFrame(s.env, e, s'.env);
      if e.CanRead? { MessagesGrow(s.env, e.rx, s'.env); }
    }
  }

  lemma MessagesGrow(v: Env, rx: RxFrame, v': Env)
    requires EnvStep(v, CanRead(rx)) == Some(v')
    ensures v'.messages == v.messages || v'.messages == v.messages + [rx]
  {
  }

  lemma FromReadsProducer(s: State, e: Event, s': State)
    requires FromReads(s) && Step(s, e) == Some(s') && IsCan1Event(e)
    ensures FromReads(s')
  {
    ProducerFrame(s.env, e, s'.env);
    if e.Take? {
      FromReadsTake(s, s');
    } else if e.Dispatch? {
    } else {
      KeepsItsFrame(s.env, e, s'.env);
    }
  }

  lemma FromReadsTake(s: State, s': State)
    requires FromReads(s) && Step(s, Take) == Some(s')
    ensures FromReads(s')
  {
    assert s.env.messages[0] in s.env.messages;
  }

  lemma KeepsItsFrame(v: Env, e: Event, v': Env)
    requires EnvStep(v, e) == Some(v') && IsCan1Event(e) && !e.Take? && !e.Dispatch?
    ensures !v.producer.Waiting? && !v.producer.Halted? && !v'.producer.Waiting? && !v'.producer.Halted?
    ensures v'.producer.rx == v.producer.rx
  {
  }

  lemma {:induction false} FromReadsRun(s0: State, es: seq<Event>, s: State)
    requires FromReads(s0) && Run(s0, es) == Some(s)
    ensures FromReads(s)
  {
    if es != [] {
      var t := Run(s0, es[..|es| - 1]).value;
      FromReadsRun(s0, es[..|es| - 1], t);
      FromReadsStep(t, es[|es| - 1], s);
    }
  }

  /** A frame with the DoWork0 identifier that is not a standard one of at least 8 bytes. */
  predicate Misuses0B(rx: RxFrame) { rx.stdId == 0x0b && (rx.ide == ExtendedId || rx.dlc < 8) }

  /** A dispatch assertion fails only on a frame that reuses the DoWork0 identifier
      without being a standard frame of at least 8 bytes. */
  lemma HaltNeedsBadFrame(s0: State, es: seq<Event>, s: State)
    requires Reaches(s0, es, s) && s.env.producer.Halted?
    ensures exists rx <- Reads(es) :: Misuses0B(rx)
  {
    FromReadsRun(s0, es, s);
    History(s0, es, s);
    assert s.env.read == Reads(es);
  }

  /** ...and at rest, with the network up or down and the queue full or not, the next
      frame leads to a failed assertion if and only if it is such a frame. */
  lemma DispatchDecides(s: State, rx: RxFrame) returns (es: seq<Event>, t: State)
    requires s.env.producer.Waiting? && s.env.messages == [] && s.env.capacity > 0
    ensures Run(s, es) == Some(t) && t.env.read == s.env.read + [rx]
    ensures t.env.producer == if Misuses0B(rx) then Halted else Waiting
  {
    var u := Approach(s, rx);
    es := [CanRead(rx), Take, CheckNetwork];
    if s.env.netUp {
      es, u := OfferEither(s, es, u);
    }
    t := DispatchStep(u);
    ExtendOne(s, es, u, Dispatch, t);
    es := es + [Dispatch];
  }

  /** Such a frame: an extended one whose header carries 0x0B in the unused standard field.
      From power-on, in some run, it stops the CAN1 task for good. */
  lemma ExtendedFrameHalts(s0: State) returns (es: seq<Event>, s: State)
    requires Init(s0) && s0.env.capacity > 0
    ensures Reaches(s0, es, s) && s.env.producer == Halted
    ensures Reads(es) == [RxFrame(0x0b, 0x0b, ExtendedId, false, 8, [0, 0, 0, 0, 0, 0, 0, 0])]
  {
    var rx := RxFrame(0x0b, 0x0b, ExtendedId, false, 8, [0, 0, 0, 0, 0, 0, 0, 0]);
    es, s := DispatchDecides(s0, rx);
    History(s0, es, s);
    assert Reads(es) == [] + Reads(es) == s.env.read == [] + [rx];
  }

  lemma DispatchStep(u: State) returns (t: State)
    requires u.env.producer.Dispatching?
    ensures Step(u, Dispatch) == Some(t)
    ensures t == u.(env := u.env.(producer := if DispatchOk(u.env.producer.rx) then Waiting else Halted))
  {
    t := Step(u, Dispatch).value;
  }

  /** Queue full or not, the CAN1 task gets past its offer. */
  lemma OfferEither(s: State, es: seq<Event>, u: State) returns (es': seq<Event>, t: State)
    requires Run(s, es) == Some(u) && u.env.producer.Offering?
    ensures Run(s, es') == Some(t) && t.env.read == u.env.read
    ensures t.env.producer == Dispatching(u.env.producer.rx)
  {
    var v := OfferStep(u);
    ExtendOne(s, es, u, Offer, v);
    if v.env.producer.Sent? {
      t := NotifyStep(v, u.env.producer.rx);
      ExtendOne(s, es + [Offer], v, Notify, t);
      es' := es + [Offer] + [Notify];
    } else {
      t := FlagStep(v, u.env.producer.rx);
      ExtendOne(s, es + [Offer], v, FlagRefused, t);
      es' := es + [Offer] + [FlagRefused];
    }
  }

  lemma FlagStep(u: State, rx: RxFrame) returns (v: State)
    requires u.env.producer == Refused(rx)
    ensures Step(u, FlagRefused) == Some(v)
    ensures v == u.(env := u.env.(canethError := true, producer := Dispatching(rx)))
  {
    v := Step(u, FlagRefused).value;
  }

  lemma OfferStep(u: State) returns (v: State)
    requires u.env.producer.Offering?
    ensures Step(u, Offer) == Some(v) && v.env.read == u.env.read
    ensures v.env.producer == Sent(u.env.producer.rx) || v.env.producer == Refused(u.env.producer.rx)
  {
    v := Step(u, Offer).value;
  }
}
