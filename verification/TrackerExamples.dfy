/** Runs on which the conditions of the tracker's laws fail, and the laws with them. */
module TrackerExamples {
  import opened Common
  import opened TrackerSpec
  import opened Endpoints
  import opened TrackerRuns
  import opened TrackerConservation
  import opened TrackerEpochs
  import opened TrackerAttempts

  const CFG := Config(0, 5 * SECOND, 1, 600 * SECOND, 0, 0)
  const ENDPOINT := Endpoint(Configured("retry"), 255, 0, 0, 0, 1, false)

  function Frame(id: Id32, groupIdx: uint32, seqNum: uint64): Step {
    Arrive(Arrival(groupIdx, id, 7, seqNum), 0, map[])
  }

  const SWEEP_ORDER: seq<Visit> := [VisitGap(7, 2), VisitIdle(7)]

  lemma ExecSnoc(cfg: Config, w: World, steps: seq<Step>, step: Step)
    ensures Exec(cfg, w, steps + [step]) == Next(cfg, Exec(cfg, w, steps), step)
  {
    assert (steps + [step])[..|steps|] == steps;
  }

  /** Frames 1 and 3 on one flow leave gap 2 pending. */
  lemma OneGap(id: Id32, groupIdx: uint32, w: World)
    requires w == Exec(CFG, Start(0), [Frame(id, 0, 1), Frame(id, groupIdx, 3)])
    ensures w.st.flows.Keys == {7} && w.st.flows[7].pending.Keys == {2}
    ensures w.st.flows[7].pending[2] == Gap(7, 2, groupIdx, id, 0, 0, 600 * SECOND, 0)
    ensures w.st.flows[7].flowType == Brc124
    ensures w.st.detected == Tally(1, 0, 0) && w.st.suppressed == w.st.unrecovered == ZERO_TALLY
    ensures w.st.queue == [] && w.running == map[] && w.contacts == map[]
  {
    var w0, w1 := Start(0), Next(CFG, Start(0), Frame(id, 0, 1));
    ExecSnoc(CFG, w0, [], Frame(id, 0, 1));
    ExecSnoc(CFG, w0, [Frame(id, 0, 1)], Frame(id, groupIdx, 3));
    assert [] + [Frame(id, 0, 1)] == [Frame(id, 0, 1)];
    assert [Frame(id, 0, 1)] + [Frame(id, groupIdx, 3)] == [Frame(id, 0, 1), Frame(id, groupIdx, 3)];
    assert w1.st.flows[7].lastSeqNum == 1 && w1.st.flows[7].pending == map[];
    var a := Arrival(groupIdx, id, 7, 3);
    var f := Filled(FlowFor(w1.st, a, 0), 3);
    assert f.pending == map[];
    assert Register(CFG, f.pending, 2, 2, a, 0, map[]) == Registered(map[], 0);
    assert Register(CFG, f.pending, 2, 3, a, 0, map[]) == Registered(map[2 := NewGap(CFG, a, 2, 0, map[])], 1);
  }

  /** A sweep at `now` queues a due gap 2. */
  lemma SweepQueues(s: State, now: Time)
    requires s.flows.Keys == {7} && s.flows[7].pending.Keys == {2}
    requires var g := s.flows[7].pending[2];
      !IsDead(CFG, g, now) && now > g.nextAttempt && |s.queue| < 10
    ensures CompleteOrder(s.flows, SWEEP_ORDER)
    ensures SweepAll(CFG, s, SWEEP_ORDER, now) ==
      Put(s, 7, 2, s.flows[7].pending[2].(nextAttempt := now + HOLD_OFF))
      .(queue := s.queue + [s.flows[7].pending[2].(nextAttempt := now + HOLD_OFF)])
  {
    assert SWEEP_ORDER[..1] == [VisitGap(7, 2)] && SWEEP_ORDER[..1][..0] == [];
    var s1 := SweepVisit(CFG, s, VisitGap(7, 2), now);
    assert SweepAll(CFG, s, [], now) == s;
    assert SweepAll(CFG, s, SWEEP_ORDER[..1], now) == s1;
    assert 2 in s1.flows[7].pending;
    forall v: Visit ensures v in SWEEP_ORDER <==> IsVisitOf(s.flows, v) {
    }
  }

  const SEND_0 := Send(0, [ENDPOINT])
  const SEND_1 := Send(1, [ENDPOINT])

  function Opening(id: Id32, groupIdx: uint32): seq<Step> { [Frame(id, 0, 1), Frame(id, groupIdx, 3)] }

  /** The world-level effect of a sweep on the single gap. */
  lemma SweepStep(w: World, now: Time, w': World)
    requires w.st.flows.Keys == {7} && w.st.flows[7].pending.Keys == {2} && |w.st.queue| < 10
    requires !IsDead(CFG, w.st.flows[7].pending[2], now) && now > w.st.flows[7].pending[2].nextAttempt
    requires w' == Next(CFG, w, Sweep(SWEEP_ORDER, now))
    ensures w'.running == w.running && w'.contacts == w.contacts
    ensures w'.st.flows.Keys == {7} && w'.st.flows[7].pending.Keys == {2}
    ensures w'.st.flows[7].pending[2] == w.st.flows[7].pending[2].(nextAttempt := now + HOLD_OFF)
    ensures w'.st.flows[7].flowType == w.st.flows[7].flowType
    ensures w'.st.queue == w.st.queue + [w'.st.flows[7].pending[2]]
    ensures w'.st.detected == w.st.detected && w'.st.suppressed == w.st.suppressed
    ensures w'.st.unrecovered == w.st.unrecovered
  {
    SweepQueues(w.st, now);
  }

  /**
   Two sweeps a second apart, with nothing dispatched in between, queue gap 2
   twice; both copies are then sent, although MaxRetries is 1.
   */
  lemma LateAttemptsExceedMaxRetries(id: Id32, w: World)
    requires w == Exec(CFG, Start(0), Opening(id, 0) + [Sweep(SWEEP_ORDER, 1)] + [Sweep(SWEEP_ORDER, SECOND)]
                                      + [Dispatch(0)] + [Dispatch(1)] + [SEND_0] + [SEND_1])
    ensures |Log(w, (7, 2))| == 2 > CFG.maxRetries
  {
    var w0 := Start(0);
    var a := Opening(id, 0);
    var b := a + [Sweep(SWEEP_ORDER, 1)];
    var c := b + [Sweep(SWEEP_ORDER, SECOND)];
    OneGap(id, 0, Exec(CFG, w0, a));
    ExecSnoc(CFG, w0, a, Sweep(SWEEP_ORDER, 1));
    SweepStep(Exec(CFG, w0, a), 1, Exec(CFG, w0, b));
    ExecSnoc(CFG, w0, b, Sweep(SWEEP_ORDER, SECOND));
    SweepStep(Exec(CFG, w0, b), SECOND, Exec(CFG, w0, c));
    TwoCopiesSent(w0, c, Exec(CFG, w0, c));
  }

  lemma TwoCopiesSent(w0: World, c: seq<Step>, w: World)
    requires w == Exec(CFG, w0, c) && |w.st.queue| == 2 && w.running == map[] && w.contacts == map[]
    requires IdOf(w.st.queue[0]) == IdOf(w.st.queue[1]) == (7, 2)
    ensures |Log(Exec(CFG, w0, c + [Dispatch(0)] + [Dispatch(1)] + [SEND_0] + [SEND_1]), (7, 2))| == 2
  {
    var d := c + [Dispatch(0)];
    var e := d + [Dispatch(1)];
    ExecSnoc(CFG, w0, c, Dispatch(0));
    ExecSnoc(CFG, w0, d, Dispatch(1));
    var w' := AfterDispatch(AfterDispatch(w, 0), 1);
    assert Exec(CFG, w0, e) == w';
    ExecSnoc(CFG, w0, e, SEND_0);
    ExecSnoc(CFG, w0, e + [SEND_0], SEND_1);
  }

  /** One queued copy, dispatched and sent. */
  lemma OneCopySent(w0: World, b: seq<Step>, w: World, w': World)
    requires w == Exec(CFG, w0, b) && |w.st.queue| == 1 && w.running == map[]
    requires w' == Exec(CFG, w0, b + [Dispatch(0)] + [SEND_0])
    ensures w'.st == w.st.(queue := []) && w'.running == map[0 := Attempt(w.st.queue[0], Some([ENDPOINT]))]
  {
    ExecSnoc(CFG, w0, b, Dispatch(0));
    ExecSnoc(CFG, w0, b + [Dispatch(0)], SEND_0);
  }

  /**
   One hash key used with a data group and then with the block-control group: the
   gap is detected under one label and its ACK is booked under the other.
   */
  lemma LabelBooksDrift(id: Id32, w: World)
    requires w == Exec(CFG, Start(0), Opening(id, CTRL_GROUP_CONTROL) + [Sweep(SWEEP_ORDER, 1)]
                                      + [Dispatch(0)] + [SEND_0] + [Answered(0, Ack, 2)])
    ensures !Balanced(w.st, {Brc131}) && !Balanced(w.st, {Brc124}) && Balanced(w.st, ALL_LABELS)
  {
    var w0 := Start(0);
    var a := Opening(id, CTRL_GROUP_CONTROL);
    var b := a + [Sweep(SWEEP_ORDER, 1)];
    var d := b + [Dispatch(0)] + [SEND_0];
    OneGap(id, CTRL_GROUP_CONTROL, Exec(CFG, w0, a));
    ExecSnoc(CFG, w0, a, Sweep(SWEEP_ORDER, 1));
    SweepStep(Exec(CFG, w0, a), 1, Exec(CFG, w0, b));
    OneCopySent(w0, b, Exec(CFG, w0, b), Exec(CFG, w0, d));
    ExecSnoc(CFG, w0, d, Answered(0, Ack, 2));
    AckBooked(Exec(CFG, w0, d), w);
  }

  lemma AckBooked(w: World, w': World)
    requires w.st.flows.Keys == {7} && w.st.flows[7].pending.Keys == {2} && w.st.flows[7].flowType == Brc124
    requires w.st.detected == Tally(1, 0, 0) && w.st.suppressed == w.st.unrecovered == ZERO_TALLY
    requires Holds(w, 0, true) && IdOf(w.running[0].gap) == (7, 2) && w.running[0].gap.groupIdx == CTRL_GROUP_CONTROL
    requires w' == Next(CFG, w, Answered(0, Ack, 2))
    ensures !Balanced(w'.st, {Brc131}) && !Balanced(w'.st, {Brc124}) && Balanced(w'.st, ALL_LABELS)
  {
    assert w'.st == CancelGap(w.st, w.running[0].gap);
    assert w'.st.flows[7].pending.Keys == {};
    SettledBooks(w'.st);
  }

  /** One detection under one label, one suppression under the other, nothing pending. */
  lemma SettledBooks(s: State)
    requires s.flows.Keys == {7} && s.flows[7].pending.Keys == {}
    requires s.detected == Tally(1, 0, 0) && s.suppressed == Tally(0, 1, 0) && s.unrecovered == ZERO_TALLY
    ensures !Balanced(s, {Brc131}) && !Balanced(s, {Brc124}) && Balanced(s, ALL_LABELS)
  {
    forall labels ensures Gaps(s.flows, labels) == {} {
    }
  }

  /** One endpoint asked, no answer: the documented index 0 has become 1. */
  lemma TimeoutMovesOn(id: Id32, w: World)
    requires w == Exec(CFG, Start(0), Opening(id, 0) + [Sweep(SWEEP_ORDER, 1)]
                                      + [Dispatch(0)] + [SEND_0] + [Answered(0, Silence, 2)])
    ensures GapAt(w.st, (7, 2)).Some? && GapAt(w.st, (7, 2)).value.endpointIdx == 1
  {
    var w0 := Start(0);
    var a := Opening(id, 0);
    var b := a + [Sweep(SWEEP_ORDER, 1)];
    var d := b + [Dispatch(0)] + [SEND_0];
    OneGap(id, 0, Exec(CFG, w0, a));
    ExecSnoc(CFG, w0, a, Sweep(SWEEP_ORDER, 1));
    SweepStep(Exec(CFG, w0, a), 1, Exec(CFG, w0, b));
    OneCopySent(w0, b, Exec(CFG, w0, b), Exec(CFG, w0, d));
    ExecSnoc(CFG, w0, d, Answered(0, Silence, 2));
    TimeoutAdvances(CFG, Exec(CFG, w0, d), 0, 2, w, (7, 2));
  }

  /** A frame of this flow is one call of Observe. */
  lemma FrameStep(cfg: Config, w: World, id: Id32, q: uint64)
    ensures Next(cfg, w, Frame(id, 0, q)).st == Observe(cfg, w.st, Arrival(0, id, 7, q), w.clock, map[])
    ensures Next(cfg, w, Frame(id, 0, q)).clock == w.clock
  {
  }

  lemma FirstFrame(cfg: Config, a: Arrival, now: Time, s: State)
    requires a.seqNum != 0 && s == Observe(cfg, EMPTY, a, now, map[])
    ensures s.flows.Keys == {a.hashKey} && s.flows[a.hashKey].lastSeqNum == a.seqNum
    ensures s.flows[a.hashKey].pending == map[] && s.flows[a.hashKey].flowType == LabelOf(a.groupIdx)
    ensures s.suppressed == s.unrecovered == ZERO_TALLY
  {
  }

  /** A jump of three on a flow without gaps leaves the two numbers between. */
  lemma JumpOfThree(cfg: Config, a: Arrival, now: Time, s: State, s': State)
    requires s.flows.Keys == {a.hashKey} && s.flows[a.hashKey].pending == map[]
    requires 0 < s.flows[a.hashKey].lastSeqNum == a.seqNum - 3 && s' == Observe(cfg, s, a, now, map[])
    ensures s'.flows.Keys == {a.hashKey} && s'.flows[a.hashKey].lastSeqNum == a.seqNum
    ensures s'.flows[a.hashKey].pending.Keys == {a.seqNum - 2, a.seqNum - 1}
    ensures s'.flows[a.hashKey].flowType == s.flows[a.hashKey].flowType
    ensures s'.suppressed == s.suppressed && s'.unrecovered == s.unrecovered
  {
    var f := FlowFor(s, a, now);
    ContinuedFlow(cfg, f, a, now, map[]);
    var e := Classify(cfg, Filled(f, a.seqNum), a, now, map[]);
    forall r: uint64 ensures r in e.flow.pending <==> r == a.seqNum - 2 || r == a.seqNum - 1 {
    }
    assert e.flow.pending.Keys == {a.seqNum - 2, a.seqNum - 1};
  }

  /** A restart that fills one of two gaps books the other as unrecovered. */
  lemma RestartWithTwoGaps(cfg: Config, a: Arrival, now: Time, s: State, s': State)
    requires s.flows.Keys == {a.hashKey} && a.seqNum != 0 && IsRestart(cfg, s.flows[a.hashKey].lastSeqNum, a.seqNum)
    requires a.seqNum < TWO64 - 1 && s.flows[a.hashKey].pending.Keys == {a.seqNum, a.seqNum + 1}
    requires s' == Observe(cfg, s, a, now, map[])
    ensures s'.flows.Keys == {a.hashKey} && s'.flows[a.hashKey].lastSeqNum == a.seqNum
    ensures s'.flows[a.hashKey].pending == map[]
    ensures s'.suppressed == s.suppressed.Add(s.flows[a.hashKey].flowType, 1)
    ensures s'.unrecovered == s.unrecovered.Add(s.flows[a.hashKey].flowType, 1)
  {
    var f := Filled(FlowFor(s, a, now), a.seqNum);
    assert f.pending.Keys == {a.seqNum + 1};
    assert |f.pending| == |f.pending.Keys| == 1;
  }

  /**
   A late retransmit reads as a restart: with the default threshold, the run of
   frames 99, 102 and 100 takes the counter from 102 back to 100. Gap 100 is filled,
   and gap 101 is given up although nothing about it has changed.
   */
  lemma LateRetransmitRewinds(id: Id32, w1: World, w2: World, w3: World)
    requires w1 == Next(CFG, Start(0), Frame(id, 0, 99))
    requires w2 == Next(CFG, w1, Frame(id, 0, 102)) && w3 == Next(CFG, w2, Frame(id, 0, 100))
    ensures w2.st.flows.Keys == w3.st.flows.Keys == {7}
    ensures w2.st.flows[7].lastSeqNum == 102 && w3.st.flows[7].lastSeqNum == 100
    ensures w2.st.flows[7].pending.Keys == {100, 101} && w3.st.flows[7].pending == map[]
    ensures w3.st.suppressed == Tally(1, 0, 0) && w3.st.unrecovered == Tally(1, 0, 0)
  {
    FrameStep(CFG, Start(0), id, 99);
    FrameStep(CFG, w1, id, 102);
    FrameStep(CFG, w2, id, 100);
    FirstFrame(CFG, Arrival(0, id, 7, 99), 0, w1.st);
    JumpOfThree(CFG, Arrival(0, id, 7, 102), 0, w1.st, w2.st);
    RestartWithTwoGaps(CFG, Arrival(0, id, 7, 100), 0, w2.st, w3.st);
  }
}
