/**
 What the counter and the detections of a flow mean in terms of the frames that
 arrived: between two restarts the counter is the highest number seen, and the
 numbers ever registered as gaps are exactly those that were jumped over, once each.
 */
module TrackerEpochs {
  import opened Common
  import opened TrackerSpec
  import opened TrackerRuns
  import opened TrackerInvariant

  function Highest(xs: seq<uint64>): uint64 {
    if xs == [] then 0 else
      var m := Highest(xs[..|xs| - 1]);
      if xs[|xs| - 1] > m then xs[|xs| - 1] else m
  }

  lemma {:induction false} HighestIsMax(xs: seq<uint64>)
    ensures forall x :: x in xs ==> x <= Highest(xs)
    ensures xs != [] ==> Highest(xs) in xs || Highest(xs) == 0
  {
    if xs != [] {
      var n := |xs| - 1;
      HighestIsMax(xs[..n]);
      forall x | x in xs ensures x <= Highest(xs) {
        if x != xs[n] {
          assert x in xs[..n];
        }
      }
    }
  }

  /** The number arrived as a new maximum. */
  ghost predicate IsRecord(xs: seq<uint64>, q: uint64) {
    exists i :: 0 <= i < |xs| && xs[i] == q && AllBelow(xs[..i], q)
  }

  ghost predicate AllBelow(xs: seq<uint64>, q: uint64) { forall x :: x in xs ==> x < q }

  /** The numbers jumped over: between the first frame and the highest, and never a new maximum. */
  ghost predicate JumpedOver(xs: seq<uint64>, q: uint64) {
    xs != [] && xs[0] < q < Highest(xs) && !IsRecord(xs, q)
  }

  /**
   The law of an epoch. `observed` and `detected` are records of what arrived and
   of what was registered; `last` and `pending` are the tracker's own.
   */
  ghost predicate EpochLaw(e: Epoch, last: uint64, pending: map<uint64, Gap>) {
    && e.observed != [] && last == Highest(e.observed)
    && (forall q: uint64 :: DetectedOnce(e, q))
    && (forall q :: q in pending ==> StillMissing(e, q))
  }

  /** Registered exactly once if it was jumped over, never otherwise. */
  ghost predicate DetectedOnce(e: Epoch, q: uint64) {
    e.detected[q] == if JumpedOver(e.observed, q) then 1 else 0
  }

  ghost predicate StillMissing(e: Epoch, q: uint64) { JumpedOver(e.observed, q) && q !in e.observed }

  ghost predicate EpochsOk(w: World) {
    && w.epochs.Keys == w.st.flows.Keys
    && forall hk :: hk in w.epochs ==> EpochLaw(w.epochs[hk], w.st.flows[hk].lastSeqNum, w.st.flows[hk].pending)
  }

  lemma Snoc(xs: seq<uint64>, q: uint64)
    ensures (xs + [q])[..|xs|] == xs
    ensures Highest(xs + [q]) == if q > Highest(xs) then q else Highest(xs)
  {
    assert (xs + [q])[..|xs|] == xs;
  }

  /** A new frame adds itself to the records exactly when it exceeds the highest number so far. */
  lemma RecordSnoc(xs: seq<uint64>, q: uint64, r: uint64)
    requires xs != [] && 0 < q
    ensures IsRecord(xs + [q], r) <==> IsRecord(xs, r) || (r == q && q > Highest(xs))
  {
    var ys := xs + [q];
    HighestIsMax(xs);
    assert ys[..|xs|] == xs;
    forall i | 0 <= i < |xs|
      ensures ys[..i] == xs[..i]
    {
    }
    if IsRecord(xs, r) {
      var i :| 0 <= i < |xs| && xs[i] == r && AllBelow(xs[..i], r);
      assert ys[i] == r && AllBelow(ys[..i], r);
    }
    if r == q && q > Highest(xs) {
      assert ys[|xs|] == r && AllBelow(ys[..|xs|], r);
    }
  }

  /** The numbers jumped over grow by the open interval between the old and the new maximum. */
  lemma JumpSnoc(xs: seq<uint64>, q: uint64, r: uint64)
    requires xs != [] && 0 < q
    ensures JumpedOver(xs + [q], r) <==> JumpedOver(xs, r) || Highest(xs) < r < q
  {
    Snoc(xs, q);
    RecordSnoc(xs, q, r);
    HighestIsMax(xs);
    assert xs[0] in xs;
    if IsRecord(xs, r) { RecordSeen(xs, r); }
    if xs[0] < r == Highest(xs) { HighestIsRecord(xs); }
  }

  lemma RecordSeen(xs: seq<uint64>, r: uint64)
    requires IsRecord(xs, r)
    ensures r <= Highest(xs)
  {
    HighestIsMax(xs);
    var i :| 0 <= i < |xs| && xs[i] == r && AllBelow(xs[..i], r);
    assert xs[i] in xs;
  }

  lemma {:induction false} HighestIsRecord(xs: seq<uint64>)
    requires Highest(xs) > 0
    ensures IsRecord(xs, Highest(xs))
  {
    var n := |xs| - 1;
    assert xs == xs[..n] + [xs[n]];
    if xs[n] > Highest(xs[..n]) {
      HighestIsMax(xs[..n]);
      assert AllBelow(xs[..n], xs[n]);
    } else {
      HighestIsRecord(xs[..n]);
      var i :| 0 <= i < n && xs[..n][i] == Highest(xs) && AllBelow(xs[..n][..i], Highest(xs));
      assert xs[..n][..i] == xs[..i];
    }
  }

  /** The first frame of an epoch satisfies the law with nothing detected. */
  lemma FirstFrame(q: uint64)
    requires 0 < q
    ensures EpochLaw(Epoch([q], multiset{}), q, map[])
  {
    assert Highest([]) == 0;
    assert [q][..0] == [];
  }

  /** A frame that is old, next or ahead keeps the law: the general step of the proof. */
  lemma ExtendLaw(e: Epoch, last: uint64, pending: map<uint64, Gap>, q: uint64, last': uint64,
                  pending': map<uint64, Gap>, added: set<uint64>)
    requires EpochLaw(e, last, pending) && 0 < q
    requires last' == if q > last then q else last
    requires forall r: uint64 :: r in added <==> last < r < q
    requires forall r :: r in pending' <==> (r in pending && r != q) || r in added
    ensures EpochLaw(Epoch(e.observed + [q], e.detected + multiset(added)), last', pending')
  {
    var e' := Epoch(e.observed + [q], e.detected + multiset(added));
    Snoc(e.observed, q);
    HighestIsMax(e.observed);
    forall r: uint64
      ensures DetectedOnce(e', r)
    {
      assert DetectedOnce(e, r);
      JumpSnoc(e.observed, q, r);
    }
    forall r | r in pending'
      ensures StillMissing(e', r)
    {
      JumpSnoc(e.observed, q, r);
    }
  }

  /** The tracker's counter and pending set after a frame that continues the epoch. */
  lemma ContinuedFlow(cfg: Config, f: Flow, a: Arrival, now: Time, jitter: Jitter)
    requires 0 < a.seqNum && 0 < f.lastSeqNum && !IsRestart(cfg, f.lastSeqNum, a.seqNum)
    requires forall q :: q in f.pending ==> q < f.lastSeqNum
    ensures var f' := Classify(cfg, Filled(f, a.seqNum), a, now, jitter).flow;
      && f'.lastSeqNum == (if a.seqNum > f.lastSeqNum then a.seqNum else f.lastSeqNum)
      && (forall r: uint64 :: r in f'.pending <==>
            (r in f.pending && r != a.seqNum) || f.lastSeqNum < r < a.seqNum)
  {
    var g := Filled(f, a.seqNum);
    if a.seqNum > f.lastSeqNum + 1 {
      RegisterContents(cfg, g.pending, g.lastSeqNum + 1, a.seqNum, a, now, jitter);
    }
  }

  /** The arriving frame's own flow keeps the law. */
  lemma ArriveLaw(cfg: Config, w: World, a: Arrival, now: Time, jitter: Jitter, st: State)
    requires FlowsOk(cfg, w.st, w.clock) && EpochsOk(w) && a.seqNum != 0
    requires st == Observe(cfg, w.st, a, now, jitter)
    ensures EpochLaw(EpochAfter(cfg, w, a, st), st.flows[a.hashKey].lastSeqNum, st.flows[a.hashKey].pending)
  {
    if Continues(cfg, w, a) {
      ContinuedLaw(cfg, w, a, now, jitter, st);
    } else {
      FreshLaw(cfg, w, a, now, jitter, st);
    }
  }

  lemma ContinuedLaw(cfg: Config, w: World, a: Arrival, now: Time, jitter: Jitter, st: State)
    requires FlowsOk(cfg, w.st, w.clock) && EpochsOk(w) && a.seqNum != 0 && Continues(cfg, w, a)
    requires st == Observe(cfg, w.st, a, now, jitter)
    ensures EpochLaw(EpochAfter(cfg, w, a, st), st.flows[a.hashKey].lastSeqNum, st.flows[a.hashKey].pending)
  {
    var hk := a.hashKey;
    var f, f' := FlowFor(w.st, a, now), st.flows[hk];
    assert FlowOk(cfg, hk, w.st.flows[hk], w.clock);
    ContinuedFlow(cfg, f, a, now, jitter);
    ExtendLaw(w.epochs[hk], f.lastSeqNum, f.pending, a.seqNum, f'.lastSeqNum, f'.pending,
              PendingKeys(st, hk) - PendingKeys(w.st, hk));
  }

  lemma FreshLaw(cfg: Config, w: World, a: Arrival, now: Time, jitter: Jitter, st: State)
    requires FlowsOk(cfg, w.st, w.clock) && EpochsOk(w) && a.seqNum != 0 && !Continues(cfg, w, a)
    requires st == Observe(cfg, w.st, a, now, jitter)
    ensures EpochLaw(EpochAfter(cfg, w, a, st), st.flows[a.hashKey].lastSeqNum, st.flows[a.hashKey].pending)
  {
    assert st.flows[a.hashKey].lastSeqNum == a.seqNum && st.flows[a.hashKey].pending == map[];
    assert PendingKeys(st, a.hashKey) - PendingKeys(w.st, a.hashKey) == {};
    FirstFrame(a.seqNum);
  }

  /** One flow's record and epoch replaced, the others untouched. */
  lemma InsertEpoch(w: World, w': World, hk: uint64, e: Epoch, f: Flow)
    requires EpochsOk(w)
    requires w'.epochs == w.epochs[hk := e] && w'.st.flows.Keys == w.st.flows.Keys + {hk}
    requires forall k :: k in w.st.flows && k != hk ==> w'.st.flows[k] == w.st.flows[k]
    requires EpochLaw(e, f.lastSeqNum, f.pending) && w'.st.flows[hk] == f
    ensures EpochsOk(w')
  {
  }

  /** A frame touches no flow but its own. */
  lemma ObserveFrame(cfg: Config, s: State, a: Arrival, now: Time, jitter: Jitter)
    requires a.seqNum != 0
    ensures var flows := Observe(cfg, s, a, now, jitter).flows;
      flows.Keys == s.flows.Keys + {a.hashKey} &&
      forall hk :: hk in s.flows && hk != a.hashKey ==> flows[hk] == s.flows[hk]
  {
  }

  lemma ArriveFrame(cfg: Config, w: World, a: Arrival, dt: nat, jitter: Jitter, w': World)
    requires a.seqNum != 0 && w' == AfterArrival(cfg, w, a, dt, jitter)
    ensures w'.st == Observe(cfg, w.st, a, Later(w.clock, dt), jitter)
    ensures w'.epochs == w.epochs[a.hashKey := EpochAfter(cfg, w, a, w'.st)]
    ensures w'.st.flows.Keys == w.st.flows.Keys + {a.hashKey}
    ensures forall hk :: hk in w.st.flows && hk != a.hashKey ==> w'.st.flows[hk] == w.st.flows[hk]
  {
    ObserveFrame(cfg, w.st, a, Later(w.clock, dt), jitter);
  }

  lemma ArriveEpochs(cfg: Config, w: World, a: Arrival, dt: nat, jitter: Jitter)
    requires FlowsOk(cfg, w.st, w.clock) && EpochsOk(w)
    ensures EpochsOk(AfterArrival(cfg, w, a, dt, jitter))
  {
    if a.seqNum != 0 {
      var w' := AfterArrival(cfg, w, a, dt, jitter);
      ArriveFrame(cfg, w, a, dt, jitter, w');
      ArriveLaw(cfg, w, a, Later(w.clock, dt), jitter, w'.st);
      InsertEpoch(w, w', a.hashKey, EpochAfter(cfg, w, a, w'.st), w'.st.flows[a.hashKey]);
    }
  }

  /** Closing gaps, rewriting retry state and evicting flows never touch an epoch. */
  lemma ShrinkEpochs(w: World, w': World)
    requires EpochsOk(w)
    requires w'.st.flows.Keys <= w.st.flows.Keys
    requires w'.epochs == map hk | hk in w.epochs && hk in w'.st.flows :: w.epochs[hk]
    requires forall hk :: hk in w'.st.flows ==> Shrinks(w.st.flows[hk], w'.st.flows[hk])
    ensures EpochsOk(w')
  {
  }

  ghost predicate Shrinks(f: Flow, f': Flow) {
    f'.lastSeqNum == f.lastSeqNum && f'.pending.Keys <= f.pending.Keys
  }

  ghost predicate FlowsShrink(s: State, s': State) {
    s'.flows.Keys <= s.flows.Keys && forall hk :: hk in s'.flows ==> Shrinks(s.flows[hk], s'.flows[hk])
  }

  lemma VisitShrinks(cfg: Config, s: State, v: Visit, now: Time)
    ensures FlowsShrink(s, SweepVisit(cfg, s, v, now))
  {
  }

  lemma {:induction false} SweepShrinks(cfg: Config, s: State, visits: seq<Visit>, now: Time)
    ensures FlowsShrink(s, SweepAll(cfg, s, visits, now))
  {
    if visits != [] {
      var n := |visits| - 1;
      SweepShrinks(cfg, s, visits[..n], now);
      VisitShrinks(cfg, SweepAll(cfg, s, visits[..n], now), visits[n], now);
    }
  }

  lemma PutShrinks(cfg: Config, s: State, e: Gap, immediate: bool, n: nat, now: Time)
    ensures FlowsShrink(s, AdvanceEndpoint(cfg, s, e, immediate, n, now))
    ensures AdvanceEndpoint(cfg, s, e, immediate, n, now).flows.Keys == s.flows.Keys
  {
  }

  lemma CancelShrinks(s: State, e: Gap)
    ensures FlowsShrink(s, CancelGap(s, e)) && CancelGap(s, e).flows.Keys == s.flows.Keys
  {
  }

  lemma AnswerShrinks(cfg: Config, w: World, t: nat, answer: Answer, now: Time)
    requires Holds(w, t, true)
    ensures FlowsShrink(w.st, AfterAnswer(cfg, w, t, answer, now).st)
    ensures AfterAnswer(cfg, w, t, answer, now).st.flows.Keys == w.st.flows.Keys
  {
    var e := w.running[t].gap;
    match answer
    case Ack => CancelShrinks(w.st, e);
    case Miss => PutShrinks(cfg, w.st, e, true, |w.running[t].sentTo.value|, now);
    case Silence => PutShrinks(cfg, w.st, e, false, 0, now);
  }

  lemma AttemptStepShrinks(cfg: Config, w: World, step: Step)
    requires IsAttemptStep(step)
    ensures FlowsShrink(w.st, AttemptNext(cfg, w, step).st)
    ensures AttemptNext(cfg, w, step).st.flows.Keys == w.st.flows.Keys
    ensures AttemptNext(cfg, w, step).epochs == w.epochs
  {
    if step.Fail? && Holds(w, step.ticket, false) {
      PutShrinks(cfg, w.st, w.running[step.ticket].gap, false, 0, step.now);
    } else if step.Answered? && Holds(w, step.ticket, true) {
      AnswerShrinks(cfg, w, step.ticket, step.answer, step.now);
    } else {
      assert AttemptNext(cfg, w, step).st.flows == w.st.flows;
    }
  }

  lemma KeepEpochs(w: World, w': World)
    requires EpochsOk(w) && w'.epochs == w.epochs
    requires FlowsShrink(w.st, w'.st) && w'.st.flows.Keys == w.st.flows.Keys
    ensures EpochsOk(w')
  {
    assert w.epochs == map hk | hk in w.epochs && hk in w'.st.flows :: w.epochs[hk];
    ShrinkEpochs(w, w');
  }

  lemma SweepEpochs(cfg: Config, w: World, visits: seq<Visit>, now: Time)
    requires EpochsOk(w)
    ensures EpochsOk(AfterSweep(cfg, w, visits, now))
  {
    SweepShrinks(cfg, w.st, visits, now);
    ShrinkEpochs(w, AfterSweep(cfg, w, visits, now));
  }

  lemma StepEpochs(cfg: Config, w: World, step: Step)
    requires FlowsOk(cfg, w.st, w.clock) && EpochsOk(w)
    ensures EpochsOk(Next(cfg, w, step))
  {
    if step.Arrive? {
      ArriveEpochs(cfg, w, step.a, step.dt, step.jitter);
    } else if step.Sweep? {
      SweepEpochs(cfg, w, step.visits, step.now);
    } else if step.FillGap? {
      KeepEpochs(w, w.(st := Fill(w.st, step.hashKey, step.seqNum)));
    } else {
      AttemptStepShrinks(cfg, w, step);
      KeepEpochs(w, AttemptNext(cfg, w, step));
    }
  }

  /** The law holds of every flow after every run. */
  lemma {:induction false} EveryRunEpochs(cfg: Config, t0: Time, steps: seq<Step>)
    ensures EpochsOk(Exec(cfg, Start(t0), steps))
  {
    if steps != [] {
      var n := |steps| - 1;
      EveryRunEpochs(cfg, t0, steps[..n]);
      EveryRunOk(cfg, t0, steps[..n]);
      StepEpochs(cfg, Exec(cfg, Start(t0), steps[..n]), steps[n]);
    }
  }

  // ------------------------------------------------- Consequences

  /** Does the step leave the flow's current epoch running? */
  ghost predicate KeepsEpoch(cfg: Config, w: World, step: Step, hk: uint64) {
    && hk in Next(cfg, w, step).st.flows
    && (step.Arrive? && step.a.hashKey == hk && step.a.seqNum != 0 ==> Continues(cfg, w, step.a))
  }

  lemma ArriveReopensNothing(cfg: Config, w: World, a: Arrival, dt: nat, jitter: Jitter, q: uint64)
    requires FlowsOk(cfg, w.st, w.clock) && EpochsOk(w)
    requires a.hashKey in w.epochs && w.epochs[a.hashKey].detected[q] > 0 && !IsPending(w.st, a.hashKey, q)
    requires a.seqNum != 0 && Continues(cfg, w, a)
    ensures !IsPending(AfterArrival(cfg, w, a, dt, jitter).st, a.hashKey, q)
  {
    var hk := a.hashKey;
    assert FlowOk(cfg, hk, w.st.flows[hk], w.clock);
    assert EpochLaw(w.epochs[hk], w.st.flows[hk].lastSeqNum, w.st.flows[hk].pending);
    assert DetectedOnce(w.epochs[hk], q);
    ContinuedFlow(cfg, FlowFor(w.st, a, Later(w.clock, dt)), a, Later(w.clock, dt), jitter);
  }

  /** In every reachable state, a gap of the current epoch that is closed stays closed. */
  lemma ClosedStaysClosed(cfg: Config, t0: Time, steps: seq<Step>, step: Step, w: World, hk: uint64, q: uint64)
    requires w == Exec(cfg, Start(t0), steps)
    requires hk in w.epochs && w.epochs[hk].detected[q] > 0 && !IsPending(w.st, hk, q)
    requires KeepsEpoch(cfg, w, step, hk)
    ensures !IsPending(Next(cfg, w, step).st, hk, q)
  {
    EveryRunOk(cfg, t0, steps);
    EveryRunEpochs(cfg, t0, steps);
    if step.Arrive? {
      if step.a.seqNum != 0 && step.a.hashKey == hk {
        ArriveReopensNothing(cfg, w, step.a, step.dt, step.jitter, q);
      }
    } else if step.Sweep? {
      SweepShrinks(cfg, w.st, step.visits, step.now);
    } else if IsAttemptStep(step) {
      AttemptStepShrinks(cfg, w, step);
    }
  }

  /** The counter moves back exactly when the frame reads as a restart, whatever the frame really was. */
  lemma RegressesIffRestart(cfg: Config, s: State, a: Arrival, clock: Time, now: Time, jitter: Jitter)
    requires FlowsOk(cfg, s, clock) && a.hashKey in s.flows && a.seqNum != 0
    ensures var last := s.flows[a.hashKey].lastSeqNum;
      var last' := Observe(cfg, s, a, now, jitter).flows[a.hashKey].lastSeqNum;
      var limit := if cfg.seqResetThreshold == 0 then 100 else cfg.seqResetThreshold;
      last' < last <==> a.seqNum <= limit < last
  {
    assert FlowOk(cfg, a.hashKey, s.flows[a.hashKey], clock);
    var f := FlowFor(s, a, now);
    if !IsRestart(cfg, f.lastSeqNum, a.seqNum) { ContinuedFlow(cfg, f, a, now, jitter); }
  }

  /**
   A frame that fills a pending gap closes that gap alone exactly when it does not
   read as a restart: the requested retransmit of a small number on a flow past
   the threshold gives up every other gap and rewinds the counter to itself.
   */
  lemma FillClosesOnlyItself(cfg: Config, s: State, a: Arrival, clock: Time, now: Time, jitter: Jitter)
    requires FlowsOk(cfg, s, clock) && IsPending(s, a.hashKey, a.seqNum)
    ensures var f, f' := s.flows[a.hashKey], Observe(cfg, s, a, now, jitter).flows[a.hashKey];
      var limit := if cfg.seqResetThreshold == 0 then 100 else cfg.seqResetThreshold;
      && f'.lastSeqNum <= f.lastSeqNum
      && ((f'.lastSeqNum == f.lastSeqNum && f'.pending == f.pending - {a.seqNum})
          <==> !(a.seqNum <= limit < f.lastSeqNum))
      && (a.seqNum <= limit < f.lastSeqNum ==> f'.lastSeqNum == a.seqNum && f'.pending == map[])
  {
    assert FlowOk(cfg, a.hashKey, s.flows[a.hashKey], clock);
    assert GapOk(cfg, a.hashKey, a.seqNum, s.flows[a.hashKey].pending[a.seqNum],
                 s.flows[a.hashKey].lastSeqNum, s.flows[a.hashKey].lastSeen);
  }

  /** A jump registers every skipped number, so the membership test of the loop never hits. */
  lemma JumpRegistersAll(cfg: Config, s: State, a: Arrival, clock: Time, now: Time, jitter: Jitter)
    requires FlowsOk(cfg, s, clock) && a.hashKey in s.flows
    requires a.seqNum > s.flows[a.hashKey].lastSeqNum
    ensures Classify(cfg, Filled(FlowFor(s, a, now), a.seqNum), a, now, jitter).detected ==
      a.seqNum - s.flows[a.hashKey].lastSeqNum - 1
  {
    assert FlowOk(cfg, a.hashKey, s.flows[a.hashKey], clock);
    var f := Filled(FlowFor(s, a, now), a.seqNum);
    RegisterCount(cfg, f.pending, f.lastSeqNum + 1, a.seqNum, a, now, jitter);
  }

  lemma {:induction false} RegisterCount(cfg: Config, pending: map<uint64, Gap>, lo: nat, hi: nat,
                                         a: Arrival, now: Time, jitter: Jitter)
    requires lo <= hi <= TWO64
    requires forall q :: q in pending ==> q < lo
    ensures Register(cfg, pending, lo, hi, a, now, jitter).count == hi - lo
    decreases hi
  {
    if lo < hi {
      RegisterCount(cfg, pending, lo, hi - 1, a, now, jitter);
      RegisterContents(cfg, pending, lo, hi - 1, a, now, jitter);
      assert hi - 1 !in Register(cfg, pending, lo, hi - 1, a, now, jitter).pending;
    }
  }
}
