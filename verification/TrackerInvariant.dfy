/** What every step keeps of every flow record. */
module TrackerInvariant {
  import opened Common
  import opened TrackerSpec
  import opened TrackerRuns

  /**
   A pending gap lies below the flow's counter, sits under its own keys, has
   advanced its endpoint with every retry, and never outlives the flow's last
   frame by more than the gap TTL.
   */
  ghost predicate GapOk(cfg: Config, hk: uint64, q: uint64, g: Gap, last: uint64, seen: Time) {
    && 0 < q < last && g.hashKey == hk && g.seqNum == q
    && g.retries == g.endpointIdx
    && g.deadline <= seen + cfg.gapTTL
  }

  ghost predicate PendingOk(cfg: Config, hk: uint64, pending: map<uint64, Gap>, last: uint64, seen: Time) {
    forall q :: q in pending ==> GapOk(cfg, hk, q, pending[q], last, seen)
  }

  ghost predicate FlowOk(cfg: Config, hk: uint64, f: Flow, clock: Time) {
    && 0 < f.lastSeqNum && f.lastSeen <= clock
    && PendingOk(cfg, hk, f.pending, f.lastSeqNum, f.lastSeen)
  }

  ghost predicate FlowsOk(cfg: Config, s: State, clock: Time) {
    forall hk :: hk in s.flows ==> FlowOk(cfg, hk, s.flows[hk], clock)
  }

  /** What the registering loop leaves behind: old gaps untouched, new ones fresh, one count per new gap. */
  lemma {:induction false} RegisterContents(cfg: Config, pending: map<uint64, Gap>, lo: nat, hi: nat,
                                            a: Arrival, now: Time, jitter: Jitter)
    requires hi <= TWO64
    ensures var r := Register(cfg, pending, lo, hi, a, now, jitter);
      && (forall q: uint64 :: q in r.pending <==> q in pending || lo <= q < hi)
      && (forall q :: q in r.pending ==>
            r.pending[q] == if q in pending then pending[q] else NewGap(cfg, a, q, now, jitter))
      && |r.pending| == |pending| + r.count
    decreases hi
  {
    if lo < hi {
      RegisterContents(cfg, pending, lo, hi - 1, a, now, jitter);
    }
  }

  lemma ClassifyOk(cfg: Config, f: Flow, a: Arrival, now: Time, jitter: Jitter)
    requires 0 < a.seqNum && f.lastSeen == now
    requires f.lastSeqNum == 0 ==> f.pending == map[]
    requires PendingOk(cfg, a.hashKey, f.pending, f.lastSeqNum, now)
    ensures FlowOk(cfg, a.hashKey, Classify(cfg, f, a, now, jitter).flow, now)
  {
    if f.lastSeqNum != 0 && a.seqNum > f.lastSeqNum + 1 {
      RegisterContents(cfg, f.pending, f.lastSeqNum + 1, a.seqNum, a, now, jitter);
    }
  }

  lemma ObserveOk(cfg: Config, s: State, a: Arrival, clock: Time, now: Time, jitter: Jitter)
    requires FlowsOk(cfg, s, clock) && clock <= now
    ensures FlowsOk(cfg, Observe(cfg, s, a, now, jitter), now)
  {
    if a.seqNum != 0 {
      ClassifyOk(cfg, Filled(FlowFor(s, a, now), a.seqNum), a, now, jitter);
    }
  }

  lemma SetPendingOk(cfg: Config, s: State, hk: uint64, pending: map<uint64, Gap>, clock: Time)
    requires FlowsOk(cfg, s, clock) && hk in s.flows
    requires PendingOk(cfg, hk, pending, s.flows[hk].lastSeqNum, s.flows[hk].lastSeen)
    ensures FlowsOk(cfg, SetPending(s, hk, pending), clock)
  {
  }

  lemma DropOk(cfg: Config, s: State, hk: uint64, q: uint64, clock: Time)
    requires FlowsOk(cfg, s, clock) && IsPending(s, hk, q)
    ensures FlowsOk(cfg, Drop(s, hk, q), clock)
  {
    SetPendingOk(cfg, s, hk, s.flows[hk].pending - {q}, clock);
  }

  lemma PutOk(cfg: Config, s: State, hk: uint64, q: uint64, g: Gap, clock: Time)
    requires FlowsOk(cfg, s, clock) && IsPending(s, hk, q)
    requires GapOk(cfg, hk, q, g, s.flows[hk].lastSeqNum, s.flows[hk].lastSeen)
    ensures FlowsOk(cfg, Put(s, hk, q, g), clock)
  {
    SetPendingOk(cfg, s, hk, s.flows[hk].pending[q := g], clock);
  }

  lemma AdvanceOk(cfg: Config, s: State, e: Gap, immediate: bool, n: nat, now: Time, clock: Time)
    requires FlowsOk(cfg, s, clock)
    ensures FlowsOk(cfg, AdvanceEndpoint(cfg, s, e, immediate, n, now), clock)
  {
    if IsPending(s, e.hashKey, e.seqNum) {
      PutOk(cfg, s, e.hashKey, e.seqNum,
            Advanced(cfg, s.flows[e.hashKey].pending[e.seqNum], immediate, n, now), clock);
    }
  }

  lemma CancelOk(cfg: Config, s: State, e: Gap, clock: Time)
    requires FlowsOk(cfg, s, clock)
    ensures FlowsOk(cfg, CancelGap(s, e), clock)
  {
    if IsPending(s, e.hashKey, e.seqNum) { DropOk(cfg, s, e.hashKey, e.seqNum, clock); }
  }

  lemma VisitOk(cfg: Config, s: State, v: Visit, now: Time, clock: Time)
    requires FlowsOk(cfg, s, clock)
    ensures FlowsOk(cfg, SweepVisit(cfg, s, v, now), clock)
  {
    if v.VisitGap? && IsPending(s, v.hashKey, v.seqNum) {
      var g := s.flows[v.hashKey].pending[v.seqNum];
      DropOk(cfg, s, v.hashKey, v.seqNum, clock);
      PutOk(cfg, s, v.hashKey, v.seqNum, g.(nextAttempt := now + HOLD_OFF), clock);
      PutOk(cfg, s, v.hashKey, v.seqNum, g.(nextAttempt := now), clock);
    }
  }

  lemma {:induction false} SweepOk(cfg: Config, s: State, visits: seq<Visit>, now: Time, clock: Time)
    requires FlowsOk(cfg, s, clock)
    ensures FlowsOk(cfg, SweepAll(cfg, s, visits, now), clock)
  {
    if visits != [] {
      var n := |visits| - 1;
      SweepOk(cfg, s, visits[..n], now, clock);
      VisitOk(cfg, SweepAll(cfg, s, visits[..n], now), visits[n], now, clock);
    }
  }

  lemma AttemptStepOk(cfg: Config, w: World, step: Step)
    requires FlowsOk(cfg, w.st, w.clock) && IsAttemptStep(step)
    ensures FlowsOk(cfg, AttemptNext(cfg, w, step).st, w.clock)
  {
    if step.Fail? && Holds(w, step.ticket, false) {
      AdvanceOk(cfg, w.st, w.running[step.ticket].gap, false, 0, step.now, w.clock);
    } else if step.Answered? && Holds(w, step.ticket, true) {
      var e := w.running[step.ticket].gap;
      match step.answer
      case Ack => CancelOk(cfg, w.st, e, w.clock);
      case Miss => AdvanceOk(cfg, w.st, e, true, |w.running[step.ticket].sentTo.value|, step.now, w.clock);
      case Silence => AdvanceOk(cfg, w.st, e, false, 0, step.now, w.clock);
    }
  }

  lemma StepOk(cfg: Config, w: World, step: Step)
    requires FlowsOk(cfg, w.st, w.clock)
    ensures FlowsOk(cfg, Next(cfg, w, step).st, Next(cfg, w, step).clock)
  {
    if IsAttemptStep(step) {
      AttemptStepOk(cfg, w, step);
    } else if step.Arrive? {
      ObserveOk(cfg, w.st, step.a, w.clock, Later(w.clock, step.dt), step.jitter);
    } else if step.FillGap? {
      if IsPending(w.st, step.hashKey, step.seqNum) { DropOk(cfg, w.st, step.hashKey, step.seqNum, w.clock); }
    } else {
      SweepOk(cfg, w.st, step.visits, step.now, w.clock);
    }
  }

  /** The invariant holds after every run from the empty tracker. */
  lemma {:induction false} EveryRunOk(cfg: Config, t0: Time, steps: seq<Step>)
    ensures FlowsOk(cfg, Exec(cfg, Start(t0), steps).st, Exec(cfg, Start(t0), steps).clock)
  {
    if steps != [] {
      var n := |steps| - 1;
      EveryRunOk(cfg, t0, steps[..n]);
      StepOk(cfg, Exec(cfg, Start(t0), steps[..n]), steps[n]);
    }
  }
}
