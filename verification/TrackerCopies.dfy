/**
 Exactly when copies of a gap pile up. In every run, resets and evictions
 included, at most one copy of a gap is out at all times if and only if no sweep
 enqueues the gap while a copy of it is out.
 */
module TrackerCopies {
  import opened Common
  import opened TrackerSpec
  import opened TrackerRuns
  import opened TrackerInvariant

  ghost predicate Queued(queue: seq<Gap>, id: GapId, i: int) { 0 <= i < |queue| && IdOf(queue[i]) == id }

  ghost predicate Running(running: map<nat, Attempt>, id: GapId, t: nat) {
    t in running && IdOf(running[t].gap) == id
  }

  ghost predicate NoCopies(queue: seq<Gap>, running: map<nat, Attempt>, id: GapId) {
    (forall i :: !Queued(queue, id, i)) && (forall t :: !Running(running, id, t))
  }

  /** At most one copy of the gap is queued or held by a goroutine. */
  ghost predicate OneCopy(queue: seq<Gap>, running: map<nat, Attempt>, id: GapId) {
    && (forall i, j :: Queued(queue, id, i) && Queued(queue, id, j) ==> i == j)
    && (forall t, u :: Running(running, id, t) && Running(running, id, u) ==> t == u)
    && (forall i, t :: Queued(queue, id, i) ==> !Running(running, id, t))
  }

  /**
   When a visit puts a second copy of a gap in circulation: exactly when a copy is
   out, its hold-off is over, the gap is not given up and the queue has room.
   */
  lemma SecondCopyIff(cfg: Config, s: State, running: map<nat, Attempt>, hk: uint64, q: uint64, now: Time)
    requires IsPending(s, hk, q) && IdOf(s.flows[hk].pending[q]) == (hk, q) && OneCopy(s.queue, running, (hk, q))
    ensures var g := s.flows[hk].pending[q];
      !OneCopy(SweepGap(cfg, s, hk, q, now).queue, running, (hk, q)) <==>
        && !NoCopies(s.queue, running, (hk, q))
        && g.nextAttempt < now <= g.deadline && g.retries < cfg.maxRetries && |s.queue| < 4096
  {
    var g := s.flows[hk].pending[q];
    var queue := SweepGap(cfg, s, hk, q, now).queue;
    var n := |s.queue|;
    if now > g.nextAttempt && !IsDead(cfg, g, now) && n < QUEUE_CAP {
      assert Queued(queue, (hk, q), n);
      forall i | 0 <= i < n ensures Queued(queue, (hk, q), i) <==> Queued(s.queue, (hk, q), i) {
        assert queue[i] == s.queue[i];
      }
      if i :| Queued(s.queue, (hk, q), i) {
        assert Queued(queue, (hk, q), i);
      }
    } else {
      assert queue == s.queue;
    }
  }

  /** A visit of the gap that enqueues it finds no copy out. */
  ghost predicate VisitClear(cfg: Config, s: State, running: map<nat, Attempt>, v: Visit, now: Time, id: GapId) {
    v == VisitGap(id.0, id.1) && IsPending(s, id.0, id.1) && Enqueues(cfg, s, id, now) ==>
      NoCopies(s.queue, running, id)
  }

  ghost predicate Enqueues(cfg: Config, s: State, id: GapId, now: Time)
    requires IsPending(s, id.0, id.1)
  {
    var g := s.flows[id.0].pending[id.1];
    g.nextAttempt < now <= g.deadline && g.retries < cfg.maxRetries && |s.queue| < 4096
  }

  ghost predicate SweepClear(cfg: Config, s: State, running: map<nat, Attempt>, visits: seq<Visit>, now: Time,
                             id: GapId) {
    visits != [] ==>
      var n := |visits| - 1;
      && SweepClear(cfg, s, running, visits[..n], now, id)
      && VisitClear(cfg, SweepAll(cfg, s, visits[..n], now), running, visits[n], now, id)
  }

  ghost predicate StepClear(cfg: Config, w: World, step: Step, id: GapId) {
    step.Sweep? && CompleteOrder(w.st.flows, step.visits) ==>
      SweepClear(cfg, w.st, w.running, step.visits, step.now, id)
  }

  ghost predicate RunClear(cfg: Config, w: World, steps: seq<Step>, id: GapId) {
    steps != [] ==>
      var n := |steps| - 1;
      RunClear(cfg, w, steps[..n], id) && StepClear(cfg, Exec(cfg, w, steps[..n]), steps[n], id)
  }

  /** At most one copy after every prefix of the run. */
  ghost predicate AlwaysOneCopy(cfg: Config, w: World, steps: seq<Step>, id: GapId) {
    && OneCopy(Exec(cfg, w, steps).st.queue, Exec(cfg, w, steps).running, id)
    && (steps != [] ==> AlwaysOneCopy(cfg, w, steps[..|steps| - 1], id))
  }

  /** Fewer queued copies, still at most one. */
  lemma PrefixOneCopy(queue: seq<Gap>, longer: seq<Gap>, running: map<nat, Attempt>, id: GapId)
    requires queue <= longer && OneCopy(longer, running, id)
    ensures OneCopy(queue, running, id)
  {
    forall i | Queued(queue, id, i) ensures Queued(longer, id, i) {
      assert queue[i] == longer[i];
    }
  }

  lemma QueuedElsewhere(queue: seq<Gap>, e: Gap, running: map<nat, Attempt>, id: GapId)
    requires IdOf(e) != id && OneCopy(queue, running, id)
    ensures OneCopy(queue + [e], running, id)
  {
    forall i | Queued(queue + [e], id, i) ensures Queued(queue, id, i) {
    }
  }

  lemma VisitAppends(cfg: Config, s: State, v: Visit, now: Time)
    ensures s.queue <= SweepVisit(cfg, s, v, now).queue
  {
  }

  /** One visit keeps to one copy exactly when it is clear. */
  lemma VisitOneCopyIff(cfg: Config, s: State, running: map<nat, Attempt>, v: Visit, now: Time, id: GapId, clock: Time)
    requires FlowsOk(cfg, s, clock) && OneCopy(s.queue, running, id)
    ensures OneCopy(SweepVisit(cfg, s, v, now).queue, running, id) <==> VisitClear(cfg, s, running, v, now, id)
  {
    if v.VisitGap? && IsPending(s, v.hashKey, v.seqNum) {
      var g := s.flows[v.hashKey].pending[v.seqNum];
      assert GapOk(cfg, v.hashKey, v.seqNum, g, s.flows[v.hashKey].lastSeqNum, s.flows[v.hashKey].lastSeen);
      if (v.hashKey, v.seqNum) == id {
        SecondCopyIff(cfg, s, running, v.hashKey, v.seqNum, now);
      } else {
        QueuedElsewhere(s.queue, g.(nextAttempt := now + HOLD_OFF), running, id);
      }
    }
  }

  lemma {:induction false} SweepOneCopyIff(cfg: Config, s: State, running: map<nat, Attempt>, visits: seq<Visit>,
                                           now: Time,
                                           id: GapId, clock: Time)
    requires FlowsOk(cfg, s, clock) && OneCopy(s.queue, running, id)
    ensures OneCopy(SweepAll(cfg, s, visits, now).queue, running, id) <==> SweepClear(cfg, s, running, visits, now, id)
  {
    if visits != [] {
      var n := |visits| - 1;
      var mid := SweepAll(cfg, s, visits[..n], now);
      SweepOneCopyIff(cfg, s, running, visits[..n], now, id, clock);
      if OneCopy(mid.queue, running, id) {
        SweepOk(cfg, s, visits[..n], now, clock);
        VisitOneCopyIff(cfg, mid, running, visits[n], now, id, clock);
      } else {
        VisitAppends(cfg, mid, visits[n], now);
        if OneCopy(SweepVisit(cfg, mid, visits[n], now).queue, running, id) {
          PrefixOneCopy(mid.queue, SweepVisit(cfg, mid, visits[n], now).queue, running, id);
        }
      }
    }
  }

  lemma DispatchOneCopy(queue: seq<Gap>, running: map<nat, Attempt>, id: GapId, t: nat)
    requires OneCopy(queue, running, id) && queue != [] && t !in running
    ensures OneCopy(queue[1..], running[t := Attempt(queue[0], None)], id)
  {
    forall i | Queued(queue[1..], id, i) ensures Queued(queue, id, i + 1) {
      assert queue[1..][i] == queue[i + 1];
    }
    var running' := running[t := Attempt(queue[0], None)];
    assert IdOf(queue[0]) == id ==> Queued(queue, id, 0);
    forall u | Running(running', id, u) ensures (u == t && IdOf(queue[0]) == id) || Running(running, id, u) {
    }
    forall i | Queued(queue[1..], id, i) ensures IdOf(queue[0]) != id {
      assert Queued(queue, id, i + 1);
    }
  }

  /** Fewer held copies, still at most one. */
  lemma HeldOneCopy(queue: seq<Gap>, running: map<nat, Attempt>, fewer: map<nat, Attempt>, id: GapId)
    requires OneCopy(queue, running, id)
    requires forall t :: t in fewer ==> t in running && fewer[t].gap == running[t].gap
    ensures OneCopy(queue, fewer, id)
  {
    forall t | Running(fewer, id, t) ensures Running(running, id, t) {
    }
  }

  lemma OtherStepAddsNone(cfg: Config, w: World, step: Step)
    requires !step.Sweep? && (step.Dispatch? ==> w.st.queue == [] || step.ticket in w.running)
    ensures Next(cfg, w, step).st.queue == w.st.queue
    ensures forall t :: t in Next(cfg, w, step).running ==>
      t in w.running && Next(cfg, w, step).running[t].gap == w.running[t].gap
  {
  }

  /** Only sweeps add copies. */
  lemma OtherStepOneCopy(cfg: Config, w: World, step: Step, id: GapId)
    requires OneCopy(w.st.queue, w.running, id) && !step.Sweep?
    ensures OneCopy(Next(cfg, w, step).st.queue, Next(cfg, w, step).running, id)
  {
    if step.Dispatch? && w.st.queue != [] && step.ticket !in w.running {
      DispatchOneCopy(w.st.queue, w.running, id, step.ticket);
    } else {
      OtherStepAddsNone(cfg, w, step);
      HeldOneCopy(w.st.queue, w.running, Next(cfg, w, step).running, id);
    }
  }

  lemma StepOneCopyIff(cfg: Config, w: World, step: Step, id: GapId)
    requires FlowsOk(cfg, w.st, w.clock) && OneCopy(w.st.queue, w.running, id)
    ensures OneCopy(Next(cfg, w, step).st.queue, Next(cfg, w, step).running, id) <==> StepClear(cfg, w, step, id)
  {
    if step.Sweep? {
      SweepOneCopyIff(cfg, w.st, w.running, step.visits, step.now, id, w.clock);
    } else {
      OtherStepOneCopy(cfg, w, step, id);
    }
  }

  /** The law over whole runs, both ways. */
  lemma {:induction false} OneCopyIff(cfg: Config, t0: Time, steps: seq<Step>, id: GapId)
    ensures AlwaysOneCopy(cfg, Start(t0), steps, id) <==> RunClear(cfg, Start(t0), steps, id)
  {
    if steps != [] {
      var n := |steps| - 1;
      var w := Exec(cfg, Start(t0), steps[..n]);
      OneCopyIff(cfg, t0, steps[..n], id);
      EveryRunOk(cfg, t0, steps[..n]);
      if AlwaysOneCopy(cfg, Start(t0), steps[..n], id) {
        StepOneCopyIff(cfg, w, steps[n], id);
      }
    }
  }
}
