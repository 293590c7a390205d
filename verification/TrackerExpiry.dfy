/** What a sweep does, stated without its visiting order, and the silence it turns into an empty tracker. */
module TrackerExpiry {
  import opened Common
  import opened TrackerSpec
  import opened TrackerRuns
  import opened TrackerInvariant

  /** A surviving gap is untouched, or due and queued as a copy, or due and refused by a full queue. */
  ghost predicate Survives(g: Gap, g': Gap, now: Time, before: seq<Gap>, after: seq<Gap>)
    requires |before| <= |after|
  {
    if now > g.nextAttempt then
      || (g' == g.(nextAttempt := now + 400 * MILLISECOND) && g' in after[|before|..])
      || (g' == g.(nextAttempt := now) && |after| >= 4096)
    else g' == g
  }

  /** The part of a sweep's outcome that concerns one gap, once it has been visited. */
  ghost predicate GapSwept(cfg: Config, s: State, s': State, hk: uint64, q: uint64, now: Time)
    requires IsPending(s, hk, q) && hk in s'.flows && s.queue <= s'.queue
  {
    var g := s.flows[hk].pending[q];
    if now > g.deadline || g.retries >= cfg.maxRetries then q !in s'.flows[hk].pending
    else q in s'.flows[hk].pending && Survives(g, s'.flows[hk].pending[q], now, s.queue, s'.queue)
  }

  /** A flow goes exactly when its last frame is old and no gap of it survives. */
  ghost predicate Leaves(cfg: Config, f: Flow, now: Time) {
    && now - f.lastSeen > (if cfg.tailTTL <= 0 then cfg.gapTTL else cfg.tailTTL)
    && forall q :: q in f.pending ==> now > f.pending[q].deadline || f.pending[q].retries >= cfg.maxRetries
  }

  ghost predicate SameFlow(f: Flow, f': Flow) { f' == f.(pending := f'.pending) && f'.pending.Keys <= f.pending.Keys }

  /** How far a sweep has come after a given prefix of its visits. */
  ghost predicate Partway(cfg: Config, s: State, s': State, visits: seq<Visit>, now: Time) {
    && s.queue <= s'.queue
    && s'.flows.Keys <= s.flows.Keys
    && (forall hk :: hk in s'.flows ==> SameFlow(s.flows[hk], s'.flows[hk]))
    && (forall hk, q :: hk in s'.flows && q in s.flows[hk].pending ==>
          if VisitGap(hk, q) in visits then GapSwept(cfg, s, s', hk, q, now)
          else q in s'.flows[hk].pending && s'.flows[hk].pending[q] == s.flows[hk].pending[q])
    && (forall hk :: hk in s.flows ==>
          (hk !in s'.flows <==> VisitIdle(hk) in visits && Leaves(cfg, s.flows[hk], now)))
  }

  /** A gap that has been dealt with stays dealt with while the queue grows. */
  lemma StillSwept(cfg: Config, s: State, s': State, s'': State, now: Time, hk: uint64, q: uint64)
    requires IsPending(s, hk, q) && hk in s'.flows && hk in s''.flows && s.queue <= s'.queue <= s''.queue
    requires GapSwept(cfg, s, s', hk, q, now)
    requires q in s''.flows[hk].pending <==> q in s'.flows[hk].pending
    requires q in s'.flows[hk].pending ==> s''.flows[hk].pending[q] == s'.flows[hk].pending[q]
    ensures GapSwept(cfg, s, s'', hk, q, now)
  {
    if q in s'.flows[hk].pending {
      var n, g' := |s.queue|, s'.flows[hk].pending[q];
      if g' in s'.queue[n..] {
        assert s''.queue[n..] == s'.queue[n..] + s''.queue[|s'.queue|..];
      }
    }
  }

  /** The visit itself decides its gap and leaves every other gap alone. */
  lemma VisitEffect(cfg: Config, s: State, s': State, s'': State, now: Time, hk: uint64, q: uint64)
    requires IsPending(s, hk, q) && IsPending(s', hk, q) && s.queue <= s'.queue
    requires s'.flows[hk].pending[q] == s.flows[hk].pending[q] && s'' == SweepGap(cfg, s', hk, q, now)
    ensures s'.queue <= s''.queue && s''.flows.Keys == s'.flows.Keys
    ensures GapSwept(cfg, s, s'', hk, q, now)
    ensures s''.flows[hk] == s'.flows[hk].(pending := s''.flows[hk].pending)
    ensures forall k :: k in s'.flows && k != hk ==> s''.flows[k] == s'.flows[k]
    ensures forall r :: r != q ==> (r in s''.flows[hk].pending <==> r in s'.flows[hk].pending)
    ensures forall r :: r != q && r in s'.flows[hk].pending ==> s''.flows[hk].pending[r] == s'.flows[hk].pending[r]
  {
    var g := s'.flows[hk].pending[q];
    if !IsDead(cfg, g, now) && now > g.nextAttempt && |s'.queue| < QUEUE_CAP {
      var n := |s.queue|;
      assert s''.queue[n..] == s'.queue[n..] + [g.(nextAttempt := now + HOLD_OFF)];
    }
  }

  lemma VisitedGap(cfg: Config, s: State, s': State, visits: seq<Visit>, now: Time, hk: uint64, q: uint64)
    requires Partway(cfg, s, s', visits, now) && VisitGap(hk, q) !in visits
    requires hk in s'.flows && q in s.flows[hk].pending
    ensures Partway(cfg, s, SweepVisit(cfg, s', VisitGap(hk, q), now), visits + [VisitGap(hk, q)], now)
  {
    var s'' := SweepGap(cfg, s', hk, q, now);
    VisitEffect(cfg, s, s', s'', now, hk, q);
    forall k, r | k in s''.flows && r in s.flows[k].pending
      ensures if VisitGap(k, r) in visits + [VisitGap(hk, q)] then GapSwept(cfg, s, s'', k, r, now)
              else r in s''.flows[k].pending && s''.flows[k].pending[r] == s.flows[k].pending[r]
    {
      if (k, r) != (hk, q) && VisitGap(k, r) in visits {
        StillSwept(cfg, s, s', s'', now, k, r);
      }
    }
  }

  lemma VisitedIdle(cfg: Config, s: State, s': State, visits: seq<Visit>, now: Time, hk: uint64)
    requires Partway(cfg, s, s', visits, now) && VisitIdle(hk) !in visits && hk in s.flows
    requires forall q :: q in s.flows[hk].pending ==> VisitGap(hk, q) in visits
    ensures Partway(cfg, s, SweepVisit(cfg, s', VisitIdle(hk), now), visits + [VisitIdle(hk)], now)
  {
    var s'' := SweepVisit(cfg, s', VisitIdle(hk), now);
    assert hk in s'.flows;
    assert Leaves(cfg, s.flows[hk], now) <==> IsIdle(cfg, s'.flows[hk], now) by {
      if forall q :: q in s.flows[hk].pending ==> IsDead(cfg, s.flows[hk].pending[q], now) {
        forall q | q in s.flows[hk].pending ensures q !in s'.flows[hk].pending {
          assert GapSwept(cfg, s, s', hk, q, now);
        }
        assert s'.flows[hk].pending.Keys == {};
      } else {
        var q :| q in s.flows[hk].pending && !IsDead(cfg, s.flows[hk].pending[q], now);
        assert GapSwept(cfg, s, s', hk, q, now);
      }
    }
    forall k, r | k in s''.flows && r in s.flows[k].pending && VisitGap(k, r) in visits
      ensures GapSwept(cfg, s, s'', k, r, now)
    {
      assert GapSwept(cfg, s, s', k, r, now);
    }
  }

  /** In a complete order, a flow's gaps come before its idle test. */
  lemma GapsFirst(flows: map<uint64, Flow>, visits: seq<Visit>, n: nat)
    requires CompleteOrder(flows, visits) && n < |visits|
    ensures visits[n] !in visits[..n] && visits[n].hashKey in flows
    ensures visits[n].VisitGap? ==>
      visits[n].seqNum in flows[visits[n].hashKey].pending && VisitIdle(visits[n].hashKey) !in visits[..n]
    ensures visits[n].VisitIdle? ==>
      forall q :: q in flows[visits[n].hashKey].pending ==> VisitGap(visits[n].hashKey, q) in visits[..n]
  {
    var v := visits[n];
    assert v in visits && IsVisitOf(flows, v);
    if v.VisitIdle? {
      forall q | q in flows[v.hashKey].pending
        ensures VisitGap(v.hashKey, q) in visits[..n]
      {
        assert IsVisitOf(flows, VisitGap(v.hashKey, q));
        var j :| 0 <= j < |visits| && visits[j] == VisitGap(v.hashKey, q);
        assert IdleOf(visits[n], visits[j]);
      }
    } else {
      forall i | 0 <= i < n ensures visits[i] != VisitIdle(v.hashKey) {
        assert !IdleOf(visits[i], visits[n]);
      }
    }
  }

  lemma {:induction false} SweptPartway(cfg: Config, s: State, visits: seq<Visit>, now: Time, n: nat)
    requires CompleteOrder(s.flows, visits) && n <= |visits|
    ensures Partway(cfg, s, SweepAll(cfg, s, visits[..n], now), visits[..n], now)
    decreases n
  {
    if n == 0 {
      assert visits[..0] == [];
    } else {
      var before, v := visits[..n - 1], visits[n - 1];
      SweptPartway(cfg, s, visits, now, n - 1);
      GapsFirst(s.flows, visits, n - 1);
      assert visits[..n] == before + [v] && visits[..n][..n - 1] == before;
      if v.VisitGap? {
        VisitedGap(cfg, s, SweepAll(cfg, s, before, now), before, now, v.hashKey, v.seqNum);
      } else {
        VisitedIdle(cfg, s, SweepAll(cfg, s, before, now), before, now, v.hashKey);
      }
    }
  }

  /**
   The outcome of a sweep does not depend on the order of its visits, except for
   which due gaps find room in the queue: exactly the dead gaps are gone, exactly
   the flows that leave are gone, and a due gap is queued unless the queue is full.
   */
  lemma SweepOutcome(cfg: Config, s: State, visits: seq<Visit>, now: Time, s': State)
    requires CompleteOrder(s.flows, visits) && s' == SweepAll(cfg, s, visits, now)
    ensures s.queue <= s'.queue
    ensures forall hk :: hk in s'.flows <==> hk in s.flows && !Leaves(cfg, s.flows[hk], now)
    ensures forall hk :: hk in s'.flows ==> SameFlow(s.flows[hk], s'.flows[hk])
    ensures forall hk, q :: hk in s'.flows && q in s.flows[hk].pending ==> GapSwept(cfg, s, s', hk, q, now)
  {
    SweptPartway(cfg, s, visits, now, |visits|);
    assert visits[..|visits|] == visits;
    forall hk | hk in s.flows ensures VisitIdle(hk) in visits {
      assert IsVisitOf(s.flows, VisitIdle(hk));
    }
    forall hk, q | hk in s'.flows && q in s.flows[hk].pending
      ensures GapSwept(cfg, s, s', hk, q, now)
    {
      assert IsVisitOf(s.flows, VisitGap(hk, q));
    }
  }

  /** When the latest stamped frame of the flow arrived. */
  ghost function LastArrival(cfg: Config, t0: Time, steps: seq<Step>, hk: uint64): Time {
    if steps == [] then t0 else
      var step := steps[|steps| - 1];
      if step.Arrive? && step.a.hashKey == hk && step.a.seqNum != 0 then Exec(cfg, Start(t0), steps).clock
      else LastArrival(cfg, t0, steps[..|steps| - 1], hk)
  }

  lemma AttemptsKeepSeen(cfg: Config, w: World, step: Step, hk: uint64)
    requires IsAttemptStep(step)
    ensures hk in AttemptNext(cfg, w, step).st.flows ==>
      hk in w.st.flows && AttemptNext(cfg, w, step).st.flows[hk].lastSeen == w.st.flows[hk].lastSeen
  {
  }

  lemma {:induction false} LastSeenIsLastArrival(cfg: Config, t0: Time, steps: seq<Step>, hk: uint64)
    requires hk in Exec(cfg, Start(t0), steps).st.flows
    ensures Exec(cfg, Start(t0), steps).st.flows[hk].lastSeen == LastArrival(cfg, t0, steps, hk)
  {
    if steps != [] {
      var n := |steps| - 1;
      var w, step := Exec(cfg, Start(t0), steps[..n]), steps[n];
      if step.Sweep? && CompleteOrder(w.st.flows, step.visits) {
        SweepOutcome(cfg, w.st, step.visits, step.now, SweepAll(cfg, w.st, step.visits, step.now));
      } else if IsAttemptStep(step) {
        AttemptsKeepSeen(cfg, w, step, hk);
      }
      if hk in w.st.flows { LastSeenIsLastArrival(cfg, t0, steps[..n], hk); }
    }
  }

  /**
   In every reachable state, a sweep later than a flow's last frame plus the gap
   TTL leaves the flow no pending gap, and one also later than the last frame
   plus the flow TTL removes it.
   */
  lemma SilenceExpires(cfg: Config, t0: Time, steps: seq<Step>, w: World, visits: seq<Visit>, now: Time, hk: uint64)
    requires w == Exec(cfg, Start(t0), steps) && CompleteOrder(w.st.flows, visits)
    requires hk in w.st.flows && now > LastArrival(cfg, t0, steps, hk) + cfg.gapTTL
    ensures var s' := Next(cfg, w, Sweep(visits, now)).st;
      if now > LastArrival(cfg, t0, steps, hk) + (if cfg.tailTTL <= 0 then cfg.gapTTL else cfg.tailTTL)
      then hk !in s'.flows
      else hk in s'.flows && s'.flows[hk].pending == map[]
  {
    EveryRunOk(cfg, t0, steps);
    LastSeenIsLastArrival(cfg, t0, steps, hk);
    var s, s' := w.st, SweepAll(cfg, w.st, visits, now);
    SweepOutcome(cfg, s, visits, now, s');
    var f := s.flows[hk];
    assert FlowOk(cfg, hk, f, w.clock);
    forall q | q in f.pending ensures IsDead(cfg, f.pending[q], now) {
      assert GapOk(cfg, hk, q, f.pending[q], f.lastSeqNum, f.lastSeen);
    }
    if hk in s'.flows {
      forall q | q in f.pending ensures q !in s'.flows[hk].pending {
        assert GapSwept(cfg, s, s', hk, q, now);
      }
      assert s'.flows[hk].pending.Keys == {};
    }
  }

  /** A sweep later than the last arrival of any flow by both TTLs empties the tracker. */
  lemma SilenceEmpties(cfg: Config, t0: Time, steps: seq<Step>, w: World, visits: seq<Visit>, now: Time)
    requires w == Exec(cfg, Start(t0), steps) && CompleteOrder(w.st.flows, visits)
    requires now > w.clock + cfg.gapTTL && now > w.clock + cfg.tailTTL
    ensures Next(cfg, w, Sweep(visits, now)).st.flows == map[]
  {
    var s' := SweepAll(cfg, w.st, visits, now);
    EveryRunOk(cfg, t0, steps);
    SweepOutcome(cfg, w.st, visits, now, s');
    forall hk | hk in w.st.flows ensures hk !in s'.flows {
      assert FlowOk(cfg, hk, w.st.flows[hk], w.clock);
      LastSeenIsLastArrival(cfg, t0, steps, hk);
      SilenceExpires(cfg, t0, steps, w, visits, now, hk);
    }
    assert s'.flows.Keys == {};
  }
}
