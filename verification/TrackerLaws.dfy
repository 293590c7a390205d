/**
 The tracker's operations over reachable states, told in the fields a caller can
 see: what an arrival does to its flow, what a sweep closes and queues, and when a
 gap is asked for again.
 */
module TrackerLaws {
  import opened Common
  import opened TrackerSpec
  import opened TrackerRuns
  import opened TrackerInvariant
  import opened TrackerConservation
  import opened TrackerEpochs
  import opened TrackerCopies
  import opened TrackerAttempts
  import opened TrackerExpiry
  import opened TrackerBackoff

  lemma LabelLaw(groupIdx: uint32)
    ensures LabelOf(groupIdx) == if groupIdx == 0xFFFE then Brc131 else if groupIdx == 0xFFFB then Brc132 else Brc124
  {
  }

  /** The counter went up by n under one label and stayed under the others. */
  ghost predicate Booked(t: Tally, t': Tally, kind: FlowLabel, n: int) {
    forall labels :: t'.In(labels) == t.In(labels) + if kind in labels then n else 0
  }

  lemma AddBooks(t: Tally, kind: FlowLabel, n: nat)
    ensures Booked(t, t.Add(kind, n), kind, n)
  {
    forall labels ensures t.Add(kind, n).In(labels) == t.In(labels) + if kind in labels then n else 0 {
      AddIn(t, kind, n, labels);
    }
  }

  // ------------------------------------------------------------- Arrivals

  /** A gap as the arrival `a` registers it at `now`. */
  ghost predicate NewlyMissing(cfg: Config, g: Gap, a: Arrival, q: uint64, now: Time) {
    && g.hashKey == a.hashKey && g.seqNum == q && g.groupIdx == a.groupIdx && g.subtreeID == a.subtreeID
    && g.retries == 0 && g.endpointIdx == 0
    && now <= g.nextAttempt <= now + cfg.jitterMax && g.deadline == now + cfg.gapTTL
  }

  /** The frame's own number is gone, the numbers it jumped over are new, all others are untouched. */
  ghost predicate PendingAfter(cfg: Config, before: map<uint64, Gap>, after: map<uint64, Gap>, last: uint64,
                               a: Arrival, now: Time) {
    && (forall q: uint64 :: q in after <==> (q in before && q != a.seqNum) || last < q < a.seqNum)
    && (forall q :: q in after && q in before ==> after[q] == before[q])
    && (forall q :: q in after && q !in before ==> NewlyMissing(cfg, after[q], a, q, now))
  }

  /** Everything but one flow and the counters is as before. */
  ghost predicate OthersKept(s: State, s': State, hk: uint64) {
    && s'.queue == s.queue && s'.flows.Keys == s.flows.Keys + {hk}
    && forall k :: k in s.flows && k != hk ==> s'.flows[k] == s.flows[k]
  }

  /** An unstamped frame changes nothing. */
  lemma UnstampedLaw(cfg: Config, w: World, a: Arrival, dt: nat, jitter: Jitter)
    requires a.seqNum == 0
    ensures Next(cfg, w, Arrive(a, dt, jitter)).st == w.st
  {
  }

  /** The first frame of a flow: no gap, the counter at its number, the label of its group. */
  lemma FirstArrivalLaw(cfg: Config, w: World, a: Arrival, dt: nat, jitter: Jitter, s': State)
    requires a.seqNum != 0 && a.hashKey !in w.st.flows && s' == Next(cfg, w, Arrive(a, dt, jitter)).st
    ensures OthersKept(w.st, s', a.hashKey)
    ensures s'.flows[a.hashKey].lastSeqNum == a.seqNum && s'.flows[a.hashKey].pending == map[]
    ensures s'.flows[a.hashKey].groupIdx == a.groupIdx && s'.flows[a.hashKey].subtreeID == a.subtreeID
    ensures s'.flows[a.hashKey].flowType ==
      if a.groupIdx == 0xFFFE then Brc131 else if a.groupIdx == 0xFFFB then Brc132 else Brc124
    ensures s'.flows[a.hashKey].lastSeen == w.clock + dt
    ensures s'.detected == w.st.detected && s'.suppressed == w.st.suppressed && s'.unrecovered == w.st.unrecovered
  {
    ObserveFrame(cfg, w.st, a, Later(w.clock, dt), jitter);
  }

  /** The identity of a flow never changes. */
  ghost predicate SameIdentity(f: Flow, f': Flow) {
    f'.groupIdx == f.groupIdx && f'.subtreeID == f.subtreeID && f'.flowType == f.flowType
  }

  /**
   A frame that reads as a restart: up to the limit on a flow past it. The counter
   goes back to it, its own gap counts as filled and all others as lost.
   */
  lemma RestartLaw(cfg: Config, t0: Time, steps: seq<Step>, w: World, a: Arrival, dt: nat, jitter: Jitter, s': State)
    requires w == Exec(cfg, Start(t0), steps) && s' == Next(cfg, w, Arrive(a, dt, jitter)).st
    requires a.seqNum != 0 && a.hashKey in w.st.flows
    requires a.seqNum <= (if cfg.seqResetThreshold == 0 then 100 else cfg.seqResetThreshold)
             < w.st.flows[a.hashKey].lastSeqNum
    ensures OthersKept(w.st, s', a.hashKey) && SameIdentity(w.st.flows[a.hashKey], s'.flows[a.hashKey])
    ensures s'.flows[a.hashKey].lastSeqNum == a.seqNum && s'.flows[a.hashKey].pending == map[]
    ensures s'.flows[a.hashKey].lastSeen == w.clock + dt && s'.detected == w.st.detected
    ensures var f := w.st.flows[a.hashKey];
      var filled := if a.seqNum in f.pending then 1 else 0;
      Booked(w.st.suppressed, s'.suppressed, f.flowType, filled) &&
      Booked(w.st.unrecovered, s'.unrecovered, f.flowType, |f.pending| - filled)
  {
    EveryRunOk(cfg, t0, steps);
    assert FlowOk(cfg, a.hashKey, w.st.flows[a.hashKey], w.clock);
    RestartState(cfg, w.st, a, Later(w.clock, dt), jitter);
  }

  lemma RestartState(cfg: Config, s: State, a: Arrival, now: Time, jitter: Jitter)
    requires a.seqNum != 0 && a.hashKey in s.flows
    requires a.seqNum <= (if cfg.seqResetThreshold == 0 then 100 else cfg.seqResetThreshold)
             < s.flows[a.hashKey].lastSeqNum
    ensures var s' := Observe(cfg, s, a, now, jitter);
      var f := s.flows[a.hashKey];
      var filled := if a.seqNum in f.pending then 1 else 0;
      && OthersKept(s, s', a.hashKey) && s'.detected == s.detected
      && s'.flows[a.hashKey] == f.(lastSeqNum := a.seqNum, pending := map[], lastSeen := now)
      && Booked(s.suppressed, s'.suppressed, f.flowType, filled)
      && Booked(s.unrecovered, s'.unrecovered, f.flowType, |f.pending| - filled)
  {
    var f := s.flows[a.hashKey];
    ObserveFrame(cfg, s, a, now, jitter);
    RemoveSize(f.pending, a.seqNum);
    AddBooks(s.suppressed, f.flowType, if a.seqNum in f.pending then 1 else 0);
    AddBooks(s.unrecovered, f.flowType, |f.pending - {a.seqNum}|);
    NoneAdded(s.detected, f.flowType);
  }

  /**
   Any other frame of a known flow: the counter is the maximum, the frame's own gap
   is filled, and exactly the numbers it jumped over are registered and counted.
   */
  lemma ContinueLaw(cfg: Config, t0: Time, steps: seq<Step>, w: World, a: Arrival, dt: nat, jitter: Jitter, s': State)
    requires w == Exec(cfg, Start(t0), steps) && s' == Next(cfg, w, Arrive(a, dt, jitter)).st
    requires a.seqNum != 0 && a.hashKey in w.st.flows
    requires !(a.seqNum <= (if cfg.seqResetThreshold == 0 then 100 else cfg.seqResetThreshold)
               < w.st.flows[a.hashKey].lastSeqNum)
    ensures OthersKept(w.st, s', a.hashKey) && SameIdentity(w.st.flows[a.hashKey], s'.flows[a.hashKey])
    ensures var f, f' := w.st.flows[a.hashKey], s'.flows[a.hashKey];
      && f'.lastSeqNum == (if a.seqNum > f.lastSeqNum then a.seqNum else f.lastSeqNum)
      && f'.lastSeen == w.clock + dt
      && PendingAfter(cfg, f.pending, f'.pending, f.lastSeqNum, a, w.clock + dt)
      && Booked(w.st.suppressed, s'.suppressed, f.flowType, if a.seqNum in f.pending then 1 else 0)
      && Booked(w.st.detected, s'.detected, f.flowType,
                if a.seqNum > f.lastSeqNum then a.seqNum - f.lastSeqNum - 1 else 0)
      && s'.unrecovered == w.st.unrecovered
  {
    EveryRunOk(cfg, t0, steps);
    assert FlowOk(cfg, a.hashKey, w.st.flows[a.hashKey], w.clock);
    ContinueState(cfg, w.st, a, Later(w.clock, dt), jitter);
  }

  lemma ContinueState(cfg: Config, s: State, a: Arrival, now: Time, jitter: Jitter)
    requires a.seqNum != 0 && a.hashKey in s.flows && 0 < s.flows[a.hashKey].lastSeqNum
    requires forall q :: q in s.flows[a.hashKey].pending ==> q < s.flows[a.hashKey].lastSeqNum
    requires !(a.seqNum <= (if cfg.seqResetThreshold == 0 then 100 else cfg.seqResetThreshold)
               < s.flows[a.hashKey].lastSeqNum)
    ensures var s' := Observe(cfg, s, a, now, jitter);
      var f, f' := s.flows[a.hashKey], s'.flows[a.hashKey];
      && OthersKept(s, s', a.hashKey) && s'.unrecovered == s.unrecovered
      && f' == f.(lastSeqNum := f'.lastSeqNum, pending := f'.pending, lastSeen := now)
      && f'.lastSeqNum == (if a.seqNum > f.lastSeqNum then a.seqNum else f.lastSeqNum)
      && PendingAfter(cfg, f.pending, f'.pending, f.lastSeqNum, a, now)
      && Booked(s.suppressed, s'.suppressed, f.flowType, if a.seqNum in f.pending then 1 else 0)
      && Booked(s.detected, s'.detected, f.flowType,
                if a.seqNum > f.lastSeqNum then a.seqNum - f.lastSeqNum - 1 else 0)
  {
    var f := s.flows[a.hashKey];
    ObserveFrame(cfg, s, a, now, jitter);
    ContinuedEffect(cfg, FlowFor(s, a, now), a, now, jitter);
    AddBooks(s.suppressed, f.flowType, if a.seqNum in f.pending then 1 else 0);
    AddBooks(s.detected, f.flowType, if a.seqNum > f.lastSeqNum then a.seqNum - f.lastSeqNum - 1 else 0);
    NoneAdded(s.unrecovered, f.flowType);
  }

  lemma NoneAdded(t: Tally, kind: FlowLabel)
    ensures t.Add(kind, 0) == t
  {
  }

  /** The flow and counts after a frame that is no restart. */
  ghost predicate Continuation(cfg: Config, f: Flow, e: Effect, a: Arrival, now: Time) {
    && e.flow == f.(lastSeqNum := e.flow.lastSeqNum, pending := e.flow.pending)
    && e.flow.lastSeqNum == (if a.seqNum > f.lastSeqNum then a.seqNum else f.lastSeqNum)
    && PendingAfter(cfg, f.pending, e.flow.pending, f.lastSeqNum, a, now)
    && e.detected == (if a.seqNum > f.lastSeqNum then a.seqNum - f.lastSeqNum - 1 else 0)
    && e.unrecovered == 0
  }

  lemma ContinuedEffect(cfg: Config, f: Flow, a: Arrival, now: Time, jitter: Jitter)
    requires 0 < a.seqNum && 0 < f.lastSeqNum && forall q :: q in f.pending ==> q < f.lastSeqNum
    requires !(a.seqNum <= (if cfg.seqResetThreshold == 0 then 100 else cfg.seqResetThreshold) < f.lastSeqNum)
    ensures Continuation(cfg, f, Classify(cfg, Filled(f, a.seqNum), a, now, jitter), a, now)
  {
    if a.seqNum > f.lastSeqNum + 1 {
      assert f.pending - {a.seqNum} == f.pending;
      assert Filled(f, a.seqNum) == f;
      JumpCase(cfg, f, a, now, jitter);
    } else {
      FillCase(cfg, f, a, now, jitter);
    }
  }

  lemma JumpCase(cfg: Config, f: Flow, a: Arrival, now: Time, jitter: Jitter)
    requires 0 < f.lastSeqNum && f.lastSeqNum + 1 < a.seqNum && forall q :: q in f.pending ==> q < f.lastSeqNum
    ensures Continuation(cfg, f, Classify(cfg, f, a, now, jitter), a, now)
  {
    Registration(cfg, f.pending, f.lastSeqNum, f.lastSeqNum + 1, a, now, jitter);
  }

  lemma FillCase(cfg: Config, f: Flow, a: Arrival, now: Time, jitter: Jitter)
    requires 0 < a.seqNum <= f.lastSeqNum + 1 && 0 < f.lastSeqNum
    requires !(a.seqNum <= (if cfg.seqResetThreshold == 0 then 100 else cfg.seqResetThreshold) < f.lastSeqNum)
    ensures Continuation(cfg, f, Classify(cfg, Filled(f, a.seqNum), a, now, jitter), a, now)
  {
    FillEffect(cfg, f.pending, f.lastSeqNum, a, now);
  }

  lemma Registration(cfg: Config, pending: map<uint64, Gap>, last: uint64, lo: nat, a: Arrival, now: Time,
                     jitter: Jitter)
    requires lo == last + 1 < a.seqNum && forall q :: q in pending ==> q < last
    ensures var r := Register(cfg, pending, lo, a.seqNum, a, now, jitter);
      PendingAfter(cfg, pending, r.pending, last, a, now) && r.count == a.seqNum - lo
  {
    RegisterContents(cfg, pending, lo, a.seqNum, a, now, jitter);
    RegisterCount(cfg, pending, lo, a.seqNum, a, now, jitter);
    JumpEffect(cfg, pending, Register(cfg, pending, lo, a.seqNum, a, now, jitter).pending, last, a, now, jitter);
  }

  lemma JumpEffect(cfg: Config, before: map<uint64, Gap>, after: map<uint64, Gap>, last: uint64,
                   a: Arrival, now: Time, jitter: Jitter)
    requires last < a.seqNum && forall q :: q in before ==> q < last
    requires forall q: uint64 :: q in after <==> q in before || last + 1 <= q < a.seqNum
    requires forall q :: q in after ==>
      after[q] == if q in before then before[q] else NewGap(cfg, a, q, now, jitter)
    ensures PendingAfter(cfg, before, after, last, a, now)
  {
  }

  lemma FillEffect(cfg: Config, before: map<uint64, Gap>, last: uint64, a: Arrival, now: Time)
    requires a.seqNum <= last + 1
    ensures PendingAfter(cfg, before, before - {a.seqNum}, last, a, now)
  {
  }

  // --------------------------------------------------------------- Sweeps

  /**
   Whatever the order of the visits, a sweep gives up exactly the gaps that are past
   their deadline or out of retries. Of the others, the due ones are queued with a
   hold-off of 400 ms, or put off to now by a queue of 4096; the rest are untouched.
   */
  lemma SweepLaw(cfg: Config, s: State, visits: seq<Visit>, now: Time, s': State, hk: uint64, q: uint64)
    requires CompleteOrder(s.flows, visits) && s' == SweepAll(cfg, s, visits, now) && IsPending(s, hk, q)
    ensures s.queue <= s'.queue
    ensures var g := s.flows[hk].pending[q];
      && (!IsPending(s', hk, q) <==> now > g.deadline || g.retries >= cfg.maxRetries)
      && (IsPending(s', hk, q) && now <= g.nextAttempt ==> s'.flows[hk].pending[q] == g)
      && (IsPending(s', hk, q) && now > g.nextAttempt && |s'.queue| < 4096 ==>
            s'.flows[hk].pending[q] == g.(nextAttempt := now + 400 * MILLISECOND) &&
            s'.flows[hk].pending[q] in s'.queue[|s.queue|..])
      && (IsPending(s', hk, q) && now > g.nextAttempt && s'.flows[hk].pending[q] !in s'.queue[|s.queue|..] ==>
            s'.flows[hk].pending[q] == g.(nextAttempt := now))
  {
    SweepOutcome(cfg, s, visits, now, s');
    if hk in s'.flows {
      assert GapSwept(cfg, s, s', hk, q, now);
    }
  }

  /** A queued copy stands for a gap that was pending, alive and due when the sweep began. */
  ghost predicate DueCopy(cfg: Config, s: State, e: Gap, now: Time) {
    && IsPending(s, e.hashKey, e.seqNum)
    && var g := s.flows[e.hashKey].pending[e.seqNum];
       && e == g.(nextAttempt := now + 400 * MILLISECOND)
       && g.nextAttempt < now <= g.deadline && g.retries < cfg.maxRetries
  }

  /** What the first n visits have queued: due copies of visited gaps, each gap once. */
  ghost predicate QueuedBy(cfg: Config, s: State, queue: seq<Gap>, visits: seq<Visit>, now: Time) {
    && s.queue <= queue
    && (forall k :: |s.queue| <= k < |queue| ==>
          DueCopy(cfg, s, queue[k], now) && VisitGap(queue[k].hashKey, queue[k].seqNum) in visits)
    && (forall j, k :: |s.queue| <= j < k < |queue| ==> IdOf(queue[j]) != IdOf(queue[k]))
  }

  lemma {:induction false} SweepQueuesOnlyDue(cfg: Config, s: State, visits: seq<Visit>, now: Time, clock: Time, n: nat)
    requires CompleteOrder(s.flows, visits) && FlowsOk(cfg, s, clock) && n <= |visits|
    ensures QueuedBy(cfg, s, SweepAll(cfg, s, visits[..n], now).queue, visits[..n], now)
    decreases n
  {
    if n == 0 {
      assert visits[..0] == [];
    } else {
      var before, v := visits[..n - 1], visits[n - 1];
      SweepQueuesOnlyDue(cfg, s, visits, now, clock, n - 1);
      SweptPartway(cfg, s, visits, now, n - 1);
      GapsFirst(s.flows, visits, n - 1);
      assert visits[..n] == before + [v] && visits[..n][..n - 1] == before;
      VisitQueuesOnlyDue(cfg, s, SweepAll(cfg, s, before, now), before, v, now, clock);
    }
  }

  lemma VisitQueuesOnlyDue(cfg: Config, s: State, mid: State, visits: seq<Visit>, v: Visit, now: Time, clock: Time)
    requires FlowsOk(cfg, s, clock) && Partway(cfg, s, mid, visits, now) && QueuedBy(cfg, s, mid.queue, visits, now)
    requires v !in visits && v.hashKey in s.flows && (v.VisitGap? ==> v.seqNum in s.flows[v.hashKey].pending)
    ensures QueuedBy(cfg, s, SweepVisit(cfg, mid, v, now).queue, visits + [v], now)
  {
    var queue := SweepVisit(cfg, mid, v, now).queue;
    if queue != mid.queue {
      var g := mid.flows[v.hashKey].pending[v.seqNum];
      assert g == s.flows[v.hashKey].pending[v.seqNum];
      assert FlowOk(cfg, v.hashKey, s.flows[v.hashKey], clock);
      assert GapOk(cfg, v.hashKey, v.seqNum, g, s.flows[v.hashKey].lastSeqNum, s.flows[v.hashKey].lastSeen);
      assert queue == mid.queue + [g.(nextAttempt := now + 400 * MILLISECOND)];
      forall k | |s.queue| <= k < |mid.queue| ensures queue[k] == mid.queue[k] {
      }
    }
  }

  /** In every run a sweep adds to the queue only copies of gaps that were alive and due, and each at most once. */
  lemma SweepAddsOnlyDue(cfg: Config, t0: Time, steps: seq<Step>, w: World, visits: seq<Visit>, now: Time,
                         queue: seq<Gap>)
    requires w == Exec(cfg, Start(t0), steps) && CompleteOrder(w.st.flows, visits)
    requires queue == Next(cfg, w, Sweep(visits, now)).st.queue
    ensures w.st.queue <= queue
    ensures forall k :: |w.st.queue| <= k < |queue| ==> DueCopy(cfg, w.st, queue[k], now)
    ensures forall j, k :: |w.st.queue| <= j < k < |queue| ==> IdOf(queue[j]) != IdOf(queue[k])
  {
    EveryRunOk(cfg, t0, steps);
    SweepQueuesOnlyDue(cfg, w.st, visits, now, w.clock, |visits|);
    assert visits[..|visits|] == visits;
  }

  // ------------------------------------------------------ Deadlines in runs

  /** When the gap that is pending now was registered. */
  ghost function RegisteredAt(cfg: Config, t0: Time, steps: seq<Step>, id: GapId): Time {
    if steps == [] then t0 else
      var before := steps[..|steps| - 1];
      if IsPending(Exec(cfg, Start(t0), before).st, id.0, id.1) then RegisteredAt(cfg, t0, before, id)
      else Exec(cfg, Start(t0), steps).clock
  }

  /** A pending gap keeps its deadline, group and subtree. */
  ghost predicate KeepsDeadline(s: State, s': State, id: GapId) {
    IsPending(s', id.0, id.1) ==>
      && IsPending(s, id.0, id.1)
      && var g, g' := s.flows[id.0].pending[id.1], s'.flows[id.0].pending[id.1];
         g'.deadline == g.deadline && g'.groupIdx == g.groupIdx && g'.subtreeID == g.subtreeID
  }

  lemma AdvanceKeepsDeadline(cfg: Config, s: State, e: Gap, immediate: bool, n: nat, now: Time, id: GapId)
    ensures KeepsDeadline(s, AdvanceEndpoint(cfg, s, e, immediate, n, now), id)
  {
  }

  lemma CancelKeepsDeadline(s: State, e: Gap, id: GapId)
    ensures KeepsDeadline(s, CancelGap(s, e), id)
  {
  }

  lemma AttemptKeepsDeadline(cfg: Config, w: World, step: Step, id: GapId)
    requires IsAttemptStep(step)
    ensures KeepsDeadline(w.st, AttemptNext(cfg, w, step).st, id)
  {
    if step.Fail? && Holds(w, step.ticket, false) {
      AdvanceKeepsDeadline(cfg, w.st, w.running[step.ticket].gap, false, 0, step.now, id);
    } else if step.Answered? && Holds(w, step.ticket, true) {
      var e := w.running[step.ticket].gap;
      AdvanceKeepsDeadline(cfg, w.st, e, true, |w.running[step.ticket].sentTo.value|, step.now, id);
      AdvanceKeepsDeadline(cfg, w.st, e, false, 0, step.now, id);
      CancelKeepsDeadline(w.st, e, id);
    } else {
      assert AttemptNext(cfg, w, step).st.flows == w.st.flows;
    }
  }

  lemma SweepKeepsDeadline(cfg: Config, s: State, visits: seq<Visit>, now: Time, id: GapId)
    requires CompleteOrder(s.flows, visits)
    ensures KeepsDeadline(s, SweepAll(cfg, s, visits, now), id)
  {
    var s' := SweepAll(cfg, s, visits, now);
    SweepOutcome(cfg, s, visits, now, s');
    if IsPending(s', id.0, id.1) {
      assert GapSwept(cfg, s, s', id.0, id.1, now);
    }
  }

  /** After an arrival a pending gap is an old one, or was registered by it with a full gap TTL ahead. */
  lemma ArriveDeadline(cfg: Config, t0: Time, steps: seq<Step>, w: World, a: Arrival, dt: nat, jitter: Jitter,
                       id: GapId)
    requires w == Exec(cfg, Start(t0), steps)
    ensures var s' := AfterArrival(cfg, w, a, dt, jitter).st;
      KeepsDeadline(w.st, s', id) ||
      (!IsPending(w.st, id.0, id.1) && s'.flows[id.0].pending[id.1].deadline == w.clock + dt + cfg.gapTTL)
  {
    var s' := Next(cfg, w, Arrive(a, dt, jitter)).st;
    if a.seqNum == 0 {
      UnstampedLaw(cfg, w, a, dt, jitter);
    } else if a.hashKey !in w.st.flows {
      FirstArrivalLaw(cfg, w, a, dt, jitter, s');
    } else if a.seqNum <= (if cfg.seqResetThreshold == 0 then 100 else cfg.seqResetThreshold)
              < w.st.flows[a.hashKey].lastSeqNum {
      RestartLaw(cfg, t0, steps, w, a, dt, jitter, s');
    } else {
      ContinueLaw(cfg, t0, steps, w, a, dt, jitter, s');
    }
  }

  /** In every run, a pending gap's deadline is the time it was registered plus the gap TTL. */
  lemma {:induction false} DeadlineLaw(cfg: Config, t0: Time, steps: seq<Step>, w: World, id: GapId)
    requires w == Exec(cfg, Start(t0), steps) && IsPending(w.st, id.0, id.1)
    ensures w.st.flows[id.0].pending[id.1].deadline == RegisteredAt(cfg, t0, steps, id) + cfg.gapTTL
  {
    if steps != [] {
      var n := |steps| - 1;
      var v, step := Exec(cfg, Start(t0), steps[..n]), steps[n];
      if IsPending(v.st, id.0, id.1) {
        DeadlineLaw(cfg, t0, steps[..n], v, id);
      }
      if step.Arrive? {
        ArriveDeadline(cfg, t0, steps[..n], v, step.a, step.dt, step.jitter, id);
      } else {
        OtherStepKeepsDeadline(cfg, v, step, id);
      }
    }
  }

  lemma OtherStepKeepsDeadline(cfg: Config, w: World, step: Step, id: GapId)
    requires !step.Arrive?
    ensures KeepsDeadline(w.st, Next(cfg, w, step).st, id)
  {
    if IsAttemptStep(step) {
      AttemptKeepsDeadline(cfg, w, step, id);
    } else if step.Sweep? && CompleteOrder(w.st.flows, step.visits) {
      SweepKeepsDeadline(cfg, w.st, step.visits, step.now, id);
    }
  }

  /**
   In every run, a sweep gives a pending gap up exactly when the gap TTL has passed
   since its registration or its retries are used up.
   */
  lemma SweepGivesUpIff(cfg: Config, t0: Time, steps: seq<Step>, w: World, visits: seq<Visit>, now: Time, id: GapId)
    requires w == Exec(cfg, Start(t0), steps) && CompleteOrder(w.st.flows, visits) && IsPending(w.st, id.0, id.1)
    ensures !IsPending(Next(cfg, w, Sweep(visits, now)).st, id.0, id.1) <==>
      now > RegisteredAt(cfg, t0, steps, id) + cfg.gapTTL || w.st.flows[id.0].pending[id.1].retries >= cfg.maxRetries
  {
    DeadlineLaw(cfg, t0, steps, w, id);
    SweepLaw(cfg, w.st, visits, now, SweepAll(cfg, w.st, visits, now), id.0, id.1);
  }

  /** In an orderly run, no sweep closes a gap inside its TTL for which fewer than MaxRetries tries were made. */
  lemma SweepSparesLive(cfg: Config, t0: Time, steps: seq<Step>, w: World, visits: seq<Visit>, now: Time, id: GapId)
    requires OrderlyRun(cfg, Start(t0), steps, id) && w == Exec(cfg, Start(t0), steps)
    requires CompleteOrder(w.st.flows, visits) && IsPending(w.st, id.0, id.1)
    requires now <= RegisteredAt(cfg, t0, steps, id) + cfg.gapTTL
    requires |Log(w, id)| + Failed(w, id) < cfg.maxRetries
    ensures IsPending(Next(cfg, w, Sweep(visits, now)).st, id.0, id.1)
  {
    SweepGivesUpIff(cfg, t0, steps, w, visits, now, id);
    RetriesBounded(cfg, t0, steps, id.0, id.1);
    OrderlyRunsDisciplined(cfg, t0, steps, id);
    IndexWithinTries(cfg, w, id);
  }

  /** The pending gap's index is at most the number of tries, read off its copy or off itself. */
  lemma IndexWithinTries(cfg: Config, w: World, id: GapId)
    requires Disciplined(cfg, w, id) && GapAt(w.st, id).Some?
    ensures GapAt(w.st, id).value.endpointIdx <= |Log(w, id)| + Failed(w, id)
  {
    var gap, h := GapAt(w.st, id), HistoryOf(w, id);
    if i :| Queued(w.st.queue, id, i) {
      assert CopyOk(cfg, gap, h, w.st.queue[i], false);
    } else if t :| Running(w.running, id, t) {
      assert CopyOk(cfg, gap, h, w.running[t].gap, w.running[t].sentTo.Some?);
    }
  }

  // ------------------------------------------------------- Ends of attempts

  /** Nothing but the gap itself is touched. */
  ghost predicate OnlyGap(s: State, s': State, mine: GapId) {
    && s'.queue == s.queue && s'.flows.Keys == s.flows.Keys && s'.detected == s.detected
    && s'.unrecovered == s.unrecovered
    && (forall id :: id != mine ==> GapAt(s', id) == GapAt(s, id))
    && (forall hk :: hk in s.flows ==> s'.flows[hk].lastSeqNum == s.flows[hk].lastSeqNum
                                       && s'.flows[hk].lastSeen == s.flows[hk].lastSeen)
  }

  lemma AdvanceOnlyGap(cfg: Config, s: State, e: Gap, immediate: bool, n: nat, now: Time)
    ensures OnlyGap(s, AdvanceEndpoint(cfg, s, e, immediate, n, now), IdOf(e))
    ensures AdvanceEndpoint(cfg, s, e, immediate, n, now).suppressed == s.suppressed
  {
    forall id | id != IdOf(e) ensures GapAt(AdvanceEndpoint(cfg, s, e, immediate, n, now), id) == GapAt(s, id) {
      AdvanceAt(cfg, s, e, immediate, n, now, id);
    }
  }

  /** One more try, with the deadline as it was. */
  ghost predicate OneMoreTry(g: Gap, g': Gap) {
    g' == g.(retries := g.retries + 1, endpointIdx := g.endpointIdx + 1, nextAttempt := g'.nextAttempt)
  }

  /**
   A MISS of one of n endpoints: the next endpoint is due at once; after the last
   one the gap waits, 500 ms doubled with every retry, at most BackoffMax.
   */
  lemma MissLaw(cfg: Config, w: World, t: nat, now: Time, s': State, g: Gap, n: nat)
    requires Holds(w, t, true) && s' == Next(cfg, w, Answered(t, Miss, now)).st
    requires GapAt(w.st, IdOf(w.running[t].gap)) == Some(g) && n == |w.running[t].sentTo.value| > 0
    ensures OnlyGap(w.st, s', IdOf(w.running[t].gap)) && s'.suppressed == w.st.suppressed
    ensures GapAt(s', IdOf(w.running[t].gap)).Some?
    ensures var g' := GapAt(s', IdOf(w.running[t].gap)).value;
      && OneMoreTry(g, g')
      && (g'.endpointIdx < n ==> g'.nextAttempt == now)
      && (g'.endpointIdx >= n && g'.retries <= 34 ==>
            g'.nextAttempt == now + Min(Pow2(g'.retries) * 500_000_000, cfg.backoffMax))
  {
    var e := w.running[t].gap;
    AdvanceOnlyGap(cfg, w.st, e, true, n, now);
    if g.retries + 1 <= 34 { BackoffIntended(cfg, g.retries + 1); }
  }

  /** An attempt that failed or was not answered: the gap moves on and waits. */
  lemma NoAnswerLaw(cfg: Config, w: World, t: nat, now: Time, step: Step, s': State, g: Gap)
    requires (step == Answered(t, Silence, now) && Holds(w, t, true)) || (step == Fail(t, now) && Holds(w, t, false))
    requires s' == Next(cfg, w, step).st && GapAt(w.st, IdOf(w.running[t].gap)) == Some(g)
    ensures OnlyGap(w.st, s', IdOf(w.running[t].gap)) && s'.suppressed == w.st.suppressed
    ensures GapAt(s', IdOf(w.running[t].gap)).Some?
    ensures var g' := GapAt(s', IdOf(w.running[t].gap)).value;
      && OneMoreTry(g, g')
      && (g'.retries <= 34 ==> g'.nextAttempt == now + Min(Pow2(g'.retries) * 500_000_000, cfg.backoffMax))
  {
    AdvanceOnlyGap(cfg, w.st, w.running[t].gap, false, 0, now);
    if g.retries + 1 <= 34 { BackoffIntended(cfg, g.retries + 1); }
  }

  /** An ACK closes the gap and books it under the label of the group the copy carries. */
  lemma AckLaw(cfg: Config, w: World, t: nat, now: Time, s': State)
    requires Holds(w, t, true) && s' == Next(cfg, w, Answered(t, Ack, now)).st
    ensures OnlyGap(w.st, s', IdOf(w.running[t].gap)) && GapAt(s', IdOf(w.running[t].gap)).None?
    ensures Booked(w.st.suppressed, s'.suppressed, LabelOf(w.running[t].gap.groupIdx),
                   if GapAt(w.st, IdOf(w.running[t].gap)).Some? then 1 else 0)
  {
    var e := w.running[t].gap;
    forall id ensures id != IdOf(e) ==> GapAt(s', id) == GapAt(w.st, id) {
      CancelAt(w.st, e, id);
    }
    CancelAt(w.st, e, IdOf(e));
    AddBooks(w.st.suppressed, LabelOf(e.groupIdx), 1);
  }

  /** Filling from outside closes the named gap and books it under the flow's label. */
  lemma FillLaw(cfg: Config, w: World, hk: uint64, q: uint64, s': State)
    requires q != 0 && hk in w.st.flows && s' == Next(cfg, w, FillGap(hk, q)).st
    ensures OnlyGap(w.st, s', (hk, q)) && GapAt(s', (hk, q)).None?
    ensures Booked(w.st.suppressed, s'.suppressed, w.st.flows[hk].flowType,
                   if q in w.st.flows[hk].pending then 1 else 0)
  {
    if IsPending(w.st, hk, q) {
      forall id ensures id != (hk, q) ==> GapAt(s', id) == GapAt(w.st, id) {
        DropAt(w.st, hk, q, id);
      }
    }
    AddBooks(w.st.suppressed, w.st.flows[hk].flowType, 1);
  }

  /** The dispatcher takes the oldest copy. */
  lemma DispatchLaw(cfg: Config, w: World, t: nat)
    requires w.st.queue != [] && t !in w.running
    ensures var w' := Next(cfg, w, Dispatch(t));
      w.st.queue == [w'.running[t].gap] + w'.st.queue && w'.st.flows == w.st.flows && w'.running - {t} == w.running
  {
  }

  /**
   In an orderly run with MaxRetries at most 34, every attempt without an answer
   puts the gap off by the intended wait, exactly.
   */
  lemma OrderlyWaits(cfg: Config, t0: Time, steps: seq<Step>, w: World, t: nat, now: Time, step: Step, g: Gap,
                     id: GapId)
    requires OrderlyRun(cfg, Start(t0), steps, id) && w == Exec(cfg, Start(t0), steps) && cfg.maxRetries <= 34
    requires (step == Answered(t, Silence, now) && Holds(w, t, true)) || (step == Fail(t, now) && Holds(w, t, false))
    requires IdOf(w.running[t].gap) == id && GapAt(w.st, id) == Some(g)
    ensures GapAt(Next(cfg, w, step).st, id) ==
      Some(g.(retries := g.retries + 1, endpointIdx := g.endpointIdx + 1,
              nextAttempt := now + Min(Pow2(g.retries + 1) * 500_000_000, cfg.backoffMax)))
  {
    OrderlyRunsDisciplined(cfg, t0, steps, id);
    EveryRunOk(cfg, t0, steps);
    DisciplinedWait(cfg, w, t, now, step, g, id);
  }

  lemma DisciplinedWait(cfg: Config, w: World, t: nat, now: Time, step: Step, g: Gap, id: GapId)
    requires Disciplined(cfg, w, id) && FlowsOk(cfg, w.st, w.clock) && cfg.maxRetries <= 34
    requires (step == Answered(t, Silence, now) && Holds(w, t, true)) || (step == Fail(t, now) && Holds(w, t, false))
    requires IdOf(w.running[t].gap) == id && GapAt(w.st, id) == Some(g)
    ensures GapAt(Next(cfg, w, step).st, id) ==
      Some(g.(retries := g.retries + 1, endpointIdx := g.endpointIdx + 1,
              nextAttempt := now + Min(Pow2(g.retries + 1) * 500_000_000, cfg.backoffMax)))
  {
    HeldBelowMax(cfg, w, t, id);
    var s' := Next(cfg, w, step).st;
    NoAnswerLaw(cfg, w, t, now, step, s', g);
    var g' := GapAt(s', id).value;
    assert OneMoreTry(g, g') && g'.retries <= 34;
  }
}
