/** No gap is lost or counted twice: every detected gap is suppressed, unrecovered or still pending. */
module TrackerConservation {
  import opened Common
  import opened TrackerSpec
  import opened TrackerRuns
  import opened TrackerInvariant

  /** The books balance over the given labels. */
  ghost predicate Balanced(s: State, labels: set<FlowLabel>) {
    s.detected.In(labels) == s.suppressed.In(labels) + s.unrecovered.In(labels) + |Gaps(s.flows, labels)|
  }

  lemma AddIn(t: Tally, kind: FlowLabel, n: nat, labels: set<FlowLabel>)
    ensures t.Add(kind, n).In(labels) == t.In(labels) + if kind in labels then n else 0
  {
    match kind case Brc124 => case Brc131 => case Brc132 =>
  }

  /** Replacing one flow's record changes the gap count by the change of that flow alone. */
  lemma ReplaceFlow(flows: map<uint64, Flow>, hk: uint64, f: Flow, labels: set<FlowLabel>)
    requires hk in flows ==> flows[hk].flowType == f.flowType
    ensures |Gaps(flows[hk := f], labels)| == |Gaps(flows, labels)| +
      if f.flowType in labels then |f.pending| - (if hk in flows then |flows[hk].pending| else 0) else 0
  {
    var after := flows[hk := f];
    GapsSplit(after, hk, labels);
    assert after - {hk} == flows - {hk};
    if hk in flows {
      GapsSplit(flows, hk, labels);
    } else {
      assert flows - {hk} == flows;
    }
  }

  lemma RemoveSize(m: map<uint64, Gap>, q: uint64)
    ensures |m - {q}| == |m| - if q in m then 1 else 0
  {
    assert (m - {q}).Keys == m.Keys - {q};
  }

  /** A classified frame adds its detections to the flow and takes out what it gives up. */
  lemma ClassifyCount(cfg: Config, f: Flow, a: Arrival, now: Time, jitter: Jitter)
    ensures var e := Classify(cfg, f, a, now, jitter);
      |e.flow.pending| == |f.pending| + e.detected - e.unrecovered && e.flow.flowType == f.flowType
  {
    if f.lastSeqNum != 0 && a.seqNum > f.lastSeqNum + 1 {
      RegisterContents(cfg, f.pending, f.lastSeqNum + 1, a.seqNum, a, now, jitter);
    }
  }

  lemma ObserveBalanced(cfg: Config, s: State, a: Arrival, now: Time, jitter: Jitter, labels: set<FlowLabel>)
    requires Balanced(s, labels)
    ensures Balanced(Observe(cfg, s, a, now, jitter), labels)
  {
    if a.seqNum != 0 {
      var f := FlowFor(s, a, now);
      var e := Classify(cfg, Filled(f, a.seqNum), a, now, jitter);
      ClassifyCount(cfg, Filled(f, a.seqNum), a, now, jitter);
      RemoveSize(f.pending, a.seqNum);
      ReplaceFlow(s.flows, a.hashKey, e.flow, labels);
      AddIn(s.detected, f.flowType, e.detected, labels);
      AddIn(s.suppressed, f.flowType, if a.seqNum in f.pending then 1 else 0, labels);
      AddIn(s.unrecovered, f.flowType, e.unrecovered, labels);
    }
  }

  lemma DropCount(s: State, hk: uint64, q: uint64, labels: set<FlowLabel>)
    requires IsPending(s, hk, q)
    ensures |Gaps(Drop(s, hk, q).flows, labels)| ==
      |Gaps(s.flows, labels)| - if s.flows[hk].flowType in labels then 1 else 0
  {
    RemoveSize(s.flows[hk].pending, q);
    ReplaceFlow(s.flows, hk, s.flows[hk].(pending := s.flows[hk].pending - {q}), labels);
  }

  lemma PutCount(s: State, hk: uint64, q: uint64, g: Gap, labels: set<FlowLabel>)
    requires IsPending(s, hk, q)
    ensures |Gaps(Put(s, hk, q, g).flows, labels)| == |Gaps(s.flows, labels)|
  {
    var f := s.flows[hk];
    assert f.pending[q := g].Keys == f.pending.Keys;
    ReplaceFlow(s.flows, hk, f.(pending := f.pending[q := g]), labels);
  }

  lemma FillBalanced(s: State, hk: uint64, q: uint64, labels: set<FlowLabel>)
    requires Balanced(s, labels)
    ensures Balanced(Fill(s, hk, q), labels)
  {
    if IsPending(s, hk, q) {
      DropCount(s, hk, q, labels);
      AddIn(s.suppressed, s.flows[hk].flowType, 1, labels);
    }
  }

  /**
   An ACK books the gap under the label of the queued copy's group, while its
   detection was booked under the flow's label. The books stay balanced exactly
   when the two are on the same side of `labels`.
   */
  lemma CancelBalancedIff(s: State, e: Gap, labels: set<FlowLabel>)
    requires Balanced(s, labels)
    requires IsPending(s, e.hashKey, e.seqNum)
    ensures Balanced(CancelGap(s, e), labels) <==>
      (LabelOf(e.groupIdx) in labels <==> s.flows[e.hashKey].flowType in labels)
  {
    DropCount(s, e.hashKey, e.seqNum, labels);
    AddIn(s.suppressed, LabelOf(e.groupIdx), 1, labels);
  }

  lemma AdvanceBalanced(cfg: Config, s: State, e: Gap, immediate: bool, n: nat, now: Time, labels: set<FlowLabel>)
    requires Balanced(s, labels)
    ensures Balanced(AdvanceEndpoint(cfg, s, e, immediate, n, now), labels)
  {
    if IsPending(s, e.hashKey, e.seqNum) {
      PutCount(s, e.hashKey, e.seqNum,
               Advanced(cfg, s.flows[e.hashKey].pending[e.seqNum], immediate, n, now), labels);
    }
  }

  lemma IdleBalanced(cfg: Config, s: State, hk: uint64, now: Time, labels: set<FlowLabel>)
    requires Balanced(s, labels)
    ensures Balanced(SweepIdle(cfg, s, hk, now), labels)
  {
    if hk in s.flows && IsIdle(cfg, s.flows[hk], now) {
      GapsSplit(s.flows, hk, labels);
    }
  }

  lemma VisitBalanced(cfg: Config, s: State, v: Visit, now: Time, labels: set<FlowLabel>)
    requires Balanced(s, labels)
    ensures Balanced(SweepVisit(cfg, s, v, now), labels)
  {
    if v.VisitIdle? {
      IdleBalanced(cfg, s, v.hashKey, now, labels);
    } else if IsPending(s, v.hashKey, v.seqNum) {
      var g := s.flows[v.hashKey].pending[v.seqNum];
      if IsDead(cfg, g, now) {
        DropCount(s, v.hashKey, v.seqNum, labels);
        AddIn(s.unrecovered, s.flows[v.hashKey].flowType, 1, labels);
      } else {
        PutCount(s, v.hashKey, v.seqNum, g.(nextAttempt := now + HOLD_OFF), labels);
        PutCount(s, v.hashKey, v.seqNum, g.(nextAttempt := now), labels);
      }
    }
  }

  lemma {:induction false} SweepBalanced(cfg: Config, s: State, visits: seq<Visit>, now: Time, labels: set<FlowLabel>)
    requires Balanced(s, labels)
    ensures Balanced(SweepAll(cfg, s, visits, now), labels)
  {
    if visits != [] {
      var n := |visits| - 1;
      SweepBalanced(cfg, s, visits[..n], now, labels);
      VisitBalanced(cfg, SweepAll(cfg, s, visits[..n], now), visits[n], now, labels);
    }
  }

  /** Does an ACK for this copy book under a label on the same side of `labels` as its flow? */
  ghost predicate SameSide(s: State, e: Gap, labels: set<FlowLabel>) {
    IsPending(s, e.hashKey, e.seqNum) ==>
      (LabelOf(e.groupIdx) in labels <==> s.flows[e.hashKey].flowType in labels)
  }

  /** The books survive an answer exactly when it is no ACK across the sides. */
  lemma AnswerBalancedIff(cfg: Config, w: World, t: nat, answer: Answer, now: Time, labels: set<FlowLabel>)
    requires Balanced(w.st, labels) && Holds(w, t, true)
    ensures Balanced(AfterAnswer(cfg, w, t, answer, now).st, labels) <==>
      (answer.Ack? ==> SameSide(w.st, w.running[t].gap, labels))
  {
    var e := w.running[t].gap;
    match answer
    case Ack => if IsPending(w.st, e.hashKey, e.seqNum) { CancelBalancedIff(w.st, e, labels); }
    case Miss => AdvanceBalanced(cfg, w.st, e, true, |w.running[t].sentTo.value|, now, labels);
    case Silence => AdvanceBalanced(cfg, w.st, e, false, 0, now, labels);
  }

  /** If the step is an ACK for a copy, the copy is on its flow's side. */
  ghost predicate AckFits(w: World, step: Step, labels: set<FlowLabel>) {
    step.Answered? && step.answer.Ack? && Holds(w, step.ticket, true) ==>
      SameSide(w.st, w.running[step.ticket].gap, labels)
  }

  lemma AttemptStepBalancedIff(cfg: Config, w: World, step: Step, labels: set<FlowLabel>)
    requires Balanced(w.st, labels) && IsAttemptStep(step)
    ensures Balanced(AttemptNext(cfg, w, step).st, labels) <==> AckFits(w, step, labels)
  {
    if step.Fail? && Holds(w, step.ticket, false) {
      AdvanceBalanced(cfg, w.st, w.running[step.ticket].gap, false, 0, step.now, labels);
    } else if step.Answered? && Holds(w, step.ticket, true) {
      AnswerBalancedIff(cfg, w, step.ticket, step.answer, step.now, labels);
    }
  }

  lemma StepBalancedIff(cfg: Config, w: World, step: Step, labels: set<FlowLabel>)
    requires Balanced(w.st, labels)
    ensures Balanced(Next(cfg, w, step).st, labels) <==> AckFits(w, step, labels)
  {
    if IsAttemptStep(step) {
      AttemptStepBalancedIff(cfg, w, step, labels);
    } else if step.Arrive? {
      ObserveBalanced(cfg, w.st, step.a, Later(w.clock, step.dt), step.jitter, labels);
    } else if step.FillGap? {
      FillBalanced(w.st, step.hashKey, step.seqNum, labels);
    } else {
      SweepBalanced(cfg, w.st, step.visits, step.now, labels);
    }
  }

  ghost predicate AcksFit(cfg: Config, w: World, steps: seq<Step>, labels: set<FlowLabel>) {
    steps != [] ==>
      AcksFit(cfg, w, steps[..|steps| - 1], labels) &&
      AckFits(Exec(cfg, w, steps[..|steps| - 1]), steps[|steps| - 1], labels)
  }

  /** The books of these labels balance after every prefix of the run. */
  ghost predicate AlwaysBalanced(cfg: Config, w: World, steps: seq<Step>, labels: set<FlowLabel>) {
    && Balanced(Exec(cfg, w, steps).st, labels)
    && (steps != [] ==> AlwaysBalanced(cfg, w, steps[..|steps| - 1], labels))
  }

  /** In every run, the books of any labels balance throughout exactly when every ACK is on its flow's side of them. */
  lemma {:induction false} AlwaysBalancedIff(cfg: Config, t0: Time, steps: seq<Step>, labels: set<FlowLabel>)
    ensures AlwaysBalanced(cfg, Start(t0), steps, labels) <==> AcksFit(cfg, Start(t0), steps, labels)
  {
    if steps == [] {
      assert Gaps(EMPTY.flows, labels) == {};
    } else {
      var n := |steps| - 1;
      AlwaysBalancedIff(cfg, t0, steps[..n], labels);
      if AlwaysBalanced(cfg, Start(t0), steps[..n], labels) {
        StepBalancedIff(cfg, Exec(cfg, Start(t0), steps[..n]), steps[n], labels);
      }
    }
  }

  /** Over every run, detected = suppressed + unrecovered + pending, restarts and evictions included. */
  lemma {:induction false} Conservation(cfg: Config, t0: Time, steps: seq<Step>)
    ensures Balanced(Exec(cfg, Start(t0), steps).st, ALL_LABELS)
  {
    if steps == [] {
      assert Gaps(EMPTY.flows, ALL_LABELS) == {};
    } else {
      var n := |steps| - 1;
      Conservation(cfg, t0, steps[..n]);
      var w := Exec(cfg, Start(t0), steps[..n]);
      forall t | t in w.running
        ensures SameSide(w.st, w.running[t].gap, ALL_LABELS)
      {
        var e := w.running[t].gap;
        LabelListed(LabelOf(e.groupIdx));
        if e.hashKey in w.st.flows { LabelListed(w.st.flows[e.hashKey].flowType); }
      }
      StepBalancedIff(cfg, w, steps[n], ALL_LABELS);
    }
  }

  // ------------------------------------------------- The books of one label

  /** A hash key stands for one group, so all frames under it carry one label. */
  ghost predicate KeysFixLabels(steps: seq<Step>, kindOf: uint64 -> FlowLabel) {
    forall i :: 0 <= i < |steps| && steps[i].Arrive? ==> LabelOf(steps[i].a.groupIdx) == kindOf(steps[i].a.hashKey)
  }

  ghost predicate GapLabelled(g: Gap, kindOf: uint64 -> FlowLabel) { LabelOf(g.groupIdx) == kindOf(g.hashKey) }

  /** Every record in the tracker carries the label its hash key stands for. */
  ghost predicate FlowsLabelled(s: State, kindOf: uint64 -> FlowLabel) {
    && (forall hk :: hk in s.flows ==> FlowLabelled(hk, s.flows[hk], kindOf))
    && (forall i :: 0 <= i < |s.queue| ==> GapLabelled(s.queue[i], kindOf))
  }

  ghost predicate FlowLabelled(hk: uint64, f: Flow, kindOf: uint64 -> FlowLabel) {
    f.flowType == kindOf(hk) && PendingLabelled(hk, f.pending, kindOf)
  }

  ghost predicate PendingLabelled(hk: uint64, pending: map<uint64, Gap>, kindOf: uint64 -> FlowLabel) {
    forall q :: q in pending ==> pending[q].hashKey == hk && GapLabelled(pending[q], kindOf)
  }

  ghost predicate Labelled(w: World, kindOf: uint64 -> FlowLabel) {
    FlowsLabelled(w.st, kindOf) && forall t :: t in w.running ==> GapLabelled(w.running[t].gap, kindOf)
  }

  lemma ClassifyLabelled(cfg: Config, f: Flow, a: Arrival, now: Time, jitter: Jitter, kindOf: uint64 -> FlowLabel)
    requires LabelOf(a.groupIdx) == kindOf(a.hashKey) == f.flowType
    requires PendingLabelled(a.hashKey, f.pending, kindOf)
    ensures FlowLabelled(a.hashKey, Classify(cfg, f, a, now, jitter).flow, kindOf)
  {
    if f.lastSeqNum != 0 && a.seqNum > f.lastSeqNum + 1 {
      RegisterContents(cfg, f.pending, f.lastSeqNum + 1, a.seqNum, a, now, jitter);
    }
  }

  lemma SetPendingLabelled(s: State, hk: uint64, pending: map<uint64, Gap>, kindOf: uint64 -> FlowLabel)
    requires FlowsLabelled(s, kindOf) && hk in s.flows
    requires PendingLabelled(hk, pending, kindOf)
    ensures FlowsLabelled(SetPending(s, hk, pending), kindOf)
  {
  }

  lemma DropLabelled(s: State, hk: uint64, q: uint64, kindOf: uint64 -> FlowLabel)
    requires FlowsLabelled(s, kindOf) && IsPending(s, hk, q)
    ensures FlowsLabelled(Drop(s, hk, q), kindOf)
  {
    SetPendingLabelled(s, hk, s.flows[hk].pending - {q}, kindOf);
  }

  lemma PutLabelled(s: State, hk: uint64, q: uint64, g: Gap, kindOf: uint64 -> FlowLabel)
    requires FlowsLabelled(s, kindOf) && IsPending(s, hk, q)
    requires g.hashKey == hk && GapLabelled(g, kindOf)
    ensures FlowsLabelled(Put(s, hk, q, g), kindOf)
  {
    SetPendingLabelled(s, hk, s.flows[hk].pending[q := g], kindOf);
  }

  lemma VisitLabelled(cfg: Config, s: State, v: Visit, now: Time, kindOf: uint64 -> FlowLabel)
    requires FlowsLabelled(s, kindOf)
    ensures FlowsLabelled(SweepVisit(cfg, s, v, now), kindOf)
  {
    if v.VisitGap? && IsPending(s, v.hashKey, v.seqNum) {
      var g := s.flows[v.hashKey].pending[v.seqNum];
      DropLabelled(s, v.hashKey, v.seqNum, kindOf);
      PutLabelled(s, v.hashKey, v.seqNum, g.(nextAttempt := now + HOLD_OFF), kindOf);
      PutLabelled(s, v.hashKey, v.seqNum, g.(nextAttempt := now), kindOf);
    }
  }

  lemma {:induction false} SweepLabelled(cfg: Config, s: State, visits: seq<Visit>, now: Time,
                                         kindOf: uint64 -> FlowLabel)
    requires FlowsLabelled(s, kindOf)
    ensures FlowsLabelled(SweepAll(cfg, s, visits, now), kindOf)
  {
    if visits != [] {
      var n := |visits| - 1;
      SweepLabelled(cfg, s, visits[..n], now, kindOf);
      VisitLabelled(cfg, SweepAll(cfg, s, visits[..n], now), visits[n], now, kindOf);
    }
  }

  lemma ArriveLabelled(cfg: Config, s: State, a: Arrival, now: Time, jitter: Jitter, kindOf: uint64 -> FlowLabel)
    requires FlowsLabelled(s, kindOf)
    requires LabelOf(a.groupIdx) == kindOf(a.hashKey)
    ensures FlowsLabelled(Observe(cfg, s, a, now, jitter), kindOf)
  {
    if a.seqNum != 0 {
      ClassifyLabelled(cfg, Filled(FlowFor(s, a, now), a.seqNum), a, now, jitter, kindOf);
    }
  }

  lemma AdvanceLabelled(cfg: Config, s: State, e: Gap, immediate: bool, n: nat, now: Time, kindOf: uint64 -> FlowLabel)
    requires FlowsLabelled(s, kindOf)
    ensures FlowsLabelled(AdvanceEndpoint(cfg, s, e, immediate, n, now), kindOf)
  {
    if IsPending(s, e.hashKey, e.seqNum) {
      PutLabelled(s, e.hashKey, e.seqNum,
                  Advanced(cfg, s.flows[e.hashKey].pending[e.seqNum], immediate, n, now), kindOf);
    }
  }

  lemma AttemptStepLabelled(cfg: Config, w: World, step: Step, kindOf: uint64 -> FlowLabel)
    requires Labelled(w, kindOf) && IsAttemptStep(step)
    ensures Labelled(AttemptNext(cfg, w, step), kindOf)
  {
    if step.Fail? && Holds(w, step.ticket, false) {
      AdvanceLabelled(cfg, w.st, w.running[step.ticket].gap, false, 0, step.now, kindOf);
    } else if step.Answered? && Holds(w, step.ticket, true) {
      var e := w.running[step.ticket].gap;
      match step.answer
      case Ack => if IsPending(w.st, e.hashKey, e.seqNum) { DropLabelled(w.st, e.hashKey, e.seqNum, kindOf); }
      case Miss => AdvanceLabelled(cfg, w.st, e, true, |w.running[step.ticket].sentTo.value|, step.now, kindOf);
      case Silence => AdvanceLabelled(cfg, w.st, e, false, 0, step.now, kindOf);
    }
  }

  lemma StepLabelled(cfg: Config, w: World, step: Step, kindOf: uint64 -> FlowLabel)
    requires Labelled(w, kindOf)
    requires step.Arrive? ==> LabelOf(step.a.groupIdx) == kindOf(step.a.hashKey)
    ensures Labelled(Next(cfg, w, step), kindOf)
  {
    if IsAttemptStep(step) {
      AttemptStepLabelled(cfg, w, step, kindOf);
    } else if step.Arrive? {
      ArriveLabelled(cfg, w.st, step.a, Later(w.clock, step.dt), step.jitter, kindOf);
    } else if step.FillGap? {
      if IsPending(w.st, step.hashKey, step.seqNum) { DropLabelled(w.st, step.hashKey, step.seqNum, kindOf); }
    } else {
      SweepLabelled(cfg, w.st, step.visits, step.now, kindOf);
    }
  }

  lemma {:induction false} RunLabelled(cfg: Config, t0: Time, steps: seq<Step>, kindOf: uint64 -> FlowLabel)
    requires KeysFixLabels(steps, kindOf)
    ensures Labelled(Exec(cfg, Start(t0), steps), kindOf)
  {
    if steps != [] {
      var n := |steps| - 1;
      RunLabelled(cfg, t0, steps[..n], kindOf);
      StepLabelled(cfg, Exec(cfg, Start(t0), steps[..n]), steps[n], kindOf);
    }
  }

  /** When hash keys determine labels, the books of every label balance on their own. */
  lemma {:induction false} LabelConservation(cfg: Config, t0: Time, steps: seq<Step>, kindOf: uint64 -> FlowLabel,
                                             labels: set<FlowLabel>)
    requires KeysFixLabels(steps, kindOf)
    ensures Balanced(Exec(cfg, Start(t0), steps).st, labels)
  {
    if steps == [] {
      assert Gaps(EMPTY.flows, labels) == {};
    } else {
      var n := |steps| - 1;
      LabelConservation(cfg, t0, steps[..n], kindOf, labels);
      RunLabelled(cfg, t0, steps[..n], kindOf);
      StepBalancedIff(cfg, Exec(cfg, Start(t0), steps[..n]), steps[n], labels);
    }
  }
}
