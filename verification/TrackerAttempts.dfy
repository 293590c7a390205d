/**
 How often, and where, a gap is asked for. If the gap's flow is neither reset nor
 evicted and copies of the gap exist one at a time, then NACKs and failed attempts
 together number at most MaxRetries, and NACK number k goes to the endpoint at
 position k of the order, counting failed attempts and clamped at the last.
 Attempts that are finished by the end of their hold-off are one at a time.
 */
module TrackerAttempts {
  import opened Common
  import opened TrackerSpec
  import opened Endpoints
  import opened TrackerRuns
  import opened TrackerInvariant
  import opened TrackerCopies

  ghost function GapAt(s: State, id: GapId): Option<Gap> {
    if IsPending(s, id.0, id.1) then Some(s.flows[id.0].pending[id.1]) else None
  }

  /** The flow's counter has passed this number, so it will not be registered again. */
  ghost predicate Passed(s: State, id: GapId) { id.0 in s.flows && id.1 < s.flows[id.0].lastSeqNum }

  /** What the world records about one gap. */
  datatype History = History(log: seq<Contact>, failed: nat)

  ghost function HistoryOf(w: World, id: GapId): History { History(Log(w, id), Failed(w, id)) }

  /** NACK number i carries the index i plus the failed attempts before it, and went where that index points. */
  ghost predicate ContactOk(cfg: Config, c: Contact, i: nat, failed: nat) {
    && c.attempt == i + c.failed < cfg.maxRetries && c.failed <= failed
    && c.snapshot != [] && c.endpoint == c.snapshot[Position(c.attempt, |c.snapshot|)]
  }

  ghost predicate LogOk(cfg: Config, h: History) {
    && (forall i :: 0 <= i < |h.log| ==> ContactOk(cfg, h.log[i], i, h.failed))
    && (forall i, j :: 0 <= i < j < |h.log| ==> h.log[i].failed <= h.log[j].failed)
    && (Tries(h) == 0 || Tries(h) <= cfg.maxRetries)
  }

  /** NACKs sent and attempts failed. */
  ghost function Tries(h: History): nat { |h.log| + h.failed }

  /** An outstanding copy carries the pending gap's index, which is the number of tries before it. */
  ghost predicate CopyOk(cfg: Config, gap: Option<Gap>, h: History, e: Gap, sent: bool) {
    && e.endpointIdx < cfg.maxRetries
    && (gap.Some? ==> gap.value.endpointIdx == e.endpointIdx && gap.value.nextAttempt >= e.nextAttempt)
    && (if sent then |h.log| > 0 && e.endpointIdx == Tries(h) - 1 else e.endpointIdx == Tries(h))
  }

  /** The invariant, over the parts of a world that concern one gap. */
  ghost predicate Discipline(cfg: Config, id: GapId, gap: Option<Gap>, passed: bool, queue: seq<Gap>,
                             running: map<nat, Attempt>, h: History) {
    && OneCopy(queue, running, id)
    && LogOk(cfg, h)
    && (forall i :: Queued(queue, id, i) ==> CopyOk(cfg, gap, h, queue[i], false))
    && (forall t :: Running(running, id, t) ==> CopyOk(cfg, gap, h, running[t].gap, running[t].sentTo.Some?))
    && (gap.Some? && NoCopies(queue, running, id) ==> gap.value.endpointIdx == Tries(h))
    && (!passed ==> gap.None? && Tries(h) == 0 && NoCopies(queue, running, id))
  }

  ghost predicate Disciplined(cfg: Config, w: World, id: GapId) {
    Discipline(cfg, id, GapAt(w.st, id), Passed(w.st, id), w.st.queue, w.running, HistoryOf(w, id))
  }

  // ------------------------------------------------- Effects on one gap

  lemma Closed(cfg: Config, id: GapId, gap: Option<Gap>, queue: seq<Gap>, running: map<nat, Attempt>, h: History)
    requires Discipline(cfg, id, gap, true, queue, running, h)
    ensures Discipline(cfg, id, None, true, queue, running, h)
  {
  }

  lemma Opened(cfg: Config, id: GapId, gap: Gap, queue: seq<Gap>, running: map<nat, Attempt>, h: History)
    requires Discipline(cfg, id, None, false, queue, running, h) && gap.endpointIdx == 0
    ensures Discipline(cfg, id, Some(gap), true, queue, running, h)
  {
  }

  lemma PassedBy(cfg: Config, id: GapId, gap: Option<Gap>, queue: seq<Gap>, running: map<nat, Attempt>, h: History,
                 before: bool)
    requires Discipline(cfg, id, gap, before, queue, running, h)
    ensures Discipline(cfg, id, gap, true, queue, running, h)
  {
  }

  /** A due gap has no copy out: each copy would still be inside its hold-off. */
  lemma DueMeansNoCopies(cfg: Config, id: GapId, gap: Gap, passed: bool, queue: seq<Gap>, running: map<nat, Attempt>,
                         h: History, now: Time)
    requires Discipline(cfg, id, Some(gap), passed, queue, running, h)
    requires OnTime(queue, running, id, now) && now > gap.nextAttempt
    ensures NoCopies(queue, running, id)
  {
  }

  /** At time `now`, every copy of the gap is still inside its hold-off. */
  ghost predicate OnTime(queue: seq<Gap>, running: map<nat, Attempt>, id: GapId, now: Time) {
    && (forall i :: Queued(queue, id, i) ==> now <= queue[i].nextAttempt)
    && (forall t :: Running(running, id, t) ==> now <= running[t].gap.nextAttempt)
  }

  lemma Enqueued(cfg: Config, id: GapId, gap: Gap, queue: seq<Gap>, running: map<nat, Attempt>, h: History, held: Gap)
    requires Discipline(cfg, id, Some(gap), true, queue, running, h) && NoCopies(queue, running, id)
    requires IdOf(held) == id && held.endpointIdx == gap.endpointIdx < cfg.maxRetries
    ensures Discipline(cfg, id, Some(held), true, queue + [held], running, h)
  {
    var queue' := queue + [held];
    forall i ensures Queued(queue', id, i) <==> Queued(queue, id, i) || i == |queue| {
    }
    assert Queued(queue', id, |queue|);
  }

  lemma Refused(cfg: Config, id: GapId, gap: Gap, queue: seq<Gap>, running: map<nat, Attempt>, h: History, gap': Gap)
    requires Discipline(cfg, id, Some(gap), true, queue, running, h)
    requires gap'.endpointIdx == gap.endpointIdx && gap'.nextAttempt >= gap.nextAttempt
    ensures Discipline(cfg, id, Some(gap'), true, queue, running, h)
  {
  }

  /** Copies of other gaps do not matter. */
  lemma QueuedOther(cfg: Config, id: GapId, gap: Option<Gap>, passed: bool, queue: seq<Gap>, running: map<nat, Attempt>,
                    h: History, e: Gap)
    requires Discipline(cfg, id, gap, passed, queue, running, h) && IdOf(e) != id
    ensures Discipline(cfg, id, gap, passed, queue + [e], running, h)
  {
    forall i ensures Queued(queue + [e], id, i) <==> Queued(queue, id, i) {
    }
  }

  lemma Dispatched(cfg: Config, id: GapId, gap: Option<Gap>, passed: bool, queue: seq<Gap>, running: map<nat, Attempt>,
                   h: History, t: nat)
    requires Discipline(cfg, id, gap, passed, queue, running, h) && queue != [] && t !in running
    ensures Discipline(cfg, id, gap, passed, queue[1..], running[t := Attempt(queue[0], None)], h)
  {
    var queue', running' := queue[1..], running[t := Attempt(queue[0], None)];
    forall i ensures Queued(queue', id, i) <==> i != -1 && Queued(queue, id, i + 1) {
    }
    forall u: nat ensures Running(running', id, u) <==> Running(running, id, u) || (u == t && Queued(queue, id, 0)) {
    }
  }

  lemma DropsAttempt(cfg: Config, id: GapId, gap: Option<Gap>, passed: bool, queue: seq<Gap>, running: map<nat,
                     Attempt>,
                     h: History, t: nat)
    requires Discipline(cfg, id, gap, passed, queue, running, h) && t in running && running[t].sentTo.None?
    ensures Discipline(cfg, id, gap, passed, queue, running - {t}, h)
  {
    var running' := running - {t};
    forall u: nat ensures Running(running', id, u) <==> Running(running, id, u) && u != t {
    }
    if gap.Some? && NoCopies(queue, running', id) && Running(running, id, t) {
      assert CopyOk(cfg, gap, h, running[t].gap, false);
    }
  }

  lemma SentOther(cfg: Config, id: GapId, gap: Option<Gap>, passed: bool, queue: seq<Gap>, running: map<nat, Attempt>,
                  h: History, t: nat, a: Attempt)
    requires Discipline(cfg, id, gap, passed, queue, running, h)
    requires t in running && IdOf(running[t].gap) != id && IdOf(a.gap) != id
    ensures Discipline(cfg, id, gap, passed, queue, running[t := a], h)
  {
    var running' := running[t := a];
    forall u: nat
      ensures Running(running', id, u) <==> Running(running, id, u)
      ensures Running(running, id, u) ==> running'[u] == running[u]
    {
    }
    assert NoCopies(queue, running', id) <==> NoCopies(queue, running, id);
  }

  lemma SentOwn(cfg: Config, id: GapId, gap: Option<Gap>, passed: bool, queue: seq<Gap>, running: map<nat, Attempt>,
                h: History, t: nat, snapshot: seq<Endpoint>, c: Contact)
    requires Discipline(cfg, id, gap, passed, queue, running, h)
    requires Running(running, id, t) && running[t].sentTo.None? && snapshot != []
    requires c == Contact(running[t].gap.endpointIdx, snapshot,
                          snapshot[Position(running[t].gap.endpointIdx, |snapshot|)], h.failed)
    ensures Discipline(cfg, id, gap, passed, queue, running[t := Attempt(running[t].gap, Some(snapshot))],
                       h.(log := h.log + [c]))
  {
    var running' := running[t := Attempt(running[t].gap, Some(snapshot))];
    forall u: nat ensures Running(running', id, u) <==> Running(running, id, u) {
    }
    assert CopyOk(cfg, gap, h, running[t].gap, false);
    LogGrows(cfg, h, c);
  }

  lemma LogGrows(cfg: Config, h: History, c: Contact)
    requires LogOk(cfg, h) && ContactOk(cfg, c, |h.log|, h.failed) && c.failed == h.failed
    ensures LogOk(cfg, h.(log := h.log + [c]))
  {
    var h' := h.(log := h.log + [c]);
    forall i | 0 <= i < |h'.log| ensures ContactOk(cfg, h'.log[i], i, h'.failed) {
      if i < |h.log| { assert ContactOk(cfg, h.log[i], i, h.failed); }
    }
    forall i, j | 0 <= i < j < |h'.log| ensures h'.log[i].failed <= h'.log[j].failed {
      assert ContactOk(cfg, h.log[i], i, h.failed);
    }
  }

  /** The history when an attempt ends: one without a NACK counts as failed. */
  ghost function Ended(h: History, sent: bool): History { if sent then h else h.(failed := h.failed + 1) }

  lemma LogEnds(cfg: Config, h: History, sent: bool)
    requires LogOk(cfg, h) && (!sent ==> Tries(h) < cfg.maxRetries)
    ensures LogOk(cfg, Ended(h, sent))
  {
    forall i | 0 <= i < |h.log| ensures ContactOk(cfg, h.log[i], i, Ended(h, sent).failed) {
      assert ContactOk(cfg, h.log[i], i, h.failed);
    }
  }

  /** An attempt that ends with the gap still pending has moved the gap one endpoint on. */
  lemma Moved(cfg: Config, id: GapId, gap: Option<Gap>, passed: bool, queue: seq<Gap>, running: map<nat, Attempt>,
              h: History, t: nat, gap': Option<Gap>)
    requires Discipline(cfg, id, gap, passed, queue, running, h) && Running(running, id, t)
    requires gap'.Some? ==> gap.Some? && gap'.value.endpointIdx == gap.value.endpointIdx + 1
    ensures Discipline(cfg, id, gap', passed, queue, running - {t}, Ended(h, running[t].sentTo.Some?))
  {
    var running' := running - {t};
    forall u: nat ensures Running(running', id, u) <==> Running(running, id, u) && u != t {
    }
    assert CopyOk(cfg, gap, h, running[t].gap, running[t].sentTo.Some?);
    LogEnds(cfg, h, running[t].sentTo.Some?);
  }

  lemma FinishedOther(cfg: Config, id: GapId, gap: Option<Gap>, passed: bool, queue: seq<Gap>, running: map<nat,
                      Attempt>,
                      h: History, t: nat)
    requires Discipline(cfg, id, gap, passed, queue, running, h) && !Running(running, id, t)
    ensures Discipline(cfg, id, gap, passed, queue, running - {t}, h)
  {
    forall u: nat ensures Running(running - {t}, id, u) <==> Running(running, id, u) {
    }
  }

  // ------------------------------------------------- Steps of the machine

  lemma ObservedGap(cfg: Config, s: State, a: Arrival, clock: Time, now: Time, jitter: Jitter, id: GapId)
    requires FlowsOk(cfg, s, clock) && a.seqNum != 0 && a.hashKey == id.0
    requires id.0 in s.flows ==> !IsRestart(cfg, s.flows[id.0].lastSeqNum, a.seqNum)
    ensures var s' := Observe(cfg, s, a, now, jitter);
      && (Passed(s, id) ==> Passed(s', id) && (GapAt(s', id).None? || GapAt(s', id) == GapAt(s, id)))
      && (!Passed(s, id) && GapAt(s', id).Some? ==> GapAt(s', id).value.endpointIdx == 0 && Passed(s', id))
  {
    if id.0 in s.flows {
      assert FlowOk(cfg, id.0, s.flows[id.0], clock);
      ClassifiedGap(cfg, FlowFor(s, a, now), a, now, jitter, id.1);
    }
  }

  /** One number of an established flow: a passed one keeps its gap or loses it, a new gap starts at index 0. */
  lemma ClassifiedGap(cfg: Config, f: Flow, a: Arrival, now: Time, jitter: Jitter, q: uint64)
    requires 0 < f.lastSeqNum && !IsRestart(cfg, f.lastSeqNum, a.seqNum)
    requires forall r :: r in f.pending ==> r < f.lastSeqNum
    ensures var f' := Classify(cfg, Filled(f, a.seqNum), a, now, jitter).flow;
      && f'.lastSeqNum >= f.lastSeqNum
      && (q in f'.pending ==> q < f'.lastSeqNum)
      && (q < f.lastSeqNum && q in f'.pending ==> q in f.pending && f'.pending[q] == f.pending[q])
      && (q >= f.lastSeqNum && q in f'.pending ==> f'.pending[q].endpointIdx == 0)
  {
    var g := Filled(f, a.seqNum);
    if a.seqNum > g.lastSeqNum + 1 {
      RegisterContents(cfg, g.pending, g.lastSeqNum + 1, a.seqNum, a, now, jitter);
    }
  }

  lemma ArriveDisciplined(cfg: Config, w: World, a: Arrival, dt: nat, jitter: Jitter, id: GapId)
    requires FlowsOk(cfg, w.st, w.clock) && Disciplined(cfg, w, id)
    requires a.seqNum != 0 && a.hashKey == id.0 && id.0 in w.st.flows ==>
      !IsRestart(cfg, w.st.flows[id.0].lastSeqNum, a.seqNum)
    ensures Disciplined(cfg, AfterArrival(cfg, w, a, dt, jitter), id)
  {
    if a.seqNum != 0 && a.hashKey == id.0 {
      var w' := AfterArrival(cfg, w, a, dt, jitter);
      ObservedGap(cfg, w.st, a, w.clock, Later(w.clock, dt), jitter, id);
      var queue, running, h := w.st.queue, w.running, HistoryOf(w, id);
      if Passed(w.st, id) {
        Closed(cfg, id, GapAt(w.st, id), queue, running, h);
      } else if GapAt(w'.st, id).Some? {
        Opened(cfg, id, GapAt(w'.st, id).value, queue, running, h);
      } else {
        PassedBy(cfg, id, None, queue, running, h, false);
      }
    }
  }

  /** What dropping or rewriting a pending gap means for the gaps of every id. */
  lemma DropAt(s: State, hk: uint64, q: uint64, id: GapId)
    requires IsPending(s, hk, q)
    ensures GapAt(Drop(s, hk, q), id) == if id == (hk, q) then None else GapAt(s, id)
    ensures Passed(Drop(s, hk, q), id) <==> Passed(s, id)
  {
  }

  lemma PutAt(s: State, hk: uint64, q: uint64, g: Gap, id: GapId)
    requires IsPending(s, hk, q)
    ensures GapAt(Put(s, hk, q, g), id) == if id == (hk, q) then Some(g) else GapAt(s, id)
    ensures Passed(Put(s, hk, q, g), id) <==> Passed(s, id)
  {
  }

  ghost predicate StateDisciplined(cfg: Config, s: State, running: map<nat, Attempt>, h: History, id: GapId) {
    Discipline(cfg, id, GapAt(s, id), Passed(s, id), s.queue, running, h)
  }

  lemma DropDisciplined(cfg: Config, s: State, running: map<nat, Attempt>, h: History, id: GapId, hk: uint64, q: uint64)
    requires StateDisciplined(cfg, s, running, h, id) && IsPending(s, hk, q)
    ensures StateDisciplined(cfg, Drop(s, hk, q), running, h, id)
  {
    DropAt(s, hk, q, id);
    if id == (hk, q) { Closed(cfg, id, GapAt(s, id), s.queue, running, h); }
  }

  lemma VisitDisciplined(cfg: Config, s: State, running: map<nat, Attempt>, h: History, id: GapId, v: Visit,
                         now: Time, clock: Time)
    requires StateDisciplined(cfg, s, running, h, id) && FlowsOk(cfg, s, clock)
    requires VisitClear(cfg, s, running, v, now, id)
    requires id.0 in s.flows ==> id.0 in SweepVisit(cfg, s, v, now).flows
    ensures StateDisciplined(cfg, SweepVisit(cfg, s, v, now), running, h, id)
  {
    if v.VisitGap? && IsPending(s, v.hashKey, v.seqNum) {
      var hk, q := v.hashKey, v.seqNum;
      var g := s.flows[hk].pending[q];
      assert FlowOk(cfg, hk, s.flows[hk], clock) && GapOk(cfg, hk, q, g, s.flows[hk].lastSeqNum, s.flows[hk].lastSeen);
      if IsDead(cfg, g, now) {
        DropDisciplined(cfg, s, running, h, id, hk, q);
      } else if now > g.nextAttempt {
        DueDisciplined(cfg, s, running, h, id, hk, q, now);
      }
    }
  }

  /** Enqueueing a due gap, or being refused by a full queue. */
  lemma DueDisciplined(cfg: Config, s: State, running: map<nat, Attempt>, h: History, id: GapId,
                       hk: uint64, q: uint64, now: Time)
    requires StateDisciplined(cfg, s, running, h, id) && IsPending(s, hk, q)
    requires VisitClear(cfg, s, running, VisitGap(hk, q), now, id)
    requires var g := s.flows[hk].pending[q];
      now > g.nextAttempt && !IsDead(cfg, g, now) && g.retries == g.endpointIdx && IdOf(g) == (hk, q)
    ensures StateDisciplined(cfg, SweepGap(cfg, s, hk, q, now), running, h, id)
  {
    if id == (hk, q) {
      DueOwn(cfg, s, running, h, hk, q, now);
    } else {
      DueOther(cfg, s, running, h, id, hk, q, now);
    }
  }

  lemma DueOwn(cfg: Config, s: State, running: map<nat, Attempt>, h: History, hk: uint64, q: uint64, now: Time)
    requires StateDisciplined(cfg, s, running, h, (hk, q)) && IsPending(s, hk, q)
    requires VisitClear(cfg, s, running, VisitGap(hk, q), now, (hk, q))
    requires now > s.flows[hk].pending[q].nextAttempt && !IsDead(cfg, s.flows[hk].pending[q], now)
    requires s.flows[hk].pending[q].retries == s.flows[hk].pending[q].endpointIdx
    requires IdOf(s.flows[hk].pending[q]) == (hk, q)
    ensures StateDisciplined(cfg, SweepGap(cfg, s, hk, q, now), running, h, (hk, q))
  {
    var g := s.flows[hk].pending[q];
    if |s.queue| < QUEUE_CAP {
      var held := g.(nextAttempt := now + HOLD_OFF);
      PutAt(s, hk, q, held, (hk, q));
      Enqueued(cfg, (hk, q), g, s.queue, running, h, held);
    } else {
      var again := g.(nextAttempt := now);
      PutAt(s, hk, q, again, (hk, q));
      Refused(cfg, (hk, q), g, s.queue, running, h, again);
    }
  }

  lemma DueOther(cfg: Config, s: State, running: map<nat, Attempt>, h: History, id: GapId,
                 hk: uint64, q: uint64, now: Time)
    requires StateDisciplined(cfg, s, running, h, id) && IsPending(s, hk, q) && id != (hk, q)
    requires now > s.flows[hk].pending[q].nextAttempt && !IsDead(cfg, s.flows[hk].pending[q], now)
    requires IdOf(s.flows[hk].pending[q]) == (hk, q)
    ensures StateDisciplined(cfg, SweepGap(cfg, s, hk, q, now), running, h, id)
  {
    var g := s.flows[hk].pending[q];
    if |s.queue| < QUEUE_CAP {
      var held := g.(nextAttempt := now + HOLD_OFF);
      PutAt(s, hk, q, held, id);
      QueuedOther(cfg, id, GapAt(s, id), Passed(s, id), s.queue, running, h, held);
    } else {
      PutAt(s, hk, q, g.(nextAttempt := now), id);
    }
  }

  lemma {:induction false} SweepAddsNoFlow(cfg: Config, s: State, visits: seq<Visit>, now: Time)
    ensures SweepAll(cfg, s, visits, now).flows.Keys <= s.flows.Keys
  {
    if visits != [] { SweepAddsNoFlow(cfg, s, visits[..|visits| - 1], now); }
  }

  lemma {:induction false} SweepDisciplined(cfg: Config, s: State, running: map<nat, Attempt>, h: History, id: GapId,
                                            visits: seq<Visit>, now: Time, clock: Time)
    requires StateDisciplined(cfg, s, running, h, id) && FlowsOk(cfg, s, clock)
    requires SweepClear(cfg, s, running, visits, now, id)
    requires id.0 in s.flows ==> id.0 in SweepAll(cfg, s, visits, now).flows
    ensures StateDisciplined(cfg, SweepAll(cfg, s, visits, now), running, h, id)
  {
    if visits != [] {
      var n := |visits| - 1;
      SweepDisciplined(cfg, s, running, h, id, visits[..n], now, clock);
      SweepOk(cfg, s, visits[..n], now, clock);
      SweepAddsNoFlow(cfg, s, visits[..n], now);
      VisitDisciplined(cfg, SweepAll(cfg, s, visits[..n], now), running, h, id, visits[n], now, clock);
    }
  }

  lemma SendDisciplined(cfg: Config, w: World, t: nat, snapshot: seq<Endpoint>, id: GapId)
    requires Disciplined(cfg, w, id) && Holds(w, t, false)
    ensures Disciplined(cfg, AfterSend(w, t, snapshot), id)
  {
    var gap, passed, queue, running, h := GapAt(w.st, id), Passed(w.st, id), w.st.queue, w.running, HistoryOf(w, id);
    var e := running[t].gap;
    if snapshot == [] {
      DropsAttempt(cfg, id, gap, passed, queue, running, h, t);
    } else if IdOf(e) == id {
      SentOwn(cfg, id, gap, passed, queue, running, h, t, snapshot,
              Contact(e.endpointIdx, snapshot, snapshot[Position(e.endpointIdx, |snapshot|)], h.failed));
    } else {
      SentOther(cfg, id, gap, passed, queue, running, h, t, Attempt(e, Some(snapshot)));
    }
  }

  /** An attempt ends: its gap is closed or moved on, and the copy is gone. */
  lemma FinishDisciplined(cfg: Config, w: World, t: nat, w': World, id: GapId)
    requires Disciplined(cfg, w, id) && t in w.running && w'.st.queue == w.st.queue && w'.running == w.running - {t}
    requires Passed(w'.st, id) == Passed(w.st, id)
    requires IdOf(w.running[t].gap) != id ==>
      GapAt(w'.st, id) == GapAt(w.st, id) && HistoryOf(w', id) == HistoryOf(w, id)
    requires IdOf(w.running[t].gap) == id ==> HistoryOf(w', id) == Ended(HistoryOf(w, id), w.running[t].sentTo.Some?)
    requires IdOf(w.running[t].gap) == id && GapAt(w'.st, id).Some? ==>
      GapAt(w.st, id).Some? && GapAt(w'.st, id).value.endpointIdx == GapAt(w.st, id).value.endpointIdx + 1
    ensures Disciplined(cfg, w', id)
  {
    if IdOf(w.running[t].gap) == id {
      Moved(cfg, id, GapAt(w.st, id), Passed(w.st, id), w.st.queue, w.running, HistoryOf(w, id), t, GapAt(w'.st, id));
    } else {
      FinishedOther(cfg, id, GapAt(w.st, id), Passed(w.st, id), w.st.queue, w.running, HistoryOf(w, id), t);
    }
  }

  lemma AdvanceAt(cfg: Config, s: State, e: Gap, immediate: bool, n: nat, now: Time, id: GapId)
    ensures var s' := AdvanceEndpoint(cfg, s, e, immediate, n, now);
      && s'.queue == s.queue && Passed(s', id) == Passed(s, id)
      && (IdOf(e) != id ==> GapAt(s', id) == GapAt(s, id))
      && (IdOf(e) == id && GapAt(s', id).Some? ==>
            GapAt(s, id).Some? && GapAt(s', id).value.endpointIdx == GapAt(s, id).value.endpointIdx + 1)
  {
    if IsPending(s, e.hashKey, e.seqNum) {
      PutAt(s, e.hashKey, e.seqNum, Advanced(cfg, s.flows[e.hashKey].pending[e.seqNum], immediate, n, now), id);
    }
  }

  /**
   A timeout moves the gap on to the next endpoint exactly when the gap is still
   pending; nothing else about the flows changes.
   */
  lemma TimeoutAdvances(cfg: Config, w: World, t: nat, now: Time, w': World, id: GapId)
    requires Holds(w, t, true) && w' == Next(cfg, w, Answered(t, Silence, now))
    ensures var mine := IdOf(w.running[t].gap);
      && (id != mine ==> GapAt(w'.st, id) == GapAt(w.st, id))
      && (GapAt(w'.st, mine).Some? <==> GapAt(w.st, mine).Some?)
      && (GapAt(w.st, mine).Some? ==>
            GapAt(w'.st, mine).value.endpointIdx == GapAt(w.st, mine).value.endpointIdx + 1 &&
            GapAt(w'.st, mine).value.retries == GapAt(w.st, mine).value.retries + 1)
  {
    var e := w.running[t].gap;
    if IsPending(w.st, e.hashKey, e.seqNum) {
      var g := Advanced(cfg, w.st.flows[e.hashKey].pending[e.seqNum], false, 0, now);
      PutAt(w.st, e.hashKey, e.seqNum, g, id);
      PutAt(w.st, e.hashKey, e.seqNum, g, IdOf(e));
    }
  }

  lemma CancelAt(s: State, e: Gap, id: GapId)
    ensures var s' := CancelGap(s, e);
      && s'.queue == s.queue && Passed(s', id) == Passed(s, id)
      && (IdOf(e) != id ==> GapAt(s', id) == GapAt(s, id))
      && (IdOf(e) == id ==> GapAt(s', id).None?)
  {
    if IsPending(s, e.hashKey, e.seqNum) { DropAt(s, e.hashKey, e.seqNum, id); }
  }

  lemma AttemptStepDisciplined(cfg: Config, w: World, step: Step, id: GapId)
    requires Disciplined(cfg, w, id) && IsAttemptStep(step)
    ensures Disciplined(cfg, AttemptNext(cfg, w, step), id)
  {
    if step.Dispatch? {
      if w.st.queue != [] && step.ticket !in w.running {
        Dispatched(cfg, id, GapAt(w.st, id), Passed(w.st, id), w.st.queue, w.running, HistoryOf(w, id), step.ticket);
      }
    } else if step.Send? {
      if Holds(w, step.ticket, false) { SendDisciplined(cfg, w, step.ticket, step.snapshot, id); }
    } else if step.Fail? {
      if Holds(w, step.ticket, false) {
        var e := w.running[step.ticket].gap;
        AdvanceAt(cfg, w.st, e, false, 0, step.now, id);
        FinishDisciplined(cfg, w, step.ticket, AfterFail(cfg, w, step.ticket, step.now), id);
      }
    } else if Holds(w, step.ticket, true) {
      AnswerDisciplined(cfg, w, step.ticket, step.answer, step.now, id);
    }
  }

  lemma AnswerDisciplined(cfg: Config, w: World, t: nat, answer: Answer, now: Time, id: GapId)
    requires Disciplined(cfg, w, id) && Holds(w, t, true)
    ensures Disciplined(cfg, AfterAnswer(cfg, w, t, answer, now), id)
  {
    var e, n := w.running[t].gap, |w.running[t].sentTo.value|;
    match answer {
      case Ack => CancelAt(w.st, e, id);
      case Miss => AdvanceAt(cfg, w.st, e, true, n, now, id);
      case Silence => AdvanceAt(cfg, w.st, e, false, 0, now, id);
    }
    FinishDisciplined(cfg, w, t, AfterAnswer(cfg, w, t, answer, now), id);
  }

  /** The gap's flow is neither reset nor evicted. */
  ghost predicate LivesOn(cfg: Config, w: World, step: Step, id: GapId) {
    && (step.Arrive? && step.a.seqNum != 0 && step.a.hashKey == id.0 && id.0 in w.st.flows ==>
          !IsRestart(cfg, w.st.flows[id.0].lastSeqNum, step.a.seqNum))
    && (step.Sweep? && id.0 in w.st.flows ==> id.0 in Next(cfg, w, step).st.flows)
  }

  /** The two conditions of the law: the flow lives on, and no sweep enqueues the gap while a copy of it is out. */
  ghost predicate Orderly(cfg: Config, w: World, step: Step, id: GapId) {
    LivesOn(cfg, w, step, id) && StepClear(cfg, w, step, id)
  }

  ghost predicate LivingRun(cfg: Config, w: World, steps: seq<Step>, id: GapId) {
    steps != [] ==>
      LivingRun(cfg, w, steps[..|steps| - 1], id) &&
      LivesOn(cfg, Exec(cfg, w, steps[..|steps| - 1]), steps[|steps| - 1], id)
  }

  ghost predicate OrderlyRun(cfg: Config, w: World, steps: seq<Step>, id: GapId) {
    steps != [] ==>
      OrderlyRun(cfg, w, steps[..|steps| - 1], id) &&
      Orderly(cfg, Exec(cfg, w, steps[..|steps| - 1]), steps[|steps| - 1], id)
  }

  /** A run is orderly exactly when the flow lives on and at most one copy of the gap is ever out. */
  lemma {:induction false} OrderlyIff(cfg: Config, t0: Time, steps: seq<Step>, id: GapId)
    ensures OrderlyRun(cfg, Start(t0), steps, id) <==>
      LivingRun(cfg, Start(t0), steps, id) && AlwaysOneCopy(cfg, Start(t0), steps, id)
  {
    OrderlyParts(cfg, Start(t0), steps, id);
    OneCopyIff(cfg, t0, steps, id);
  }

  lemma {:induction false} OrderlyParts(cfg: Config, w: World, steps: seq<Step>, id: GapId)
    ensures OrderlyRun(cfg, w, steps, id) <==> LivingRun(cfg, w, steps, id) && RunClear(cfg, w, steps, id)
  {
    if steps != [] {
      OrderlyParts(cfg, w, steps[..|steps| - 1], id);
    }
  }

  lemma StepDisciplined(cfg: Config, w: World, step: Step, id: GapId)
    requires FlowsOk(cfg, w.st, w.clock) && Disciplined(cfg, w, id) && Orderly(cfg, w, step, id)
    ensures Disciplined(cfg, Next(cfg, w, step), id)
  {
    if IsAttemptStep(step) {
      AttemptStepDisciplined(cfg, w, step, id);
    } else if step.Arrive? {
      ArriveDisciplined(cfg, w, step.a, step.dt, step.jitter, id);
    } else if step.FillGap? {
      FillDisciplined(cfg, w, step.hashKey, step.seqNum, id);
    } else if CompleteOrder(w.st.flows, step.visits) {
      SweepStepDisciplined(cfg, w, step.visits, step.now, id);
    }
  }

  lemma FillDisciplined(cfg: Config, w: World, hk: uint64, q: uint64, id: GapId)
    requires Disciplined(cfg, w, id)
    ensures Disciplined(cfg, w.(st := Fill(w.st, hk, q)), id)
  {
    if IsPending(w.st, hk, q) {
      DropDisciplined(cfg, w.st, w.running, HistoryOf(w, id), id, hk, q);
    }
  }

  lemma SweepStepDisciplined(cfg: Config, w: World, visits: seq<Visit>, now: Time, id: GapId)
    requires FlowsOk(cfg, w.st, w.clock) && Disciplined(cfg, w, id)
    requires SweepClear(cfg, w.st, w.running, visits, now, id)
    requires id.0 in w.st.flows ==> id.0 in SweepAll(cfg, w.st, visits, now).flows
    ensures Disciplined(cfg, AfterSweep(cfg, w, visits, now), id)
  {
    SweepDisciplined(cfg, w.st, w.running, HistoryOf(w, id), id, visits, now, w.clock);
  }

  lemma {:induction false} OrderlyRunsDisciplined(cfg: Config, t0: Time, steps: seq<Step>, id: GapId)
    requires OrderlyRun(cfg, Start(t0), steps, id)
    ensures Disciplined(cfg, Exec(cfg, Start(t0), steps), id)
  {
    if steps != [] {
      var n := |steps| - 1;
      OrderlyRunsDisciplined(cfg, t0, steps[..n], id);
      EveryRunOk(cfg, t0, steps[..n]);
      StepDisciplined(cfg, Exec(cfg, Start(t0), steps[..n]), steps[n], id);
    }
  }

  // ------------------------------------------------- Punctual attempts

  /** Every attempt for the gap is finished by the time its hold-off ends. */
  ghost predicate Punctual(w: World, step: Step, id: GapId) {
    step.Sweep? ==> OnTime(w.st.queue, w.running, id, step.now)
  }

  ghost predicate PunctualRun(cfg: Config, w: World, steps: seq<Step>, id: GapId) {
    steps != [] ==>
      PunctualRun(cfg, w, steps[..|steps| - 1], id) &&
      Punctual(Exec(cfg, w, steps[..|steps| - 1]), steps[|steps| - 1], id)
  }

  lemma VisitOnTime(cfg: Config, s: State, running: map<nat, Attempt>, h: History, id: GapId, v: Visit, now: Time,
                    clock: Time)
    requires StateDisciplined(cfg, s, running, h, id) && FlowsOk(cfg, s, clock) && OnTime(s.queue, running, id, now)
    ensures VisitClear(cfg, s, running, v, now, id)
    ensures OnTime(SweepVisit(cfg, s, v, now).queue, running, id, now)
  {
    if v == VisitGap(id.0, id.1) && IsPending(s, id.0, id.1) && Enqueues(cfg, s, id, now) {
      DueMeansNoCopies(cfg, id, s.flows[id.0].pending[id.1], Passed(s, id), s.queue, running, h, now);
    }
  }

  lemma {:induction false} SweepOnTime(cfg: Config, s: State, running: map<nat, Attempt>, h: History, id: GapId,
                                       visits: seq<Visit>, now: Time, clock: Time)
    requires StateDisciplined(cfg, s, running, h, id) && FlowsOk(cfg, s, clock) && OnTime(s.queue, running, id, now)
    requires id.0 in s.flows ==> id.0 in SweepAll(cfg, s, visits, now).flows
    ensures SweepClear(cfg, s, running, visits, now, id)
    ensures OnTime(SweepAll(cfg, s, visits, now).queue, running, id, now)
  {
    if visits != [] {
      var n := |visits| - 1;
      SweepShrinks(cfg, s, visits, now, id);
      SweepOnTime(cfg, s, running, h, id, visits[..n], now, clock);
      SweepDisciplined(cfg, s, running, h, id, visits[..n], now, clock);
      SweepOk(cfg, s, visits[..n], now, clock);
      VisitOnTime(cfg, SweepAll(cfg, s, visits[..n], now), running, h, id, visits[n], now, clock);
    }
  }

  /** A flow that is there after a sweep was there all through it. */
  lemma SweepShrinks(cfg: Config, s: State, visits: seq<Visit>, now: Time, id: GapId)
    requires visits != []
    ensures id.0 in SweepAll(cfg, s, visits, now).flows ==> id.0 in SweepAll(cfg, s, visits[..|visits| - 1], now).flows
  {
  }

  /** If every attempt is finished in time, a run in which the flow lives on is orderly. */
  lemma {:induction false} PunctualRunsOrderly(cfg: Config, t0: Time, steps: seq<Step>, id: GapId)
    requires LivingRun(cfg, Start(t0), steps, id) && PunctualRun(cfg, Start(t0), steps, id)
    ensures OrderlyRun(cfg, Start(t0), steps, id)
  {
    if steps != [] {
      var n := |steps| - 1;
      var w, step := Exec(cfg, Start(t0), steps[..n]), steps[n];
      PunctualRunsOrderly(cfg, t0, steps[..n], id);
      OrderlyRunsDisciplined(cfg, t0, steps[..n], id);
      EveryRunOk(cfg, t0, steps[..n]);
      if step.Sweep? && CompleteOrder(w.st.flows, step.visits) {
        SweepOnTime(cfg, w.st, w.running, HistoryOf(w, id), id, step.visits, step.now, w.clock);
      }
    }
  }

  // ------------------------------------------------- The laws

  /** While copies exist one at a time, MaxRetries bounds the NACKs sent and the attempts failed, taken together. */
  lemma AtMostMaxRetries(cfg: Config, t0: Time, steps: seq<Step>, id: GapId, w: World)
    requires LivingRun(cfg, Start(t0), steps, id) && AlwaysOneCopy(cfg, Start(t0), steps, id)
    requires w == Exec(cfg, Start(t0), steps)
    ensures |Log(w, id)| + Failed(w, id) == 0 || |Log(w, id)| + Failed(w, id) <= cfg.maxRetries
  {
    OrderlyIff(cfg, t0, steps, id);
    OrderlyRunsDisciplined(cfg, t0, steps, id);
  }

  /** The same bound when every attempt is finished inside its hold-off. */
  lemma PunctualAtMostMaxRetries(cfg: Config, t0: Time, steps: seq<Step>, id: GapId, w: World)
    requires LivingRun(cfg, Start(t0), steps, id) && PunctualRun(cfg, Start(t0), steps, id)
    requires w == Exec(cfg, Start(t0), steps)
    ensures OneCopy(w.st.queue, w.running, id)
    ensures |Log(w, id)| + Failed(w, id) == 0 || |Log(w, id)| + Failed(w, id) <= cfg.maxRetries
  {
    PunctualRunsOrderly(cfg, t0, steps, id);
    OrderlyRunsDisciplined(cfg, t0, steps, id);
  }

  /**
   NACK number i goes to position min(i + failed, n - 1) of the n endpoints its
   snapshot lists, where `failed` counts the attempts that failed before it: no
   endpoint is skipped but by a failed attempt, and none is gone back to.
   */
  lemma NackPosition(cfg: Config, t0: Time, steps: seq<Step>, id: GapId, log: seq<Contact>, i: nat)
    requires OrderlyRun(cfg, Start(t0), steps, id) && log == Log(Exec(cfg, Start(t0), steps), id) && i < |log|
    ensures WentTo(log[i], i + log[i].failed) && log[i].failed <= Failed(Exec(cfg, Start(t0), steps), id)
  {
    OrderlyRunsDisciplined(cfg, t0, steps, id);
    PositionOf(cfg, HistoryOf(Exec(cfg, Start(t0), steps), id), i);
  }

  /** The NACK went to position k of its snapshot, or to the last if there are fewer. */
  ghost predicate WentTo(c: Contact, k: nat) {
    c.snapshot != [] && c.endpoint == c.snapshot[Min(k, |c.snapshot| - 1)]
  }

  lemma PositionOf(cfg: Config, h: History, i: nat)
    requires LogOk(cfg, h) && i < |h.log|
    ensures WentTo(h.log[i], i + h.log[i].failed) && h.log[i].failed <= h.failed
  {
    assert ContactOk(cfg, h.log[i], i, h.failed);
  }

  /** Without failed attempts, NACK number i goes to position min(i, n - 1). */
  lemma NackInOrder(cfg: Config, t0: Time, steps: seq<Step>, id: GapId, log: seq<Contact>, i: nat)
    requires OrderlyRun(cfg, Start(t0), steps, id) && log == Log(Exec(cfg, Start(t0), steps), id) && i < |log|
    requires Failed(Exec(cfg, Start(t0), steps), id) == 0
    ensures WentTo(log[i], i)
  {
    OrderlyRunsDisciplined(cfg, t0, steps, id);
    InOrder(cfg, HistoryOf(Exec(cfg, Start(t0), steps), id), i);
  }

  lemma InOrder(cfg: Config, h: History, i: nat)
    requires LogOk(cfg, h) && i < |h.log| && h.failed == 0
    ensures WentTo(h.log[i], i)
  {
    PositionOf(cfg, h, i);
  }

  /** The next attempt, queued, held or still to come, carries the number of tries before it. */
  lemma NextIndex(cfg: Config, t0: Time, steps: seq<Step>, id: GapId, w: World)
    requires OrderlyRun(cfg, Start(t0), steps, id) && w == Exec(cfg, Start(t0), steps)
    ensures forall i :: Queued(w.st.queue, id, i) ==> w.st.queue[i].endpointIdx == |Log(w, id)| + Failed(w, id)
    ensures forall t :: Running(w.running, id, t) ==>
      w.running[t].gap.endpointIdx == |Log(w, id)| + Failed(w, id) - if w.running[t].sentTo.Some? then 1 else 0
    ensures GapAt(w.st, id).Some? && NoCopies(w.st.queue, w.running, id) ==>
      GapAt(w.st, id).value.endpointIdx == |Log(w, id)| + Failed(w, id)
  {
    OrderlyRunsDisciplined(cfg, t0, steps, id);
  }

  /**
   If two attempts for a gap saw the same tiers and preferences, in whatever
   order ties came out, the later one does not go to a lower tier.
   */
  lemma TiersNeverDecrease(cfg: Config, t0: Time, steps: seq<Step>, id: GapId, log: seq<Contact>, i: nat, j: nat)
    requires OrderlyRun(cfg, Start(t0), steps, id) && log == Log(Exec(cfg, Start(t0), steps), id)
    requires i < j < |log| && Sorted(log[i].snapshot) && Sorted(log[j].snapshot)
    requires multiset(Ranks(log[i].snapshot)) == multiset(Ranks(log[j].snapshot))
    ensures Rank(log[i].endpoint) <= Rank(log[j].endpoint)
    ensures log[i].endpoint.tier <= log[j].endpoint.tier
  {
    OrderlyRunsDisciplined(cfg, t0, steps, id);
    LaterGoesNoLower(cfg, HistoryOf(Exec(cfg, Start(t0), steps), id), i, j);
  }

  lemma LaterGoesNoLower(cfg: Config, h: History, i: nat, j: nat)
    requires LogOk(cfg, h) && i < j < |h.log| && Sorted(h.log[i].snapshot) && Sorted(h.log[j].snapshot)
    requires multiset(Ranks(h.log[i].snapshot)) == multiset(Ranks(h.log[j].snapshot))
    ensures Rank(h.log[i].endpoint) <= Rank(h.log[j].endpoint) && h.log[i].endpoint.tier <= h.log[j].endpoint.tier
  {
    var a, b := h.log[i], h.log[j];
    Climbs(cfg, h, i, j);
    SortedRanksUnique(a.snapshot, b.snapshot);
    var n := |a.snapshot|;
    assert Position(a.attempt, n) <= Position(b.attempt, n);
    if Position(a.attempt, n) < Position(b.attempt, n) {
      assert !Less(a.snapshot[Position(b.attempt, n)], a.snapshot[Position(a.attempt, n)]);
    }
  }

  lemma Climbs(cfg: Config, h: History, i: nat, j: nat)
    requires LogOk(cfg, h) && i < j < |h.log|
    ensures ContactOk(cfg, h.log[i], i, h.failed) && ContactOk(cfg, h.log[j], j, h.failed)
    ensures h.log[i].attempt < h.log[j].attempt
  {
    assert ContactOk(cfg, h.log[i], i, h.failed) && ContactOk(cfg, h.log[j], j, h.failed);
  }

  /** Of two NACKs that saw equally many endpoints, the later went to a later position, or both went to the last. */
  lemma EachPositionOnce(cfg: Config, t0: Time, steps: seq<Step>, id: GapId, log: seq<Contact>, i: nat, j: nat)
    requires OrderlyRun(cfg, Start(t0), steps, id) && log == Log(Exec(cfg, Start(t0), steps), id)
    requires i < j < |log| && |log[i].snapshot| == |log[j].snapshot|
    ensures log[i].snapshot != []
    ensures var n := |log[i].snapshot|;
      var p, q := Position(log[i].attempt, n), Position(log[j].attempt, n);
      log[i].endpoint == log[i].snapshot[p] && log[j].endpoint == log[j].snapshot[q] && (p < q || p == q == n - 1)
  {
    OrderlyRunsDisciplined(cfg, t0, steps, id);
    Climbs(cfg, HistoryOf(Exec(cfg, Start(t0), steps), id), i, j);
  }

  /** In an orderly run the retry count behind every backoff is at most MaxRetries. */
  lemma RetriesBounded(cfg: Config, t0: Time, steps: seq<Step>, hk: uint64, q: uint64)
    requires OrderlyRun(cfg, Start(t0), steps, (hk, q))
    requires IsPending(Exec(cfg, Start(t0), steps).st, hk, q)
    ensures var g := Exec(cfg, Start(t0), steps).st.flows[hk].pending[q];
      g.retries == g.endpointIdx && (g.retries == 0 || g.retries <= cfg.maxRetries)
  {
    OrderlyRunsDisciplined(cfg, t0, steps, (hk, q));
    EveryRunOk(cfg, t0, steps);
    var w := Exec(cfg, Start(t0), steps);
    var g := w.st.flows[hk].pending[q];
    assert GapOk(cfg, hk, q, g, w.st.flows[hk].lastSeqNum, w.st.flows[hk].lastSeen);
    assert GapAt(w.st, (hk, q)) == Some(g);
    if !NoCopies(w.st.queue, w.running, (hk, q)) {
      if i :| Queued(w.st.queue, (hk, q), i) {
        assert CopyOk(cfg, Some(g), HistoryOf(w, (hk, q)), w.st.queue[i], false);
      } else {
        var t :| Running(w.running, (hk, q), t);
        assert CopyOk(cfg, Some(g), HistoryOf(w, (hk, q)), w.running[t].gap, w.running[t].sentTo.Some?);
      }
    }
  }
}
