/** The tracker itself: the loops and in-place updates of the source, each tied to its value-level step. */
module TrackerClass {
  import opened Common
  import opened TrackerSpec

  class Tracker {
    const cfg: Config
    var flows: map<uint64, Flow>
    var nackQueue: seq<Gap>
    var detected: Tally
    var suppressed: Tally
    var unrecovered: Tally

    function View(): State
      reads this
    {
      State(flows, nackQueue, detected, suppressed, unrecovered)
    }

    constructor (cfg: Config)
      ensures this.cfg == cfg && View() == EMPTY
    {
      this.cfg := cfg;
      flows, nackQueue := map[], [];
      detected, suppressed, unrecovered := ZERO_TALLY, ZERO_TALLY, ZERO_TALLY;
    }

    /** x + 1 on a uint64. */
    static function Inc(x: uint64): uint64 { if x == TWO64 - 1 then 0 else x + 1 }

    /** `jitter` supplies the random hold-offs. */
    method Observe(a: Arrival, now: Time, jitter: Jitter)
      modifies this
      ensures View() == TrackerSpec.Observe(cfg, old(View()), a, now, jitter)
    {
      if a.seqNum == 0 { return; }
      var fs := NewFlow(a, now);
      if a.hashKey in flows { fs := flows[a.hashKey]; }
      fs := fs.(lastSeen := now);
      fs := AutoFill(fs, a.seqNum);
      fs := Classify(fs, a, now, jitter);
      flows := flows[a.hashKey := fs];
    }

    /** Closes the pending gap that the frame fills, if there is one. */
    method AutoFill(f: Flow, seqNum: uint64) returns (fs: Flow)
      modifies this`suppressed
      ensures fs == Filled(f, seqNum)
      ensures suppressed == old(suppressed).Add(f.flowType, if seqNum in f.pending then 1 else 0)
    {
      fs := f;
      if seqNum in fs.pending {
        fs := fs.(pending := fs.pending - {seqNum});
        suppressed := suppressed.Add(fs.flowType, 1);
      }
      assert fs.pending == f.pending - {seqNum};
    }

    /** First frame, old frame, restart, next frame or jump: the part of Observe after the fill test. */
    method Classify(f: Flow, a: Arrival, now: Time, jitter: Jitter) returns (fs: Flow)
      modifies this`detected, this`unrecovered
      ensures var e := TrackerSpec.Classify(cfg, f, a, now, jitter);
        && fs == e.flow
        && detected == old(detected).Add(f.flowType, e.detected)
        && unrecovered == old(unrecovered).Add(f.flowType, e.unrecovered)
    {
      fs := f;
      if fs.lastSeqNum == 0 {
        fs := fs.(lastSeqNum := a.seqNum);
      } else if a.seqNum <= fs.lastSeqNum {
        var threshold := if cfg.seqResetThreshold == 0 then 100 else cfg.seqResetThreshold;
        if a.seqNum <= threshold && fs.lastSeqNum > threshold {
          GiveUp(fs);
          fs := fs.(pending := map[], lastSeqNum := a.seqNum);
        }
      } else if a.seqNum == Inc(fs.lastSeqNum) {
        fs := fs.(lastSeqNum := a.seqNum);
      } else {
        fs := RegisterGaps(fs, a, now, jitter);
        fs := fs.(lastSeqNum := a.seqNum);
      }
    }

    /** Counts every pending gap of a restarted flow as unrecovered. */
    method GiveUp(f: Flow)
      modifies this`unrecovered
      ensures unrecovered == old(unrecovered).Add(f.flowType, |f.pending|)
    {
      var lost := f.pending.Keys;
      while lost != {}
        invariant lost <= f.pending.Keys
        invariant |f.pending| >= |lost|
        invariant unrecovered == old(unrecovered).Add(f.flowType, |f.pending| - |lost|)
      {
        var q :| q in lost;
        lost := lost - {q};
        unrecovered := unrecovered.Add(f.flowType, 1);
      }
    }

    /** The registering loop, with its machine increment and its membership test. */
    method RegisterGaps(f: Flow, a: Arrival, now: Time, jitter: Jitter) returns (fs: Flow)
      requires f.lastSeqNum < a.seqNum
      modifies this`detected
      ensures var r := Register(cfg, f.pending, f.lastSeqNum + 1, a.seqNum, a, now, jitter);
        fs == f.(pending := r.pending) && detected == old(detected).Add(f.flowType, r.count)
    {
      var pending := f.pending;
      var missing: uint64 := Inc(f.lastSeqNum);
      ghost var r := Register(cfg, f.pending, f.lastSeqNum + 1, missing, a, now, jitter);
      while missing < a.seqNum
        invariant f.lastSeqNum < missing <= a.seqNum
        invariant r == Register(cfg, f.pending, f.lastSeqNum + 1, missing, a, now, jitter)
        invariant pending == r.pending
        invariant detected == old(detected).Add(f.flowType, r.count)
      {
        if missing !in pending {
          var e := Gap(a.hashKey, missing, a.groupIdx, a.subtreeID, 0,
                       now + HoldOff(cfg, jitter, missing), now + cfg.gapTTL, 0);
          pending := pending[missing := e];
          detected := detected.Add(f.flowType, 1);
        }
        missing := Inc(missing);
        r := Register(cfg, f.pending, f.lastSeqNum + 1, missing, a, now, jitter);
      }
      fs := f.(pending := pending);
    }

    method Fill(hashKey: uint64, seqNum: uint64)
      modifies this
      ensures View() == TrackerSpec.Fill(old(View()), hashKey, seqNum)
    {
      if seqNum == 0 { return; }
      if hashKey in flows {
        var fs := flows[hashKey];
        if seqNum in fs.pending {
          flows := flows[hashKey := fs.(pending := fs.pending - {seqNum})];
          suppressed := suppressed.Add(fs.flowType, 1);
        }
      }
    }

    method CancelGap(e: Gap)
      modifies this
      ensures View() == TrackerSpec.CancelGap(old(View()), e)
    {
      if e.hashKey in flows {
        var fs := flows[e.hashKey];
        if e.seqNum in fs.pending {
          flows := flows[e.hashKey := fs.(pending := fs.pending - {e.seqNum})];
          suppressed := suppressed.Add(LabelOf(e.groupIdx), 1);
        }
      }
    }

    method AdvanceEndpoint(e: Gap, immediate: bool, numEndpoints: nat, now: Time)
      modifies this`flows
      ensures View() == TrackerSpec.AdvanceEndpoint(cfg, old(View()), e, immediate, numEndpoints, now)
    {
      if e.hashKey !in flows { return; }
      var fs := flows[e.hashKey];
      if e.seqNum !in fs.pending { return; }
      var entry := fs.pending[e.seqNum];
      entry := entry.(retries := entry.retries + 1, endpointIdx := entry.endpointIdx + 1);
      var exhausted := numEndpoints > 0 && entry.endpointIdx >= numEndpoints;
      if immediate && !exhausted {
        entry := entry.(nextAttempt := now);
      } else {
        var backoff := Wrap64(Shl1(entry.retries) * (500 * MILLISECOND));
        if backoff > cfg.backoffMax { backoff := cfg.backoffMax; }
        entry := entry.(nextAttempt := now + backoff);
      }
      flows := flows[e.hashKey := fs.(pending := fs.pending[e.seqNum := entry])];
    }

    /** The body of the sweeper's inner loop. */
    method SweepGap(hk: uint64, q: uint64, now: Time)
      requires IsPending(View(), hk, q)
      modifies this
      ensures View() == TrackerSpec.SweepGap(cfg, old(View()), hk, q, now)
      ensures flows.Keys == old(flows).Keys && old(flows)[hk].pending.Keys - {q} <= flows[hk].pending.Keys
      ensures forall k :: k in flows && k != hk ==> flows[k] == old(flows)[k]
    {
      var fs := flows[hk];
      var e := fs.pending[q];
      if now > e.deadline {
        flows := flows[hk := fs.(pending := fs.pending - {q})];
        unrecovered := unrecovered.Add(fs.flowType, 1);
      } else if e.retries >= cfg.maxRetries {
        flows := flows[hk := fs.(pending := fs.pending - {q})];
        unrecovered := unrecovered.Add(fs.flowType, 1);
      } else if now > e.nextAttempt {
        e := e.(nextAttempt := now + RESP_TIMEOUT + 100 * MILLISECOND);
        if |nackQueue| < QUEUE_CAP {
          nackQueue := nackQueue + [e];
        } else {
          e := e.(nextAttempt := now);
        }
        flows := flows[hk := fs.(pending := fs.pending[q := e])];
      }
    }

    /** One turn of the sweeper's outer loop: the flow's gaps in any order, then its idle test. */
    method SweepFlow(hk: uint64, now: Time) returns (ghost turn: seq<Visit>)
      requires hk in flows
      modifies this
      ensures IsTurn(hk, old(flows)[hk].pending.Keys, turn)
      ensures View() == SweepAll(cfg, old(View()), turn, now)
      ensures forall k :: k in old(flows) && k != hk ==> k in flows && flows[k] == old(flows)[k]
    {
      turn := [];
      ghost var all := flows[hk].pending.Keys;
      var left := flows[hk].pending.Keys;
      while left != {}
        invariant hk in flows && left <= flows[hk].pending.Keys && left <= all
        invariant forall k :: k in old(flows) && k != hk ==> k in flows && flows[k] == old(flows)[k]
        invariant IsGapOrder(hk, all - left, turn)
        invariant View() == SweepAll(cfg, old(View()), turn, now)
      {
        var q :| q in left;
        SweepGap(hk, q, now);
        GapOrderStep(hk, all - left, turn, q);
        SweepSnoc(cfg, old(View()), turn, VisitGap(hk, q), now);
        turn := turn + [VisitGap(hk, q)];
        left := left - {q};
        assert all - left == (all - left - {q}) + {q};
      }
      assert all - left == all;
      SweepSnoc(cfg, old(View()), turn, VisitIdle(hk), now);
      var fs := flows[hk];
      if |fs.pending| == 0 && now - fs.lastSeen > cfg.FlowTTL() {
        flows := flows - {hk};
      }
      turn := turn + [VisitIdle(hk)];
    }

    /** Visits the flows in an order the runtime picks; `visits` records it. */
    method SweepOnce(now: Time) returns (ghost visits: seq<Visit>)
      modifies this
      ensures CompleteOrder(old(flows), visits)
      ensures View() == SweepAll(cfg, old(View()), visits, now)
    {
      visits := [];
      var todo := flows.Keys;
      while todo != {}
        invariant todo <= old(flows).Keys
        invariant forall hk :: hk in todo ==> hk in flows && flows[hk] == old(flows)[hk]
        invariant IsPartialOrder(old(flows), old(flows).Keys - todo, visits)
        invariant View() == SweepAll(cfg, old(View()), visits, now)
      {
        var hk :| hk in todo;
        ghost var turn := SweepFlow(hk, now);
        SweepAppend(cfg, old(View()), visits, turn, now);
        PartialOrderStep(old(flows), old(flows).Keys - todo, visits, hk, turn);
        visits := visits + turn;
        todo := todo - {hk};
        assert old(flows).Keys - todo == (old(flows).Keys - todo - {hk}) + {hk};
      }
      assert old(flows).Keys - todo == old(flows).Keys;
    }

    /** Takes the oldest queued copy, as the dispatch loop does. */
    method Dequeue() returns (e: Option<Gap>)
      modifies this`nackQueue
      ensures e == if old(nackQueue) == [] then None else Some(old(nackQueue)[0])
      ensures nackQueue == if old(nackQueue) == [] then [] else old(nackQueue)[1..]
    {
      if |nackQueue| == 0 { return None; }
      e := Some(nackQueue[0]);
      nackQueue := nackQueue[1..];
    }

    /** The total over all flows, summed in any order, is the number of distinct pending gaps. */
    method PendingGaps() returns (total: nat)
      ensures total == |Gaps(flows, ALL_LABELS)|
    {
      total := 0;
      var todo := flows.Keys;
      ghost var done: map<uint64, Flow> := map[];
      while todo != {}
        invariant todo <= flows.Keys
        invariant done == map hk | hk in flows && hk !in todo :: flows[hk]
        invariant total == |Gaps(done, ALL_LABELS)|
      {
        var hk :| hk in todo;
        total := total + |flows[hk].pending|;
        todo := todo - {hk};
        ghost var next := done[hk := flows[hk]];
        assert next - {hk} == done;
        GapsSplit(next, hk, ALL_LABELS);
        LabelListed(next[hk].flowType);
        done := next;
      }
      assert done == flows;
    }
  }

  ghost predicate Distinct(visits: seq<Visit>) {
    forall i, j :: 0 <= i < j < |visits| ==> visits[i] != visits[j]
  }

  /** The gaps `seqs` of one flow, each visited once. */
  ghost predicate IsGapOrder(hk: uint64, seqs: set<uint64>, visits: seq<Visit>) {
    && Distinct(visits)
    && (forall v :: v in visits <==> v.VisitGap? && v.hashKey == hk && v.seqNum in seqs)
  }

  ghost predicate IsTurn(hk: uint64, seqs: set<uint64>, turn: seq<Visit>) {
    |turn| > 0 && turn[|turn| - 1] == VisitIdle(hk) && IsGapOrder(hk, seqs, turn[..|turn| - 1])
  }

  /** The visits made so far are exactly those of the flows in `done`, each once, idle tests last. */
  ghost predicate IsPartialOrder(flows: map<uint64, Flow>, done: set<uint64>, visits: seq<Visit>) {
    && Distinct(visits)
    && (forall v :: v in visits <==> IsVisitOf(flows, v) && v.hashKey in done)
    && (forall i, j :: 0 <= i < |visits| && 0 <= j < |visits| && IdleOf(visits[i], visits[j]) ==> j < i)
  }

  lemma GapOrderStep(hk: uint64, seqs: set<uint64>, visits: seq<Visit>, q: uint64)
    requires IsGapOrder(hk, seqs, visits) && q !in seqs
    ensures IsGapOrder(hk, seqs + {q}, visits + [VisitGap(hk, q)])
  {
    assert VisitGap(hk, q) !in visits;
    forall v ensures v in visits + [VisitGap(hk, q)] <==> v.VisitGap? && v.hashKey == hk && v.seqNum in seqs + {q} {
    }
  }

  lemma PartialOrderStep(flows: map<uint64, Flow>, done: set<uint64>, visits: seq<Visit>, hk: uint64, turn: seq<Visit>)
    requires IsPartialOrder(flows, done, visits)
    requires hk in flows && hk !in done && IsTurn(hk, flows[hk].pending.Keys, turn)
    ensures IsPartialOrder(flows, done + {hk}, visits + turn)
  {
    var n := |turn| - 1;
    assert turn == turn[..n] + [VisitIdle(hk)];
    forall v ensures v in turn <==> IsVisitOf(flows, v) && v.hashKey == hk {
      assert v in turn <==> v in turn[..n] || v == VisitIdle(hk);
    }
    assert forall i :: 0 <= i < n ==> turn[i] == turn[..n][i] && turn[i] in turn[..n];
    assert Distinct(turn);
    assert forall i :: 0 <= i < |turn| ==> turn[i] in turn;
    assert forall i :: 0 <= i < |visits| ==> visits[i] in visits;
  }

  lemma SweepSnoc(cfg: Config, s: State, visits: seq<Visit>, v: Visit, now: Time)
    ensures SweepAll(cfg, s, visits + [v], now) == SweepVisit(cfg, SweepAll(cfg, s, visits, now), v, now)
  {
    assert (visits + [v])[..|visits|] == visits;
  }

  lemma {:induction false} SweepAppend(cfg: Config, s: State, a: seq<Visit>, b: seq<Visit>, now: Time)
    ensures SweepAll(cfg, s, a + b, now) == SweepAll(cfg, SweepAll(cfg, s, a, now), b, now)
  {
    if b == [] {
      assert a + b == a;
    } else {
      var n := |b| - 1;
      SweepAppend(cfg, s, a, b[..n], now);
      assert (a + b)[..|a + b| - 1] == a + b[..n];
    }
  }
}
