/**
 The gap tracker as a value: one state and one function per locked operation
 of the tracker. Flow and gap records are values here because every record the
 tracker hands out (a queued gap) is a copy.
 */
module TrackerSpec {
  import opened Common

  /** Capacity of the dispatch queue. */
  const QUEUE_CAP: nat := 4096
  /** How long the tracker waits for an ACK or MISS. */
  const RESP_TIMEOUT: Time := 300 * MILLISECOND
  /** How far a sweep pushes nextAttempt while a copy of the gap is out. */
  const HOLD_OFF: Time := RESP_TIMEOUT + 100 * MILLISECOND

  const CTRL_GROUP_CONTROL: uint32 := 0xFFFE
  const CTRL_GROUP_SUBTREE: uint32 := 0xFFFB

  datatype Config = Config(jitterMax: nat, backoffMax: Time, maxRetries: int,
                           gapTTL: Time, tailTTL: Time, seqResetThreshold: uint64)
  {
    function Threshold(): uint64 { if seqResetThreshold == 0 then 100 else seqResetThreshold }
    function FlowTTL(): Time { if tailTTL <= 0 then gapTTL else tailTTL }
  }

  /** The metric label of a flow. */
  datatype FlowLabel = Brc124 | Brc131 | Brc132

  const ALL_LABELS: set<FlowLabel> := {Brc124, Brc131, Brc132}

  lemma LabelListed(l: FlowLabel)
    ensures l in ALL_LABELS
  {
    match l case Brc124 => case Brc131 => case Brc132 =>
  }

  function LabelOf(groupIdx: uint32): FlowLabel {
    if groupIdx == CTRL_GROUP_CONTROL then Brc131
    else if groupIdx == CTRL_GROUP_SUBTREE then Brc132
    else Brc124
  }

  /** A metric counter with one value per label. */
  datatype Tally = Tally(brc124: nat, brc131: nat, brc132: nat) {
    function Add(kind: FlowLabel, n: nat): Tally {
      match kind
      case Brc124 => this.(brc124 := brc124 + n)
      case Brc131 => this.(brc131 := brc131 + n)
      case Brc132 => this.(brc132 := brc132 + n)
    }

    /** The sum of the values of the given labels. */
    function In(labels: set<FlowLabel>): nat {
      (if Brc124 in labels then brc124 else 0) +
      (if Brc131 in labels then brc131 else 0) +
      (if Brc132 in labels then brc132 else 0)
    }
  }

  const ZERO_TALLY := Tally(0, 0, 0)

  datatype Gap = Gap(hashKey: uint64, seqNum: uint64, groupIdx: uint32, subtreeID: Id32,
                     retries: nat, nextAttempt: Time, deadline: Time, endpointIdx: nat)

  datatype Flow = Flow(lastSeqNum: uint64, groupIdx: uint32, subtreeID: Id32, flowType: FlowLabel,
                       pending: map<uint64, Gap>, lastSeen: Time)

  datatype State = State(flows: map<uint64, Flow>, queue: seq<Gap>,
                         detected: Tally, suppressed: Tally, unrecovered: Tally)

  const EMPTY := State(map[], [], ZERO_TALLY, ZERO_TALLY, ZERO_TALLY)

  /** What one received frame tells the tracker. */
  datatype Arrival = Arrival(groupIdx: uint32, subtreeID: Id32, hashKey: uint64, seqNum: uint64)

  // ---------------------------------------------------------------- Observe

  function NewFlow(a: Arrival, now: Time): Flow {
    Flow(0, a.groupIdx, a.subtreeID, LabelOf(a.groupIdx), map[], now)
  }

  function FlowFor(s: State, a: Arrival, now: Time): Flow {
    if a.hashKey in s.flows then s.flows[a.hashKey].(lastSeen := now) else NewFlow(a, now)
  }

  /** A small number on a flow that is past the threshold reads as a proxy restart. */
  predicate IsRestart(cfg: Config, lastSeqNum: uint64, seqNum: uint64) {
    seqNum <= lastSeqNum && seqNum <= cfg.Threshold() < lastSeqNum
  }

  /** The random hold-offs before the first NACK, by missing number; absent means zero. */
  type Jitter = map<uint64, nat>

  /** A draw of the random source, which never exceeds JitterMax. */
  function HoldOff(cfg: Config, jitter: Jitter, missing: uint64): (h: nat)
    ensures h <= cfg.jitterMax
  {
    if missing in jitter && jitter[missing] <= cfg.jitterMax then jitter[missing] else 0
  }

  function NewGap(cfg: Config, a: Arrival, missing: uint64, now: Time, jitter: Jitter): Gap {
    Gap(a.hashKey, missing, a.groupIdx, a.subtreeID, 0, now + HoldOff(cfg, jitter, missing), now + cfg.gapTTL, 0)
  }

  datatype Registered = Registered(pending: map<uint64, Gap>, count: nat)

  /** Registers, in order, every number in [lo, hi) that is not pending yet, and counts the registrations. */
  function Register(cfg: Config, pending: map<uint64, Gap>, lo: nat, hi: nat,
                    a: Arrival, now: Time, jitter: Jitter): Registered
    requires hi <= TWO64
    decreases hi
  {
    if lo >= hi then Registered(pending, 0) else
      var r := Register(cfg, pending, lo, hi - 1, a, now, jitter);
      if hi - 1 in r.pending then r
      else Registered(r.pending[hi - 1 := NewGap(cfg, a, hi - 1, now, jitter)], r.count + 1)
  }

  datatype Effect = Effect(flow: Flow, detected: nat, unrecovered: nat)

  /** First frame, old frame, restart, next frame or jump: what follows the fill test. */
  function Classify(cfg: Config, f: Flow, a: Arrival, now: Time, jitter: Jitter): Effect {
    if f.lastSeqNum == 0 then
      Effect(f.(lastSeqNum := a.seqNum), 0, 0)
    else if a.seqNum <= f.lastSeqNum then
      if IsRestart(cfg, f.lastSeqNum, a.seqNum) then
        Effect(f.(pending := map[], lastSeqNum := a.seqNum), 0, |f.pending|)
      else
        Effect(f, 0, 0)
    else if a.seqNum == f.lastSeqNum + 1 then
      Effect(f.(lastSeqNum := a.seqNum), 0, 0)
    else
      var r := Register(cfg, f.pending, f.lastSeqNum + 1, a.seqNum, a, now, jitter);
      Effect(f.(pending := r.pending, lastSeqNum := a.seqNum), r.count, 0)
  }

  function Filled(f: Flow, seqNum: uint64): Flow { f.(pending := f.pending - {seqNum}) }

  function Observe(cfg: Config, s: State, a: Arrival, now: Time, jitter: Jitter): State {
    if a.seqNum == 0 then s else
      var f := FlowFor(s, a, now);
      var e := Classify(cfg, Filled(f, a.seqNum), a, now, jitter);
      s.(flows := s.flows[a.hashKey := e.flow],
         detected := s.detected.Add(f.flowType, e.detected),
         suppressed := s.suppressed.Add(f.flowType, if a.seqNum in f.pending then 1 else 0),
         unrecovered := s.unrecovered.Add(f.flowType, e.unrecovered))
  }

  // ------------------------------------------------- Closing a single gap

  predicate IsPending(s: State, hashKey: uint64, seqNum: uint64) {
    hashKey in s.flows && seqNum in s.flows[hashKey].pending
  }

  function SetPending(s: State, hashKey: uint64, pending: map<uint64, Gap>): State
    requires hashKey in s.flows
  {
    s.(flows := s.flows[hashKey := s.flows[hashKey].(pending := pending)])
  }

  function Drop(s: State, hashKey: uint64, seqNum: uint64): State
    requires IsPending(s, hashKey, seqNum)
  {
    SetPending(s, hashKey, s.flows[hashKey].pending - {seqNum})
  }

  function Put(s: State, hashKey: uint64, seqNum: uint64, gap: Gap): State
    requires IsPending(s, hashKey, seqNum)
  {
    SetPending(s, hashKey, s.flows[hashKey].pending[seqNum := gap])
  }

  function Fill(s: State, hashKey: uint64, seqNum: uint64): State {
    if seqNum == 0 || !IsPending(s, hashKey, seqNum) then s else
      Drop(s, hashKey, seqNum).(suppressed := s.suppressed.Add(s.flows[hashKey].flowType, 1))
  }

  /** An ACK closes the gap; the metric label is taken from the queued copy, not from the flow. */
  function CancelGap(s: State, e: Gap): State {
    if !IsPending(s, e.hashKey, e.seqNum) then s else
      Drop(s, e.hashKey, e.seqNum).(suppressed := s.suppressed.Add(LabelOf(e.groupIdx), 1))
  }

  // ------------------------------------------------------- Retry state

  function Pow2(n: nat): nat { if n == 0 then 1 else 2 * Pow2(n - 1) }

  /** Two's-complement truncation to 64 bits. */
  function Wrap64(x: int): int {
    var m := x % TWO64;
    if m < TWO63 then m else m - TWO64
  }

  /** 1 << n on an int64: bits shifted past the top are lost. */
  function Shl1(n: nat): int { if n >= 64 then 0 else Wrap64(Pow2(n)) }

  /** The wait after `retries` failed attempts, computed in int64 nanoseconds. */
  function Backoff(cfg: Config, retries: nat): Time {
    var raw := Wrap64(Shl1(retries) * (500 * MILLISECOND));
    if raw > cfg.backoffMax then cfg.backoffMax else raw
  }

  function Advanced(cfg: Config, g: Gap, immediate: bool, numEndpoints: nat, now: Time): Gap {
    var g' := g.(retries := g.retries + 1, endpointIdx := g.endpointIdx + 1);
    var exhausted := numEndpoints > 0 && g'.endpointIdx >= numEndpoints;
    g'.(nextAttempt := if immediate && !exhausted then now else now + Backoff(cfg, g'.retries))
  }

  function AdvanceEndpoint(cfg: Config, s: State, e: Gap, immediate: bool, numEndpoints: nat, now: Time): State {
    if !IsPending(s, e.hashKey, e.seqNum) then s else
      Put(s, e.hashKey, e.seqNum,
          Advanced(cfg, s.flows[e.hashKey].pending[e.seqNum], immediate, numEndpoints, now))
  }

  // ------------------------------------------------------------- Sweep

  /** One iteration of the sweeper: a pending gap, or the idle test that ends a flow's turn. */
  datatype Visit = VisitGap(hashKey: uint64, seqNum: uint64) | VisitIdle(hashKey: uint64)

  /** The gap is past its deadline or out of retries. */
  predicate IsDead(cfg: Config, g: Gap, now: Time) {
    now > g.deadline || g.retries >= cfg.maxRetries
  }

  function SweepGap(cfg: Config, s: State, hashKey: uint64, seqNum: uint64, now: Time): State
    requires IsPending(s, hashKey, seqNum)
  {
    var g := s.flows[hashKey].pending[seqNum];
    if IsDead(cfg, g, now) then
      Drop(s, hashKey, seqNum).(unrecovered := s.unrecovered.Add(s.flows[hashKey].flowType, 1))
    else if now > g.nextAttempt then
      if |s.queue| < QUEUE_CAP then
        var held := g.(nextAttempt := now + HOLD_OFF);
        Put(s, hashKey, seqNum, held).(queue := s.queue + [held])
      else
        Put(s, hashKey, seqNum, g.(nextAttempt := now))
    else
      s
  }

  predicate IsIdle(cfg: Config, f: Flow, now: Time) {
    f.pending == map[] && now - f.lastSeen > cfg.FlowTTL()
  }

  function SweepIdle(cfg: Config, s: State, hashKey: uint64, now: Time): State {
    if hashKey in s.flows && IsIdle(cfg, s.flows[hashKey], now)
    then s.(flows := s.flows - {hashKey}) else s
  }

  function SweepVisit(cfg: Config, s: State, v: Visit, now: Time): State {
    match v
    case VisitGap(hk, q) => if IsPending(s, hk, q) then SweepGap(cfg, s, hk, q, now) else s
    case VisitIdle(hk) => SweepIdle(cfg, s, hk, now)
  }

  function SweepAll(cfg: Config, s: State, visits: seq<Visit>, now: Time): State {
    if visits == [] then s else
      SweepVisit(cfg, SweepAll(cfg, s, visits[..|visits| - 1], now), visits[|visits| - 1], now)
  }

  predicate IsVisitOf(flows: map<uint64, Flow>, v: Visit) {
    v.hashKey in flows && (v.VisitGap? ==> v.seqNum in flows[v.hashKey].pending)
  }

  /** Map iteration order is arbitrary: any order that visits every gap once and a flow's idle test last. */
  ghost predicate CompleteOrder(flows: map<uint64, Flow>, visits: seq<Visit>) {
    && (forall i, j :: 0 <= i < j < |visits| ==> visits[i] != visits[j])
    && (forall v :: v in visits <==> IsVisitOf(flows, v))
    && (forall i, j :: 0 <= i < |visits| && 0 <= j < |visits| && IdleOf(visits[i], visits[j]) ==> j < i)
  }

  predicate IdleOf(idle: Visit, gap: Visit) {
    idle.VisitIdle? && gap.VisitGap? && idle.hashKey == gap.hashKey
  }

  // ------------------------------------------------- Dispatch and queries

  /** The endpoint position a copy with this index contacts, clamped at the last endpoint. */
  function Position(endpointIdx: nat, numEndpoints: nat): nat
    requires numEndpoints > 0
  {
    if endpointIdx >= numEndpoints then numEndpoints - 1 else endpointIdx
  }

  type GapId = (uint64, uint64)

  function IdOf(g: Gap): GapId { (g.hashKey, g.seqNum) }

  /** Every pending gap of the flows that carry one of the labels. */
  ghost function Gaps(flows: map<uint64, Flow>, labels: set<FlowLabel>): (r: set<GapId>)
    ensures forall id :: id in r <==>
      id.0 in flows && flows[id.0].flowType in labels && id.1 in flows[id.0].pending
  {
    set hk, q | hk in flows && flows[hk].flowType in labels && q in flows[hk].pending :: (hk, q)
  }

  /** The gaps of a set of flows are those of one flow plus those of the others. */
  lemma GapsSplit(flows: map<uint64, Flow>, hk: uint64, labels: set<FlowLabel>)
    requires hk in flows
    ensures |Gaps(flows, labels)| ==
      |Gaps(flows - {hk}, labels)| + if flows[hk].flowType in labels then |flows[hk].pending| else 0
  {
    var others := Gaps(flows - {hk}, labels);
    if flows[hk].flowType in labels {
      var own: set<GapId> := Pairs(hk, flows[hk].pending.Keys);
      PairsSize(hk, flows[hk].pending.Keys);
      forall id: GapId
        ensures id in Gaps(flows, labels) <==> id in others || id in own
      {
      }
      DisjointSize(Gaps(flows, labels), others, own);
    } else {
      assert Gaps(flows, labels) == others;
    }
  }
}
