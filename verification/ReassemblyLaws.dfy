/**
 The buffer's operations over whole runs, told in the fields a caller can see:
 where every delivered byte came from, which completions are delivered, how long a
 slot lives and which slots an arrival costs.
 */
module ReassemblyLaws {
  import opened Common
  import opened ReassemblySpec
  import opened ReassemblyRuns
  import opened ReassemblyDelivery
  import opened ReassemblyRounds

  // ------------------------------------------------------------- Verdicts

  /** The verdict in terms of version, hash and callbacks. */
  ghost predicate VerdictOk(cfg: Config, c: Completion) {
    var forged := c.slot.origFrameVer != 4 && c.slot.origFrameVer != 5 && cfg.verifyHash
                  && cfg.sha256d(c.payload) != c.slot.txID;
    var wanted := if c.slot.origFrameVer == 4 then cfg.onCompleteBlock
                  else if c.slot.origFrameVer == 5 then cfg.onCompleteSubtree else cfg.onComplete;
    && (c.verdict == HashMismatch <==> forged)
    && (c.verdict == Delivered <==> !forged && wanted)
    && (c.verdict == Discarded <==> !forged && !wanted)
  }

  function Count(done: seq<Completion>, v: Verdict): nat {
    if done == [] then 0 else Count(done[..|done| - 1], v) + if done[|done| - 1].verdict == v then 1 else 0
  }

  lemma CountSnoc(done: seq<Completion>, c: Option<Completion>, v: Verdict)
    ensures Count(done + AsSeq(c), v) == Count(done, v) + if c.Some? && c.value.verdict == v then 1 else 0
  {
    match c
    case None => assert done + [] == done;
    case Some(x) => assert (done + [x])[..|done|] == done;
  }

  /** The three completion counters. */
  ghost predicate Counted(s: State, done: seq<Completion>) {
    s.delivered == Count(done, Delivered) && s.discarded == Count(done, Discarded) &&
    s.mismatched == Count(done, HashMismatch)
  }

  lemma StoreJudges(cfg: Config, s: State, ff: Fragment)
    requires ff.txID in s.slots
    ensures var r := Store(cfg, s, ff);
      && (r.done.Some? ==> VerdictOk(cfg, r.done.value))
      && r.st.delivered == s.delivered + (if r.done.Some? && r.done.value.verdict == Delivered then 1 else 0)
      && r.st.discarded == s.discarded + (if r.done.Some? && r.done.value.verdict == Discarded then 1 else 0)
      && r.st.mismatched == s.mismatched + (if r.done.Some? && r.done.value.verdict == HashMismatch then 1 else 0)
  {
  }

  lemma ObserveJudges(cfg: Config, s: State, ff: Fragment, now: Time)
    ensures var r := Observe(cfg, s, ff, now);
      && (r.done.Some? ==> VerdictOk(cfg, r.done.value))
      && r.st.delivered == s.delivered + (if r.done.Some? && r.done.value.verdict == Delivered then 1 else 0)
      && r.st.discarded == s.discarded + (if r.done.Some? && r.done.value.verdict == Discarded then 1 else 0)
      && r.st.mismatched == s.mismatched + (if r.done.Some? && r.done.value.verdict == HashMismatch then 1 else 0)
  {
    var s1 := EvictExpired(s, now);
    if ff.txID in s1.slots {
      StoreJudges(cfg, s1, ff);
    } else if Plausible(ff) {
      StoreJudges(cfg, Open(cfg, s1, ff, now), ff);
    }
  }

  /**
   In every run, each completion is a hash mismatch, a delivery or a discard exactly
   as its version, its hash and the callbacks say, and each kind is counted apart.
   */
  lemma {:induction false} VerdictLaw(cfg: Config, t0: Time, calls: seq<Call>, w: World)
    requires w == Exec(cfg, Start(t0), calls)
    ensures forall k :: 0 <= k < |w.done| ==> VerdictOk(cfg, w.done[k])
    ensures Counted(w.st, w.done)
  {
    if calls != [] {
      var n := |calls| - 1;
      var v, call := Exec(cfg, Start(t0), calls[..n]), calls[n];
      VerdictLaw(cfg, t0, calls[..n], v);
      if call.Arrive? {
        ArriveJudged(cfg, v, call.ff, Later(v.clock, call.dt));
      }
    }
  }

  lemma ArriveJudged(cfg: Config, w: World, ff: Fragment, now: Time)
    requires (forall k :: 0 <= k < |w.done| ==> VerdictOk(cfg, w.done[k])) && Counted(w.st, w.done)
    ensures var w' := AfterFragment(cfg, w, ff, now);
      (forall k :: 0 <= k < |w'.done| ==> VerdictOk(cfg, w'.done[k])) && Counted(w'.st, w'.done)
  {
    var r := Observe(cfg, w.st, ff, now);
    ObserveJudges(cfg, w.st, ff, now);
    CountSnoc(w.done, r.done, Delivered);
    CountSnoc(w.done, r.done, Discarded);
    CountSnoc(w.done, r.done, HashMismatch);
  }

  // ----------------------------------------------------------- Provenance

  /** The fragment carries this part of the slot. */
  ghost predicate Brings(ff: Fragment, slot: Slot, i: nat) {
    && ff.txID == slot.txID && ff.fragTotal == slot.fragTotal && ff.fragIndex == i
    && i < |slot.frags| && slot.frags[i] == Some(ff.fragData)
  }

  /** The fragment's metadata is the slot's. */
  ghost predicate Opens(ff: Fragment, slot: Slot) {
    && slot.txID == ff.txID && slot.subtreeID == ff.subtreeID && slot.hashKey == ff.hashKey && slot.seqNum == ff.seqNum
    && slot.origPayloadLen == ff.origPayloadLen && slot.fragTotal == ff.fragTotal
    && slot.origFrameVer == ff.origFrameVer && slot.msgType == ff.msgType
  }

  ghost predicate PartArrived(arrived: seq<Fragment>, slot: Slot, i: nat) {
    exists k :: 0 <= k < |arrived| && Brings(arrived[k], slot, i)
  }

  ghost predicate OpenerArrived(arrived: seq<Fragment>, slot: Slot) {
    exists k :: 0 <= k < |arrived| && Opens(arrived[k], slot)
  }

  /** Everything in the slot was received. */
  ghost predicate Sourced(arrived: seq<Fragment>, slot: Slot) {
    && OpenerArrived(arrived, slot)
    && forall i: nat :: i < |slot.frags| && slot.frags[i].Some? ==> PartArrived(arrived, slot, i)
  }

  ghost predicate AllSourced(arrived: seq<Fragment>, slots: map<Id32, Slot>) {
    forall id :: id in slots ==> slots[id].txID == id && Sourced(arrived, slots[id])
  }

  lemma SourcedLater(arrived: seq<Fragment>, ff: Fragment, slot: Slot)
    requires Sourced(arrived, slot)
    ensures Sourced(arrived + [ff], slot)
  {
    var later := arrived + [ff];
    var k :| 0 <= k < |arrived| && Opens(arrived[k], slot);
    assert Opens(later[k], slot);
    forall i: nat | i < |slot.frags| && slot.frags[i].Some? ensures PartArrived(later, slot, i) {
      var j :| 0 <= j < |arrived| && Brings(arrived[j], slot, i);
      assert Brings(later[j], slot, i);
    }
  }

  lemma AllSourcedLater(arrived: seq<Fragment>, ff: Fragment, slots: map<Id32, Slot>)
    requires AllSourced(arrived, slots)
    ensures AllSourced(arrived + [ff], slots)
  {
    forall id | id in slots ensures Sourced(arrived + [ff], slots[id]) {
      SourcedLater(arrived, ff, slots[id]);
    }
  }

  /** A new slot is opened by the fragment itself. */
  lemma NewSlotSourced(cfg: Config, arrived: seq<Fragment>, ff: Fragment, now: Time)
    requires arrived != [] && arrived[|arrived| - 1] == ff
    ensures Sourced(arrived, NewSlot(cfg, ff, now)) && NewSlot(cfg, ff, now).txID == ff.txID
  {
    assert Opens(arrived[|arrived| - 1], NewSlot(cfg, ff, now));
  }

  lemma FilledSourced(arrived: seq<Fragment>, slot: Slot, ff: Fragment)
    requires Sourced(arrived, slot) && Fits(slot, ff) && slot.txID == ff.txID
    requires arrived != [] && arrived[|arrived| - 1] == ff
    ensures Sourced(arrived, Filled(slot, ff))
  {
    var slot' := Filled(slot, ff);
    var k :| 0 <= k < |arrived| && Opens(arrived[k], slot);
    assert Opens(arrived[k], slot');
    forall i: nat | i < |slot'.frags| && slot'.frags[i].Some? ensures PartArrived(arrived, slot', i) {
      if i == ff.fragIndex {
        assert Brings(arrived[|arrived| - 1], slot', i);
      } else {
        var j :| 0 <= j < |arrived| && Brings(arrived[j], slot, i);
        assert Brings(arrived[j], slot', i);
      }
    }
  }

  lemma StoreSourced(cfg: Config, s: State, ff: Fragment, arrived: seq<Fragment>)
    requires ff.txID in s.slots && AllSourced(arrived, s.slots) && arrived != [] && arrived[|arrived| - 1] == ff
    ensures var r := Store(cfg, s, ff);
      && AllSourced(arrived, r.st.slots)
      && (r.done.Some? ==> Sourced(arrived, r.done.value.slot) && r.done.value.slot.txID == ff.txID
                           && r.done.value.payload == Payload(r.done.value.slot.frags))
  {
    var slot := s.slots[ff.txID];
    if Fits(slot, ff) {
      FilledSourced(arrived, slot, ff);
    }
  }

  lemma OpenSourced(cfg: Config, s: State, ff: Fragment, now: Time, arrived: seq<Fragment>)
    requires AllSourced(arrived, s.slots) && arrived != [] && arrived[|arrived| - 1] == ff
    ensures AllSourced(arrived, Open(cfg, s, ff, now).slots)
  {
    NewSlotSourced(cfg, arrived, ff, now);
    forall id | id in Open(cfg, s, ff, now).slots && id != ff.txID
      ensures id in s.slots && Open(cfg, s, ff, now).slots[id] == s.slots[id]
    {
    }
  }

  lemma EvictSourced(s: State, now: Time, arrived: seq<Fragment>)
    requires AllSourced(arrived, s.slots)
    ensures AllSourced(arrived, EvictExpired(s, now).slots)
  {
  }

  lemma ObserveSourced(cfg: Config, s: State, ff: Fragment, now: Time, arrived: seq<Fragment>)
    requires AllSourced(arrived, s.slots)
    ensures var r := Observe(cfg, s, ff, now);
      && AllSourced(arrived + [ff], r.st.slots)
      && (r.done.Some? ==> Sourced(arrived + [ff], r.done.value.slot) && r.done.value.slot.txID == ff.txID
                           && r.done.value.payload == Payload(r.done.value.slot.frags))
  {
    AllSourcedLater(arrived, ff, s.slots);
    EvictSourced(s, now, arrived + [ff]);
    var s1 := EvictExpired(s, now);
    if ff.txID in s1.slots {
      StoreSourced(cfg, s1, ff, arrived + [ff]);
    } else if Plausible(ff) {
      OpenSourced(cfg, s1, ff, now, arrived + [ff]);
      StoreSourced(cfg, Open(cfg, s1, ff, now), ff, arrived + [ff]);
    }
  }

  /** A completed transaction: every part present, each with its content as received, joined in index order. */
  ghost predicate FullySourced(arrived: seq<Fragment>, c: Completion) {
    && Sourced(arrived, c.slot) && |c.slot.frags| == c.slot.fragTotal
    && (forall i :: 0 <= i < |c.slot.frags| ==> c.slot.frags[i].Some?)
    && c.payload == Payload(c.slot.frags)
  }

  lemma FullySourcedLater(arrived: seq<Fragment>, ff: Fragment, c: Completion)
    requires FullySourced(arrived, c)
    ensures FullySourced(arrived + [ff], c)
  {
    SourcedLater(arrived, ff, c.slot);
  }

  lemma StoreComplete(cfg: Config, s: State, ff: Fragment)
    requires ff.txID in s.slots && Forming(ff.txID, s.slots[ff.txID])
    ensures var r := Store(cfg, s, ff);
      r.done.Some? ==> |r.done.value.slot.frags| == r.done.value.slot.fragTotal
                       && forall i :: 0 <= i < |r.done.value.slot.frags| ==> r.done.value.slot.frags[i].Some?
  {
    var slot := s.slots[ff.txID];
    if Fits(slot, ff) {
      FillCounts(slot.frags, ff.fragIndex, ff.fragData);
      PresentBound(Filled(slot, ff).frags);
    }
  }

  lemma ObserveComplete(cfg: Config, s: State, ff: Fragment, clock: Time, now: Time, completed: nat)
    requires Sound(cfg, s, clock, completed) && clock <= now && cfg.maxSlots > 0
    ensures var r := Observe(cfg, s, ff, now);
      r.done.Some? ==> |r.done.value.slot.frags| == r.done.value.slot.fragTotal
                       && forall i :: 0 <= i < |r.done.value.slot.frags| ==> r.done.value.slot.frags[i].Some?
  {
    var s1 := EvictExpired(s, now);
    EvictExpiredSweeps(cfg, s, clock, now, completed);
    if ff.txID in s1.slots {
      StoreComplete(cfg, s1, ff);
    } else if Plausible(ff) {
      OpenOpens(cfg, s1, ff, now, completed);
      StoreComplete(cfg, Open(cfg, s1, ff, now), ff);
    }
  }

  /**
   In every run, whatever was completed was received: all metadata from one fragment
   of the transaction, and part i from a fragment with index i, the same total and
   this very content.
   */
  lemma {:induction false} ProvenanceLaw(cfg: Config, t0: Time, calls: seq<Call>, w: World)
    requires cfg.maxSlots > 0 && w == Exec(cfg, Start(t0), calls)
    ensures AllSourced(w.arrived, w.st.slots)
    ensures forall k :: 0 <= k < |w.done| ==> FullySourced(w.arrived, w.done[k])
  {
    if calls != [] {
      var n := |calls| - 1;
      var v, call := Exec(cfg, Start(t0), calls[..n]), calls[n];
      ProvenanceLaw(cfg, t0, calls[..n], v);
      EveryRunKeeps(cfg, t0, calls[..n]);
      if call.Arrive? {
        ArriveSourced(cfg, v, call.ff, Later(v.clock, call.dt));
      }
    }
  }

  lemma ArriveSourced(cfg: Config, w: World, ff: Fragment, now: Time)
    requires cfg.maxSlots > 0 && Inv(cfg, w) && w.clock <= now && AllSourced(w.arrived, w.st.slots)
    requires forall k :: 0 <= k < |w.done| ==> FullySourced(w.arrived, w.done[k])
    ensures var w' := AfterFragment(cfg, w, ff, now);
      && AllSourced(w'.arrived, w'.st.slots)
      && forall k :: 0 <= k < |w'.done| ==> FullySourced(w'.arrived, w'.done[k])
  {
    ObserveSourced(cfg, w.st, ff, now, w.arrived);
    ObserveComplete(cfg, w.st, ff, w.clock, now, |w.done|);
    forall k | 0 <= k < |w.done| ensures FullySourced(w.arrived + [ff], w.done[k]) {
      FullySourcedLater(w.arrived, ff, w.done[k]);
    }
  }

  // ----------------------------------------------------- Opening and leaving

  /** A fragment that may open a slot. */
  ghost predicate MayOpen(ff: Fragment) {
    ff.fragIndex < ff.fragTotal <= ff.origPayloadLen + 1 && 0 < ff.origPayloadLen < TWO32 - 1
  }

  /** The slots still alive at a time. */
  ghost function Alive(slots: map<Id32, Slot>, now: Time): map<Id32, Slot> {
    map id | id in slots && now <= slots[id].deadline :: slots[id]
  }

  lemma EvictIsAlive(s: State, now: Time)
    requires forall id :: id in s.slots ==> id in s.insertOrder
    ensures EvictExpired(s, now).slots == Alive(s.slots, now)
  {
  }

  /** In every run, a tick leaves exactly the slots whose deadline has not passed, untouched. */
  lemma TickLaw(cfg: Config, t0: Time, calls: seq<Call>, w: World, dt: nat)
    requires cfg.maxSlots > 0 && w == Exec(cfg, Start(t0), calls)
    ensures Next(cfg, w, TickAfter(dt)).st.slots == Alive(w.st.slots, Later(w.clock, dt))
  {
    EveryRunKeeps(cfg, t0, calls);
    TickKeepsAlive(cfg, w, dt);
  }

  lemma TickKeepsAlive(cfg: Config, w: World, dt: nat)
    requires Inv(cfg, w)
    ensures Next(cfg, w, TickAfter(dt)).st.slots == Alive(w.st.slots, Later(w.clock, dt))
  {
    EvictIsAlive(w.st, Later(w.clock, dt));
  }

  /** A purge empties the buffer and counts every slot as abandoned. */
  lemma PurgeLaw(cfg: Config, w: World, w': World)
    requires w' == Next(cfg, w, PurgeAll)
    ensures w'.st.slots == map[] && w'.st.insertOrder == [] && w'.st.abandoned == w.st.abandoned + |w.st.slots|
    ensures w'.done == w.done && w'.st.started == w.st.started
  {
  }

  /** Of the slots alive, an arrival leaves all but the victim, which has the earliest deadline; its own apart. */
  ghost predicate CostsOnly(alive: map<Id32, Slot>, after: map<Id32, Slot>, own: Id32, victim: Option<Id32>) {
    && (victim.Some? ==> Earliest(alive, victim.value))
    && (forall id :: id != own ==> (id in after <==> id in alive && victim != Some(id)))
    && (forall id :: id != own && id in after ==> id in alive && after[id] == alive[id])
  }

  ghost predicate Earliest(slots: map<Id32, Slot>, first: Id32) {
    first in slots && forall id :: id in slots ==> slots[first].deadline <= slots[id].deadline
  }

  /**
   In every run, what an arrival costs the other transactions: the slots past their
   deadline and, only if it opens a slot in a full buffer, one with the earliest deadline.
   */
  lemma ArrivalSpares(cfg: Config, t0: Time, calls: seq<Call>, w: World, ff: Fragment, dt: nat, alive: map<Id32, Slot>)
    returns (victim: Option<Id32>)
    requires cfg.maxSlots > 0 && w == Exec(cfg, Start(t0), calls) && alive == Alive(w.st.slots, Later(w.clock, dt))
    ensures victim.Some? <==> MayOpen(ff) && ff.txID !in alive && |alive| >= cfg.maxSlots
    ensures CostsOnly(alive, Next(cfg, w, Arrive(ff, dt)).st.slots, ff.txID, victim)
  {
    EveryRunKeeps(cfg, t0, calls);
    victim := ObserveSpares(cfg, w.st, ff, w.clock, Later(w.clock, dt), |w.done|, alive);
  }

  lemma ObserveSpares(cfg: Config, s: State, ff: Fragment, clock: Time, now: Time, completed: nat, alive: map<Id32,
                      Slot>)
    returns (victim: Option<Id32>)
    requires Sound(cfg, s, clock, completed) && clock <= now && cfg.maxSlots > 0 && alive == Alive(s.slots, now)
    ensures victim.Some? <==> MayOpen(ff) && ff.txID !in alive && |alive| >= cfg.maxSlots
    ensures CostsOnly(alive, Observe(cfg, s, ff, now).st.slots, ff.txID, victim)
  {
    EvictExpiredSweeps(cfg, s, clock, now, completed);
    EvictIsAlive(s, now);
    PlausibleIff(ff);
    victim := SweptSpares(cfg, EvictExpired(s, now), ff, now, completed);
  }

  /** The part of an observation after the eviction. */
  lemma SweptSpares(cfg: Config, s: State, ff: Fragment, now: Time, completed: nat) returns (victim: Option<Id32>)
    requires Swept(cfg, s, now, completed) && cfg.maxSlots > 0
    ensures victim.Some? <==> Plausible(ff) && ff.txID !in s.slots && |s.slots| >= cfg.maxSlots
    ensures var r := if ff.txID in s.slots then Store(cfg, s, ff)
                     else if !Plausible(ff) then Result(s, None) else Store(cfg, Open(cfg, s, ff, now), ff);
      CostsOnly(s.slots, r.st.slots, ff.txID, victim)
  {
    victim := None;
    if ff.txID in s.slots {
      StoreSpares(cfg, s, ff);
    } else if Plausible(ff) {
      victim := OpenSpares(cfg, s, ff, now, completed);
    }
  }

  lemma OpenSpares(cfg: Config, s: State, ff: Fragment, now: Time, completed: nat) returns (victim: Option<Id32>)
    requires Swept(cfg, s, now, completed) && cfg.maxSlots > 0 && ff.txID !in s.slots && Plausible(ff)
    ensures victim.Some? <==> |s.slots| >= cfg.maxSlots
    ensures CostsOnly(s.slots, Store(cfg, Open(cfg, s, ff, now), ff).st.slots, ff.txID, victim)
  {
    OpenOpens(cfg, s, ff, now, completed);
    var grown := Open(cfg, s, ff, now);
    StoreSpares(cfg, grown, ff);
    victim := OpenCosts(cfg, s, ff, now, completed);
    CostsCompose(s.slots, grown.slots, Store(cfg, grown, ff).st.slots, ff.txID, victim);
  }

  lemma OpenCosts(cfg: Config, s: State, ff: Fragment, now: Time, completed: nat) returns (victim: Option<Id32>)
    requires Swept(cfg, s, now, completed) && cfg.maxSlots > 0 && ff.txID !in s.slots
    ensures victim.Some? <==> |s.slots| >= cfg.maxSlots
    ensures CostsOnly(s.slots, Open(cfg, s, ff, now).slots, ff.txID, victim)
  {
    victim := None;
    if |s.slots| >= cfg.maxSlots {
      assert s.slots != map[];
      EvictOldestIsEarliest(cfg, s, now, completed);
      victim := Some(s.insertOrder[0]);
    }
  }

  lemma CostsCompose(a: map<Id32, Slot>, b: map<Id32, Slot>, c: map<Id32, Slot>, own: Id32, victim: Option<Id32>)
    requires CostsOnly(a, b, own, victim) && CostsOnly(b, c, own, None)
    ensures CostsOnly(a, c, own, victim)
  {
  }

  lemma StoreSpares(cfg: Config, s: State, ff: Fragment)
    requires ff.txID in s.slots && s.slots[ff.txID].txID == ff.txID
    ensures forall id :: id != ff.txID ==> (id in Store(cfg, s, ff).st.slots <==> id in s.slots)
    ensures forall id :: id != ff.txID && id in s.slots ==> Store(cfg, s, ff).st.slots[id] == s.slots[id]
    ensures CostsOnly(s.slots, Store(cfg, s, ff).st.slots, ff.txID, None)
  {
    forall id | id != ff.txID
      ensures id in Store(cfg, s, ff).st.slots <==> id in s.slots
      ensures id in s.slots ==> Store(cfg, s, ff).st.slots[id] == s.slots[id]
    {
      StoreOther(cfg, s, ff, id);
    }
  }

  /** When the transaction's present slot was opened. */
  ghost function OpenedAt(cfg: Config, t0: Time, calls: seq<Call>, id: Id32): Time {
    if calls == [] then t0 else
      var before := calls[..|calls| - 1];
      var w, w' := Exec(cfg, Start(t0), before), Exec(cfg, Start(t0), calls);
      if id in w.st.slots && w'.clock <= OpenedAt(cfg, t0, before, id) + cfg.ttl
      then OpenedAt(cfg, t0, before, id) else w'.clock
  }

  lemma StoreKeepsDeadline(cfg: Config, s: State, ff: Fragment, id: Id32)
    requires ff.txID in s.slots && s.slots[ff.txID].txID == ff.txID
    ensures var slots' := Store(cfg, s, ff).st.slots;
      id in slots' ==> id in s.slots && slots'[id].deadline == s.slots[id].deadline
  {
    StoreSpares(cfg, s, ff);
  }

  /** After a fragment, a slot has its old deadline, or was opened just now. */
  lemma ObserveDeadline(cfg: Config, s: State, ff: Fragment, clock: Time, now: Time, completed: nat, id: Id32)
    requires Sound(cfg, s, clock, completed) && clock <= now && cfg.maxSlots > 0
    ensures var slots' := Observe(cfg, s, ff, now).st.slots;
      id in slots' ==>
        if id in s.slots && now <= s.slots[id].deadline then slots'[id].deadline == s.slots[id].deadline
        else slots'[id].deadline == now + cfg.ttl
  {
    var s1 := EvictExpired(s, now);
    EvictExpiredSweeps(cfg, s, clock, now, completed);
    EvictIsAlive(s, now);
    if ff.txID in s1.slots {
      StoreKeepsDeadline(cfg, s1, ff, id);
    } else if Plausible(ff) {
      OpenOpens(cfg, s1, ff, now, completed);
      StoreKeepsDeadline(cfg, Open(cfg, s1, ff, now), ff, id);
      OpenKeepsDeadline(cfg, s1, ff, now, id);
    }
  }

  lemma OpenKeepsDeadline(cfg: Config, s: State, ff: Fragment, now: Time, id: Id32)
    ensures var slots' := Open(cfg, s, ff, now).slots;
      id in slots' ==> slots'[id].deadline == if id == ff.txID then now + cfg.ttl else
        if id in s.slots then s.slots[id].deadline else slots'[id].deadline
  {
  }

  /** In every run, a slot's deadline is the time it was opened plus the TTL; later fragments do not extend it. */
  lemma {:induction false} DeadlineLaw(cfg: Config, t0: Time, calls: seq<Call>, w: World, id: Id32)
    requires cfg.maxSlots > 0 && w == Exec(cfg, Start(t0), calls) && id in w.st.slots
    ensures w.st.slots[id].deadline == OpenedAt(cfg, t0, calls, id) + cfg.ttl
  {
    if calls != [] {
      var n := |calls| - 1;
      var v, call := Exec(cfg, Start(t0), calls[..n]), calls[n];
      EveryRunKeeps(cfg, t0, calls[..n]);
      if id in v.st.slots {
        DeadlineLaw(cfg, t0, calls[..n], v, id);
      }
      if call.Arrive? {
        ObserveDeadline(cfg, v.st, call.ff, v.clock, Later(v.clock, call.dt), |v.done|, id);
      } else if call.TickAfter? {
        EvictIsAlive(v.st, Later(v.clock, call.dt));
      }
    }
  }
}
