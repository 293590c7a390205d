/** The buffer against its reference: rounds of a transaction's fragments. */
module ReassemblyRounds {
  import opened Common
  import opened ReassemblySpec
  import opened ReassemblyRuns

  /**
   The reference. A round collects the distinct indices that arrive; the one that
   completes the set ends the round. `firsts` are the first fragments of the
   finished rounds, `open` is that of the running one.
   */
  datatype Round = Round(firsts: seq<Fragment>, seen: set<nat>, open: Option<Fragment>)

  function Collect(total: nat, r: Round, ff: Fragment): Round {
    var first := if r.seen == {} then ff else match r.open case Some(f) => f case None => ff;
    var seen := r.seen + {ff.fragIndex as nat};
    if |seen| == total then Round(r.firsts + [first], {}, None) else Round(r.firsts, seen, Some(first))
  }

  function Rounds(total: nat, ffs: seq<Fragment>): Round {
    if ffs == [] then Round([], {}, None) else Collect(total, Rounds(total, ffs[..|ffs| - 1]), ffs[|ffs| - 1])
  }

  /** The fragments of one transaction, and its completions, in order. */
  function Of(arrived: seq<Fragment>, id: Id32): seq<Fragment> {
    if arrived == [] then [] else
      var ff := arrived[|arrived| - 1];
      Of(arrived[..|arrived| - 1], id) + if ff.txID == id then [ff] else []
  }

  function DoneOf(done: seq<Completion>, id: Id32): seq<Completion> {
    if done == [] then [] else
      var c := done[|done| - 1];
      DoneOf(done[..|done| - 1], id) + if c.slot.txID == id then [c] else []
  }

  function Flatten(parts: seq<seq<byte>>): seq<byte> {
    if parts == [] then [] else Flatten(parts[..|parts| - 1]) + parts[|parts| - 1]
  }

  /** A transaction split into parts, as the proxy splits it. */
  datatype Split = Split(id: Id32, parts: seq<seq<byte>>, ver: byte)

  /** The buffer admits the split, and has a callback that takes it. */
  ghost predicate Admissible(cfg: Config, x: Split) {
    && 0 < |x.parts| < 0x1_0000
    && |x.parts| <= |Flatten(x.parts)| + 1
    && 0 < |Flatten(x.parts)| < TWO32 - 1
    && (if x.ver == FRAME_VER_V4 then cfg.onCompleteBlock
        else if x.ver == FRAME_VER_V5 then cfg.onCompleteSubtree
        else cfg.onComplete && (cfg.verifyHash ==> cfg.sha256d(Flatten(x.parts)) == x.id))
  }

  ghost predicate Genuine(x: Split, ff: Fragment) {
    && ff.txID == x.id && ff.fragTotal == |x.parts| && ff.fragIndex < ff.fragTotal
    && ff.fragData == x.parts[ff.fragIndex] && ff.origPayloadLen == |Flatten(x.parts)| && ff.origFrameVer == x.ver
  }

  /** The slot carries the metadata of the fragment that opened it. */
  ghost predicate OpenedBy(slot: Slot, ff: Fragment) {
    && slot.hashKey == ff.hashKey && slot.seqNum == ff.seqNum && slot.subtreeID == ff.subtreeID
    && slot.msgType == ff.msgType && slot.origFrameVer == ff.origFrameVer
  }

  /** The live slot is the running round. */
  ghost predicate SlotIs(slots: map<Id32, Slot>, x: Split, r: Round) {
    if r.seen == {} then x.id !in slots
    else
      && x.id in slots && r.open.Some? && r.open.value.origFrameVer == x.ver && OpenedBy(slots[x.id], r.open.value)
      && slots[x.id].fragTotal == |x.parts| && SlotFrags(slots[x.id].frags, x.parts, r.seen)
  }

  ghost predicate SlotFrags(frags: seq<Option<seq<byte>>>, parts: seq<seq<byte>>, seen: set<nat>) {
    && |frags| == |parts| && (forall i :: i in seen ==> i < |parts|)
    && forall i :: 0 <= i < |parts| ==> frags[i] == if i in seen then Some(parts[i]) else None
  }

  ghost predicate DeliveredAs(c: Completion, x: Split, first: Fragment) {
    c.slot.txID == x.id && c.verdict == Delivered && c.payload == Flatten(x.parts) && OpenedBy(c.slot, first)
  }

  ghost predicate DoneIs(done: seq<Completion>, x: Split, r: Round) {
    && |DoneOf(done, x.id)| == |r.firsts|
    && forall j :: 0 <= j < |r.firsts| ==> DeliveredAs(DoneOf(done, x.id)[j], x, r.firsts[j])
  }

  // ------------------------------------------------------------ One slot

  lemma {:induction false} PresentIsSeen(frags: seq<Option<seq<byte>>>, seen: set<nat>)
    requires forall i :: i in seen ==> i < |frags|
    requires forall i :: 0 <= i < |frags| ==> (frags[i].Some? <==> i in seen)
    ensures |seen| == Present(frags)
    decreases |frags|
  {
    if frags == [] {
      assert seen == {};
    } else {
      var n := |frags| - 1;
      PresentIsSeen(frags[..n], seen - {n});
      if n !in seen { assert seen - {n} == seen; }
    }
  }

  lemma {:induction false} PayloadIsFlatten(frags: seq<Option<seq<byte>>>, parts: seq<seq<byte>>)
    requires |frags| == |parts| && forall i :: 0 <= i < |parts| ==> frags[i] == Some(parts[i])
    ensures Payload(frags) == Flatten(parts)
  {
    if frags != [] { PayloadIsFlatten(frags[..|frags| - 1], parts[..|parts| - 1]); }
  }

  lemma SeenAll(parts: seq<seq<byte>>, seen: set<nat>)
    requires (forall i :: i in seen ==> i < |parts|) && |seen| == |parts|
    ensures forall i: nat :: i < |parts| ==> i in seen
  {
    SubsetSize<int>(seen, Range(0, |parts|));
  }

  /** The fragment is accepted exactly when its index is new, and then the slot is the extended round. */
  lemma FillMatches(slot: Slot, x: Split, seen: set<nat>, ff: Fragment)
    requires Forming(x.id, slot) && slot.fragTotal == |x.parts| && SlotFrags(slot.frags, x.parts, seen)
    requires Genuine(x, ff)
    ensures Fits(slot, ff) <==> ff.fragIndex !in seen
    ensures Fits(slot, ff) ==>
      var seen' := seen + {ff.fragIndex as nat};
      SlotFrags(Filled(slot, ff).frags, x.parts, seen') && Filled(slot, ff).received == |seen'|
  {
    if Fits(slot, ff) {
      var seen' := seen + {ff.fragIndex as nat};
      FillCounts(slot.frags, ff.fragIndex, ff.fragData);
      PresentIsSeen(Filled(slot, ff).frags, seen');
    }
  }

  lemma CompleteDelivers(cfg: Config, slot: Slot, x: Split, seen: set<nat>, first: Fragment)
    requires Admissible(cfg, x) && slot.txID == x.id && OpenedBy(slot, first) && first.origFrameVer == x.ver
    requires SlotFrags(slot.frags, x.parts, seen) && |seen| == |x.parts|
    ensures DeliveredAs(Complete(cfg, slot), x, first)
  {
    SeenAll(x.parts, seen);
    PayloadIsFlatten(slot.frags, x.parts);
  }

  /** Storing a genuine fragment in the slot of the running round is one step of the reference. */
  lemma StoreCollects(cfg: Config, s: State, x: Split, seen: set<nat>, first: Fragment, ff: Fragment, r: Round)
    requires Admissible(cfg, x) && Genuine(x, ff) && first.origFrameVer == x.ver
    requires x.id in s.slots && Forming(x.id, s.slots[x.id]) && OpenedBy(s.slots[x.id], first)
    requires s.slots[x.id].fragTotal == |x.parts| && SlotFrags(s.slots[x.id].frags, x.parts, seen)
    requires r.seen == seen && (if seen == {} then first == ff else r.open == Some(first))
    ensures SlotIs(Store(cfg, s, ff).st.slots, x, Collect(|x.parts|, r, ff))
    ensures match Store(cfg, s, ff).done
      case None => Collect(|x.parts|, r, ff).firsts == r.firsts
      case Some(c) => Collect(|x.parts|, r, ff).firsts == r.firsts + [first] && DeliveredAs(c, x, first)
  {
    var slot := s.slots[x.id];
    FillMatches(slot, x, seen, ff);
    var seen' := seen + {ff.fragIndex as nat};
    if Fits(slot, ff) {
      if |seen'| == |x.parts| { CompleteDelivers(cfg, Filled(slot, ff), x, seen', first); }
    } else {
      assert seen' == seen;
      PresentIsSeen(slot.frags, seen);
    }
  }

  lemma FreshSlot(cfg: Config, x: Split, ff: Fragment, now: Time)
    requires Genuine(x, ff) && Admissible(cfg, x)
    ensures Plausible(ff) && Forming(x.id, NewSlot(cfg, ff, now)) && OpenedBy(NewSlot(cfg, ff, now), ff)
    ensures SlotFrags(NewSlot(cfg, ff, now).frags, x.parts, {})
  {
    NonePresent(ff.fragTotal);
  }

  /** A call that completes the transaction ends a round, and one that does not leaves the finished rounds alone. */
  ghost predicate Recorded(done: Option<Completion>, x: Split, r: Round, r': Round) {
    match done
    case None => r'.firsts == r.firsts
    case Some(c) => exists first :: r'.firsts == r.firsts + [first] && DeliveredAs(c, x, first)
  }

  /** One genuine arrival, from any state whose slot is the running round and is not expired. */
  lemma ObserveCollects(cfg: Config, s: State, x: Split, r: Round, ff: Fragment, clock: Time, now: Time, completed: nat)
    requires Sound(cfg, s, clock, completed) && clock <= now
    requires Admissible(cfg, x) && Genuine(x, ff) && SlotIs(s.slots, x, r)
    requires x.id in s.slots ==> x.id in EvictExpired(s, now).slots
    ensures SlotIs(Observe(cfg, s, ff, now).st.slots, x, Collect(|x.parts|, r, ff))
    ensures Recorded(Observe(cfg, s, ff, now).done, x, r, Collect(|x.parts|, r, ff))
  {
    var s' := EvictExpired(s, now);
    if r.seen == {} {
      FreshSlot(cfg, x, ff, now);
      StoreCollects(cfg, Open(cfg, s', ff, now), x, {}, ff, ff, r);
    } else {
      assert s'.slots[x.id] == s.slots[x.id] && SlotOk(x.id, s.slots[x.id]);
      StoreCollects(cfg, s', x, r.seen, r.open.value, ff, r);
    }
  }

  /** A fragment of another transaction leaves a spared slot as it is. */
  lemma ObserveOther(cfg: Config, s: State, x: Split, r: Round, ff: Fragment, clock: Time, now: Time, completed: nat)
    requires Sound(cfg, s, clock, completed) && clock <= now && cfg.maxSlots > 0
    requires ff.txID != x.id && SlotIs(s.slots, x, r)
    requires x.id in s.slots ==> x.id in Observe(cfg, s, ff, now).st.slots
    ensures SlotIs(Observe(cfg, s, ff, now).st.slots, x, r)
    ensures Observe(cfg, s, ff, now).done.Some? ==> Observe(cfg, s, ff, now).done.value.slot.txID == ff.txID
  {
    EvictExpiredSweeps(cfg, s, clock, now, completed);
    var s' := EvictExpired(s, now);
    if ff.txID in s'.slots {
      assert SlotOk(ff.txID, s'.slots[ff.txID]);
      StoreOther(cfg, s', ff, x.id);
    } else if Plausible(ff) {
      StoreOther(cfg, Open(cfg, s', ff, now), ff, x.id);
    }
  }

  lemma StoreOther(cfg: Config, s: State, ff: Fragment, id: Id32)
    requires ff.txID in s.slots && s.slots[ff.txID].txID == ff.txID != id
    ensures id in Store(cfg, s, ff).st.slots <==> id in s.slots
    ensures id in s.slots ==> Store(cfg, s, ff).st.slots[id] == s.slots[id]
    ensures Store(cfg, s, ff).done.Some? ==> Store(cfg, s, ff).done.value.slot.txID == ff.txID
  {
  }

  // ------------------------------------------------------------ Whole runs

  /** The call does not evict the transaction's slot. */
  ghost predicate Spares(cfg: Config, w: World, call: Call, id: Id32) {
    id in w.st.slots ==>
      match call
      case Arrive(ff, dt) =>
        if ff.txID == id then id in EvictExpired(w.st, Later(w.clock, dt)).slots
        else id in Observe(cfg, w.st, ff, Later(w.clock, dt)).st.slots
      case TickAfter(dt) => id in EvictExpired(w.st, Later(w.clock, dt)).slots
      case PurgeAll => false
  }

  /** Every fragment of the transaction is genuine and its slot is never evicted; the rest of the run is arbitrary. */
  ghost predicate Fair(cfg: Config, w: World, calls: seq<Call>, x: Split) {
    calls != [] ==>
      var n := |calls| - 1;
      && Fair(cfg, w, calls[..n], x)
      && Spares(cfg, Exec(cfg, w, calls[..n]), calls[n], x.id)
      && (calls[n].Arrive? && calls[n].ff.txID == x.id ==> Genuine(x, calls[n].ff))
  }

  lemma OfSnoc(arrived: seq<Fragment>, ff: Fragment, id: Id32)
    ensures Of(arrived + [ff], id) == if ff.txID == id then Of(arrived, id) + [ff] else Of(arrived, id)
  {
    assert (arrived + [ff])[..|arrived|] == arrived;
  }

  lemma DoneOfSnoc(done: seq<Completion>, c: Option<Completion>, id: Id32)
    ensures DoneOf(done + AsSeq(c), id) ==
      if c.Some? && c.value.slot.txID == id then DoneOf(done, id) + [c.value] else DoneOf(done, id)
  {
    match c
    case None => assert done + AsSeq(c) == done;
    case Some(y) => assert (done + [y])[..|done|] == done;
  }

  ghost predicate IsRound(w: World, x: Split) {
    && SlotIs(w.st.slots, x, Rounds(|x.parts|, Of(w.arrived, x.id)))
    && DoneIs(w.done, x, Rounds(|x.parts|, Of(w.arrived, x.id)))
  }

  lemma RoundsSnoc(total: nat, ffs: seq<Fragment>, ff: Fragment)
    ensures Rounds(total, ffs + [ff]) == Collect(total, Rounds(total, ffs), ff)
  {
    assert (ffs + [ff])[..|ffs|] == ffs;
  }

  lemma DoneIsSnoc(done: seq<Completion>, c: Option<Completion>, x: Split, r: Round, r': Round)
    requires DoneIs(done, x, r) && Recorded(c, x, r, r')
    ensures DoneIs(done + AsSeq(c), x, r')
  {
    DoneOfSnoc(done, c, x.id);
  }

  lemma OwnFragment(cfg: Config, w: World, x: Split, ff: Fragment, now: Time)
    requires Inv(cfg, w) && w.clock <= now && IsRound(w, x)
    requires Admissible(cfg, x) && Genuine(x, ff)
    requires x.id in w.st.slots ==> x.id in EvictExpired(w.st, now).slots
    ensures IsRound(AfterFragment(cfg, w, ff, now), x)
  {
    var r := Rounds(|x.parts|, Of(w.arrived, x.id));
    ObserveCollects(cfg, w.st, x, r, ff, w.clock, now, |w.done|);
    OfSnoc(w.arrived, ff, x.id);
    RoundsSnoc(|x.parts|, Of(w.arrived, x.id), ff);
    DoneIsSnoc(w.done, Observe(cfg, w.st, ff, now).done, x, r, Collect(|x.parts|, r, ff));
  }

  lemma OtherFragment(cfg: Config, w: World, x: Split, ff: Fragment, now: Time)
    requires Inv(cfg, w) && w.clock <= now && cfg.maxSlots > 0 && IsRound(w, x) && ff.txID != x.id
    requires x.id in w.st.slots ==> x.id in Observe(cfg, w.st, ff, now).st.slots
    ensures IsRound(AfterFragment(cfg, w, ff, now), x)
  {
    var r := Rounds(|x.parts|, Of(w.arrived, x.id));
    ObserveOther(cfg, w.st, x, r, ff, w.clock, now, |w.done|);
    OfSnoc(w.arrived, ff, x.id);
    DoneIsOther(w.done, Observe(cfg, w.st, ff, now).done, x, r);
  }

  lemma DoneIsOther(done: seq<Completion>, c: Option<Completion>, x: Split, r: Round)
    requires DoneIs(done, x, r) && (c.Some? ==> c.value.slot.txID != x.id)
    ensures DoneIs(done + AsSeq(c), x, r)
  {
    DoneOfSnoc(done, c, x.id);
  }

  lemma CallIsRound(cfg: Config, w: World, call: Call, x: Split)
    requires Inv(cfg, w) && cfg.maxSlots > 0 && IsRound(w, x) && Admissible(cfg, x) && Spares(cfg, w, call, x.id)
    requires call.Arrive? && call.ff.txID == x.id ==> Genuine(x, call.ff)
    ensures IsRound(Next(cfg, w, call), x)
  {
    match call
    case Arrive(ff, dt) =>
      if ff.txID == x.id {
        OwnFragment(cfg, w, x, ff, Later(w.clock, dt));
      } else {
        OtherFragment(cfg, w, x, ff, Later(w.clock, dt));
      }
    case TickAfter(dt) =>
    case PurgeAll =>
  }

  /**
   For every payload, every split and every fair run, the buffer's slot and its
   deliveries are those of the reference: one delivery of the original payload per
   finished round, with the metadata of the round's first fragment.
   */
  lemma {:induction false} FollowsRounds(cfg: Config, t0: Time, calls: seq<Call>, x: Split)
    requires cfg.maxSlots > 0 && Admissible(cfg, x) && Fair(cfg, Start(t0), calls, x)
    ensures IsRound(Exec(cfg, Start(t0), calls), x)
  {
    if calls != [] {
      var n := |calls| - 1;
      FollowsRounds(cfg, t0, calls[..n], x);
      EveryRunKeeps(cfg, t0, calls[..n]);
      CallIsRound(cfg, Exec(cfg, Start(t0), calls[..n]), calls[n], x);
    }
  }

  // --------------------------------------------------- Exactly one delivery

  function Indices(ffs: seq<Fragment>): set<nat> { set i | 0 <= i < |ffs| :: ffs[i].fragIndex as nat }

  lemma NotAll(total: nat, seen: set<nat>, missing: nat)
    requires missing < total && missing !in seen && forall k :: k in seen ==> k < total
    ensures |seen| < total
  {
    assert seen <= Range(0, total) - {missing};
    SubsetSize<int>(seen, Range(0, total) - {missing});
  }

  /** While an index is missing, no round has finished and the running one has seen what arrived. */
  lemma {:induction false} UnfinishedRound(total: nat, ffs: seq<Fragment>, missing: nat)
    requires missing < total && missing !in Indices(ffs)
    requires forall k :: k in Indices(ffs) ==> k < total
    ensures Rounds(total, ffs).firsts == [] && Rounds(total, ffs).seen == Indices(ffs)
  {
    if ffs != [] {
      var n := |ffs| - 1;
      assert Indices(ffs) == Indices(ffs[..n]) + {ffs[n].fragIndex as nat};
      UnfinishedRound(total, ffs[..n], missing);
      NotAll(total, Indices(ffs), missing);
    }
  }

  /**
   Until every index has arrived nothing is delivered; the fragment that brings
   the last missing index delivers the original payload, exactly once.
   */
  lemma DeliversExactlyOnce(cfg: Config, t0: Time, calls: seq<Call>, ff: Fragment, dt: nat, x: Split, w: World,
                            w': World)
    requires cfg.maxSlots > 0 && Admissible(cfg, x) && Genuine(x, ff)
    requires Fair(cfg, Start(t0), calls, x)
    requires w == Exec(cfg, Start(t0), calls) && w' == Next(cfg, w, Arrive(ff, dt))
    requires Spares(cfg, w, Arrive(ff, dt), x.id)
    requires ff.fragIndex !in Indices(Of(w.arrived, x.id))
    requires Indices(Of(w.arrived, x.id)) + {ff.fragIndex as nat} == Range(0, |x.parts|)
    ensures DoneOf(w.done, x.id) == []
    ensures |DoneOf(w'.done, x.id)| == 1
    ensures DoneOf(w'.done, x.id)[0].verdict == Delivered && DoneOf(w'.done, x.id)[0].payload == Flatten(x.parts)
    ensures x.id !in w'.st.slots
  {
    FollowsRounds(cfg, t0, calls, x);
    EveryRunKeeps(cfg, t0, calls);
    CallIsRound(cfg, w, Arrive(ff, dt), x);
    OfSnoc(w.arrived, ff, x.id);
    LastDelivers(w, w', x, ff);
  }

  lemma LastDelivers(w: World, w': World, x: Split, ff: Fragment)
    requires IsRound(w, x) && IsRound(w', x) && Of(w'.arrived, x.id) == Of(w.arrived, x.id) + [ff]
    requires ff.fragIndex !in Indices(Of(w.arrived, x.id))
    requires Indices(Of(w.arrived, x.id)) + {ff.fragIndex as nat} == Range(0, |x.parts|)
    ensures DoneOf(w.done, x.id) == []
    ensures |DoneOf(w'.done, x.id)| == 1
    ensures DoneOf(w'.done, x.id)[0].verdict == Delivered && DoneOf(w'.done, x.id)[0].payload == Flatten(x.parts)
    ensures x.id !in w'.st.slots
  {
    LastMissing(|x.parts|, Of(w.arrived, x.id), ff);
  }

  lemma LastMissing(total: nat, ffs: seq<Fragment>, ff: Fragment)
    requires ff.fragIndex !in Indices(ffs) && Indices(ffs) + {ff.fragIndex as nat} == Range(0, total)
    ensures Rounds(total, ffs).firsts == []
    ensures |Rounds(total, ffs + [ff]).firsts| == 1 && Rounds(total, ffs + [ff]).seen == {}
  {
    assert ff.fragIndex in Range(0, total);
    forall k | k in Indices(ffs) ensures k < total {
      assert k in Range(0, total);
    }
    UnfinishedRound(total, ffs, ff.fragIndex);
    RoundsSnoc(total, ffs, ff);
  }
}
