/**
 Limits of the buffer over whole runs: which fragments open a slot, what a tick
 leaves, what the length counts, and that no run completes a transaction more often
 than any one of its fragments arrives.
 */
module ReassemblyDelivery {
  import opened Common
  import opened ReassemblySpec
  import opened ReassemblyRuns

  // ------------------------------------------------- Opening and expiry

  /** A first fragment opens a slot exactly under this condition: the wrapped sum shuts out the largest length. */
  lemma PlausibleIff(ff: Fragment)
    ensures Plausible(ff) <==>
      ff.fragIndex < ff.fragTotal <= ff.origPayloadLen + 1 && 0 < ff.origPayloadLen < TWO32 - 1
  {
  }

  /** Expired slots are a prefix of the live list, so the eviction pass leaves a suffix of it. */
  lemma ExpiredIsPrefix(order: seq<Id32>, slots: map<Id32, Slot>, now: Time) returns (k: nat)
    requires InDeadlineOrder(order, slots)
    ensures k <= |Live(order, slots)|
    ensures Live(order, slots - Expired(slots, order, now)) == Live(order, slots)[k..]
    ensures forall id :: id in Live(order, slots)[..k] ==> id in Expired(slots, order, now)
  {
    k := PrefixOf(order, order, slots, now);
  }

  /** If the last listed slot is expired, all of them are. */
  lemma AllExpired(all: seq<Id32>, order: seq<Id32>, slots: map<Id32, Slot>, now: Time)
    requires order <= all && InDeadlineOrder(order, slots) && order != []
    requires order[|order| - 1] in slots && now > slots[order[|order| - 1]].deadline
    ensures forall id :: id in Live(order, slots) ==> id in Expired(slots, all, now)
  {
    LiveMembers(order, slots);
    forall id | id in Live(order, slots) ensures id in Expired(slots, all, now) {
      var j :| 0 <= j < |order| && order[j] == id;
      assert all[j] == id;
    }
  }

  lemma {:induction false} PrefixOf(all: seq<Id32>, order: seq<Id32>, slots: map<Id32, Slot>,
                                    now: Time) returns (k: nat)
    requires order <= all && InDeadlineOrder(order, slots)
    ensures k <= |Live(order, slots)|
    ensures Live(order, slots - Expired(slots, all, now)) == Live(order, slots)[k..]
    ensures forall id :: id in Live(order, slots)[..k] ==> id in Expired(slots, all, now)
  {
    if order == [] {
      k := 0;
    } else {
      var n := |order| - 1;
      var x, live := order[n], Live(order, slots);
      if x in slots && now > slots[x].deadline {
        k := |live|;
        AllExpired(all, order, slots, now);
        NothingLeft(order, slots, Expired(slots, all, now));
        assert live[..k] == live && live[k..] == [];
      } else {
        k := PrefixOf(all, order[..n], slots, now);
        var rest := Live(order[..n], slots);
        assert live == rest + if x in slots then [x] else [];
        assert live[..k] == rest[..k] && live[k..] == rest[k..] + if x in slots then [x] else [];
      }
    }
  }

  lemma {:induction false} NothingLeft(order: seq<Id32>, slots: map<Id32, Slot>, gone: set<Id32>)
    requires forall id :: id in Live(order, slots) ==> id in gone
    ensures Live(order, slots - gone) == []
  {
    if order != [] {
      var n := |order| - 1;
      assert forall id :: id in Live(order[..n], slots) ==> id in Live(order, slots);
      NothingLeft(order[..n], slots, gone);
      if order[n] in slots { assert order[n] in Live(order, slots); }
    }
  }

  lemma AllOverdue(order: seq<Id32>, slots: map<Id32, Slot>, limit: Time, now: Time)
    requires (forall id :: id in slots ==> id in order) && DeadlinesBy(slots, limit) && limit < now
    ensures slots - Expired(slots, order, now) == map[]
  {
    assert Expired(slots, order, now) == slots.Keys;
  }

  /** A tick later than the last call by the TTL leaves no slot. */
  lemma TickEmpties(cfg: Config, t0: Time, calls: seq<Call>, w: World, now: Time)
    requires cfg.maxSlots > 0 && w == Exec(cfg, Start(t0), calls) && now > w.clock + cfg.ttl
    ensures EvictExpired(w.st, now).slots == map[]
  {
    EveryRunKeeps(cfg, t0, calls);
    AllOverdue(w.st.insertOrder, w.st.slots, w.clock + cfg.ttl, now);
  }

  /** What Len counts: in every run, the slots started and neither completed nor abandoned, at most maxSlots of them. */
  lemma LenIsOpenSlots(cfg: Config, t0: Time, calls: seq<Call>, w: World)
    requires cfg.maxSlots > 0 && w == Exec(cfg, Start(t0), calls)
    ensures |w.st.slots| == w.st.started - |w.done| - w.st.abandoned
    ensures |w.st.slots| <= cfg.maxSlots && |w.st.slots| <= |w.st.insertOrder| <= |w.st.slots| + 1
  {
    EveryRunKeeps(cfg, t0, calls);
    ListedSize(w.st.insertOrder, w.st.slots);
  }

  lemma ListedSize(order: seq<Id32>, slots: map<Id32, Slot>)
    requires Listed(order, slots)
    ensures |slots| <= |order| <= |slots| + 1
  {
    LiveKeeps(order, slots);
    var live := Live(order, slots);
    Distinct(live, slots.Keys);
    LiveLosesOne(order, slots);
  }

  lemma {:induction false} Distinct(ids: seq<Id32>, keys: set<Id32>)
    requires NoDuplicates(ids) && forall id :: id in keys <==> id in ids
    ensures |keys| == |ids|
    decreases |ids|
  {
    if ids == [] {
      assert keys == {};
    } else {
      var n := |ids| - 1;
      assert ids == ids[..n] + [ids[n]];
      assert ids[n] !in ids[..n];
      Distinct(ids[..n], keys - {ids[n]});
      assert keys == (keys - {ids[n]}) + {ids[n]};
    }
  }

  lemma {:induction false} LiveLosesOne(order: seq<Id32>, slots: map<Id32, Slot>)
    requires AtMostOneStale(order, slots)
    ensures |Live(order, slots)| <= |order| <= |Live(order, slots)| + 1
    ensures (forall i :: 0 <= i < |order| ==> order[i] in slots) ==> |Live(order, slots)| == |order|
  {
    if order != [] {
      LiveLosesOne(order[..|order| - 1], slots);
    }
  }

  // --------------------------------------- Deliveries against arrivals

  function One(b: bool): nat { if b then 1 else 0 }

  predicate Carries(ff: Fragment, id: Id32, i: nat) { ff.txID == id && ff.fragIndex == i }

  function Arrivals(arrived: seq<Fragment>, id: Id32, i: nat): nat {
    if arrived == [] then 0 else
      Arrivals(arrived[..|arrived| - 1], id, i) + One(Carries(arrived[|arrived| - 1], id, i))
  }

  /** A completion of this transaction that used a fragment with index i. */
  predicate Used(c: Completion, id: Id32, i: nat) { c.slot.txID == id && i < c.slot.fragTotal }

  function Completions(done: seq<Completion>, id: Id32, i: nat): nat {
    if done == [] then 0 else
      Completions(done[..|done| - 1], id, i) + One(Used(done[|done| - 1], id, i))
  }

  /** The live slot of the transaction holds fragment i. */
  predicate Holding(slots: map<Id32, Slot>, id: Id32, i: nat) {
    id in slots && i < |slots[id].frags| && slots[id].frags[i].Some?
  }

  lemma {:induction false} PresentBound(frags: seq<Option<seq<byte>>>)
    ensures Present(frags) <= |frags|
    ensures Present(frags) == |frags| ==> forall i :: 0 <= i < |frags| ==> frags[i].Some?
  {
    if frags != [] { PresentBound(frags[..|frags| - 1]); }
  }

  lemma StoreUses(cfg: Config, s: State, ff: Fragment, id: Id32, i: nat)
    requires ff.txID in s.slots && Forming(ff.txID, s.slots[ff.txID])
    ensures var r := Store(cfg, s, ff);
      One(Holding(r.st.slots, id, i)) + (if r.done.Some? then One(Used(r.done.value, id, i)) else 0)
      <= One(Holding(s.slots, id, i)) + One(Carries(ff, id, i))
  {
    var slot := s.slots[ff.txID];
    if Fits(slot, ff) {
      var slot' := Filled(slot, ff);
      FillCounts(slot.frags, ff.fragIndex, ff.fragData);
      PresentBound(slot'.frags);
      if id == ff.txID && i < slot.fragTotal {
        assert slot'.received == slot'.fragTotal ==> slot'.frags[i].Some?;
        assert i != ff.fragIndex ==> slot'.frags[i] == slot.frags[i];
      }
    }
  }

  /** One call completes no more than it brings or the slot already held. */
  lemma ObserveUses(cfg: Config, s: State, ff: Fragment, clock: Time, now: Time, completed: nat, id: Id32, i: nat)
    requires Sound(cfg, s, clock, completed) && clock <= now && cfg.maxSlots > 0
    ensures var r := Observe(cfg, s, ff, now);
      One(Holding(r.st.slots, id, i)) + (if r.done.Some? then One(Used(r.done.value, id, i)) else 0)
      <= One(Holding(s.slots, id, i)) + One(Carries(ff, id, i))
  {
    EvictExpiredSweeps(cfg, s, clock, now, completed);
    var s' := EvictExpired(s, now);
    if ff.txID in s'.slots {
      assert SlotOk(ff.txID, s'.slots[ff.txID]);
      StoreUses(cfg, s', ff, id, i);
    } else if Plausible(ff) {
      OpenOpens(cfg, s', ff, now, completed);
      OpenHolds(cfg, s', ff, now, id, i);
      StoreUses(cfg, Open(cfg, s', ff, now), ff, id, i);
    }
  }

  lemma OpenHolds(cfg: Config, s: State, ff: Fragment, now: Time, id: Id32, i: nat)
    ensures Holding(Open(cfg, s, ff, now).slots, id, i) ==> Holding(s.slots, id, i)
  {
  }

  lemma CompletionsSnoc(done: seq<Completion>, c: Option<Completion>, id: Id32, i: nat)
    ensures Completions(done + AsSeq(c), id, i) ==
      Completions(done, id, i) + if c.Some? then One(Used(c.value, id, i)) else 0
  {
    match c
    case None => assert done + AsSeq(c) == done;
    case Some(x) => assert (done + [x])[..|done|] == done;
  }

  lemma ArrivalsSnoc(arrived: seq<Fragment>, ff: Fragment, id: Id32, i: nat)
    ensures Arrivals(arrived + [ff], id, i) == Arrivals(arrived, id, i) + One(Carries(ff, id, i))
  {
    assert (arrived + [ff])[..|arrived|] == arrived;
  }

  lemma CallUses(cfg: Config, w: World, call: Call, w': World, id: Id32, i: nat)
    requires Inv(cfg, w) && cfg.maxSlots > 0 && w' == Next(cfg, w, call)
    requires Completions(w.done, id, i) + One(Holding(w.st.slots, id, i)) <= Arrivals(w.arrived, id, i)
    ensures Completions(w'.done, id, i) + One(Holding(w'.st.slots, id, i)) <= Arrivals(w'.arrived, id, i)
  {
    if call.Arrive? {
      var ff, now := call.ff, Later(w.clock, call.dt);
      ObserveUses(cfg, w.st, ff, w.clock, now, |w.done|, id, i);
      CompletionsSnoc(w.done, Observe(cfg, w.st, ff, now).done, id, i);
      ArrivalsSnoc(w.arrived, ff, id, i);
    }
  }

  /**
   Over every run, whatever the fragments say: a transaction is completed, with
   fragment i in it, at most as often as fragment i of it arrived.
   */
  lemma {:induction false} NoMoreThanArrived(cfg: Config, t0: Time, calls: seq<Call>, id: Id32, i: nat)
    requires cfg.maxSlots > 0
    ensures var w := Exec(cfg, Start(t0), calls);
      Completions(w.done, id, i) + One(Holding(w.st.slots, id, i)) <= Arrivals(w.arrived, id, i)
  {
    if calls != [] {
      var n := |calls| - 1;
      NoMoreThanArrived(cfg, t0, calls[..n], id, i);
      EveryRunKeeps(cfg, t0, calls[..n]);
      CallUses(cfg, Exec(cfg, Start(t0), calls[..n]), calls[n], Exec(cfg, Start(t0), calls), id, i);
    }
  }
}
