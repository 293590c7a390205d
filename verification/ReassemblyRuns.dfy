/** Runs of the reassembly buffer, and what every call keeps: the order list, the bounds and the books. */
module ReassemblyRuns {
  import opened Common
  import opened ReassemblySpec

  /** A call, with the time since the previous one; the clock is read under the buffer's lock. */
  datatype Call = Arrive(ff: Fragment, dt: nat) | TickAfter(dt: nat) | PurgeAll

  /** The buffer, its clock, and a record of the completions and of the fragments that arrived. */
  datatype World = World(st: State, clock: Time, done: seq<Completion>, arrived: seq<Fragment>)

  ghost function Start(t0: Time): World { World(EMPTY, t0, [], []) }

  function AsSeq(c: Option<Completion>): seq<Completion> { match c case None => [] case Some(x) => [x] }

  ghost function AfterFragment(cfg: Config, w: World, ff: Fragment, now: Time): World {
    World(Observe(cfg, w.st, ff, now).st, now, w.done + AsSeq(Observe(cfg, w.st, ff, now).done), w.arrived + [ff])
  }

  ghost function AfterTick(w: World, now: Time): World { World(EvictExpired(w.st, now), now, w.done, w.arrived) }

  ghost function AfterPurge(w: World): World { World(Purge(w.st), w.clock, w.done, w.arrived) }

  ghost function Next(cfg: Config, w: World, call: Call): World {
    match call
    case Arrive(ff, dt) => AfterFragment(cfg, w, ff, Later(w.clock, dt))
    case TickAfter(dt) => AfterTick(w, Later(w.clock, dt))
    case PurgeAll => AfterPurge(w)
  }

  ghost function Exec(cfg: Config, w: World, calls: seq<Call>): World {
    if calls == [] then w else Next(cfg, Exec(cfg, w, calls[..|calls| - 1]), calls[|calls| - 1])
  }

  // ------------------------------------------------------- The invariant

  function Present(frags: seq<Option<seq<byte>>>): nat {
    if frags == [] then 0 else
      Present(frags[..|frags| - 1]) + if frags[|frags| - 1].Some? then 1 else 0
  }

  /** A slot under its own id whose count is the number of fragments present, and which is not complete. */
  ghost predicate Forming(id: Id32, slot: Slot) {
    && slot.txID == id && |slot.frags| == slot.fragTotal
    && slot.received == Present(slot.frags) < slot.fragTotal
  }

  ghost predicate SlotOk(id: Id32, slot: Slot) { Forming(id, slot) && slot.received >= 1 }

  ghost predicate SlotsOk(slots: map<Id32, Slot>) { forall id :: id in slots ==> SlotOk(id, slots[id]) }

  ghost predicate NoDuplicates(order: seq<Id32>) { forall i, j :: 0 <= i < j < |order| ==> order[i] != order[j] }

  ghost predicate AtMostOneStale(order: seq<Id32>, slots: map<Id32, Slot>) {
    forall i, j :: 0 <= i < j < |order| ==> order[i] in slots || order[j] in slots
  }

  /** Every slot is listed, no id twice, and at most one listed id has no slot any more. */
  ghost predicate Listed(order: seq<Id32>, slots: map<Id32, Slot>) {
    && NoDuplicates(order)
    && (forall id :: id in slots ==> id in order)
    && AtMostOneStale(order, slots)
  }

  ghost predicate AllLive(order: seq<Id32>, slots: map<Id32, Slot>) {
    NoDuplicates(order) && forall id :: id in slots <==> id in order
  }

  /** The list names the live slots in deadline order. */
  ghost predicate InDeadlineOrder(order: seq<Id32>, slots: map<Id32, Slot>) {
    forall i, j :: 0 <= i < j < |order| && order[i] in slots && order[j] in slots ==>
      slots[order[i]].deadline <= slots[order[j]].deadline
  }

  ghost predicate DeadlinesBy(slots: map<Id32, Slot>, limit: Time) {
    forall id :: id in slots ==> slots[id].deadline <= limit
  }

  /** Every slot ever started is completed, abandoned or live. */
  ghost predicate Booked(s: State, completed: nat) {
    && s.started == completed + s.abandoned + |s.slots|
    && completed == s.delivered + s.discarded + s.mismatched
  }

  ghost predicate Sound(cfg: Config, s: State, now: Time, completed: nat) {
    && Listed(s.insertOrder, s.slots)
    && InDeadlineOrder(s.insertOrder, s.slots)
    && DeadlinesBy(s.slots, now + cfg.ttl)
    && SlotsOk(s.slots) && |s.slots| <= cfg.maxSlots
    && Booked(s, completed)
  }

  ghost predicate Inv(cfg: Config, w: World) { Sound(cfg, w.st, w.clock, |w.done|) }

  // ---------------------------------------------------------- Compaction

  lemma {:induction false} LiveMembers(order: seq<Id32>, slots: map<Id32, Slot>)
    ensures forall id :: id in Live(order, slots) <==> id in order && id in slots
  {
    if order != [] {
      var n := |order| - 1;
      LiveMembers(order[..n], slots);
      assert order == order[..n] + [order[n]];
    }
  }

  lemma {:induction false} LiveDistinct(order: seq<Id32>, slots: map<Id32, Slot>)
    requires NoDuplicates(order)
    ensures NoDuplicates(Live(order, slots))
  {
    if order != [] {
      var n := |order| - 1;
      LiveDistinct(order[..n], slots);
      LiveMembers(order[..n], slots);
      assert order[n] !in order[..n];
    }
  }

  lemma {:induction false} LiveSorted(order: seq<Id32>, slots: map<Id32, Slot>)
    requires InDeadlineOrder(order, slots)
    ensures InDeadlineOrder(Live(order, slots), slots)
  {
    if order != [] {
      var n := |order| - 1;
      LiveSorted(order[..n], slots);
      LiveMembers(order[..n], slots);
      var rest := Live(order[..n], slots);
      forall i | 0 <= i < |rest| && order[n] in slots
        ensures slots[rest[i]].deadline <= slots[order[n]].deadline
      {
        assert rest[i] in rest;
        var j :| 0 <= j < n && order[j] == rest[i];
      }
    }
  }

  /** Compaction keeps exactly the live ids, without duplicates, in their order. */
  lemma LiveKeeps(order: seq<Id32>, slots: map<Id32, Slot>)
    requires NoDuplicates(order)
    ensures NoDuplicates(Live(order, slots))
    ensures forall id :: id in Live(order, slots) <==> id in order && id in slots
    ensures InDeadlineOrder(order, slots) ==> InDeadlineOrder(Live(order, slots), slots)
  {
    LiveMembers(order, slots);
    LiveDistinct(order, slots);
    if InDeadlineOrder(order, slots) {
      LiveSorted(order, slots);
    }
  }

  /** Fewer slots: the order properties survive. */
  lemma Thinner(order: seq<Id32>, slots: map<Id32, Slot>, gone: set<Id32>)
    requires InDeadlineOrder(order, slots)
    ensures InDeadlineOrder(order, slots - gone)
  {
  }

  lemma RemoveCount(slots: map<Id32, Slot>, gone: set<Id32>)
    requires gone <= slots.Keys
    ensures |slots - gone| == |slots| - |gone|
  {
    assert (slots - gone).Keys == slots.Keys - gone;
    DisjointSize(slots.Keys, slots.Keys - gone, gone);
  }

  /** The state between the eviction pass and the rest of a call. */
  ghost predicate Swept(cfg: Config, s: State, now: Time, completed: nat) {
    && AllLive(s.insertOrder, s.slots)
    && InDeadlineOrder(s.insertOrder, s.slots)
    && DeadlinesBy(s.slots, now + cfg.ttl)
    && SlotsOk(s.slots) && |s.slots| <= cfg.maxSlots
    && Booked(s, completed)
  }

  lemma EvictExpiredSweeps(cfg: Config, s: State, clock: Time, now: Time, completed: nat)
    requires Sound(cfg, s, clock, completed) && clock <= now
    ensures Swept(cfg, EvictExpired(s, now), now, completed)
  {
    var expired := Expired(s.slots, s.insertOrder, now);
    RemoveCount(s.slots, expired);
    Thinner(s.insertOrder, s.slots, expired);
    LiveKeeps(s.insertOrder, s.slots - expired);
  }

  lemma SweptIsSound(cfg: Config, s: State, now: Time, completed: nat)
    requires Swept(cfg, s, now, completed)
    ensures Sound(cfg, s, now, completed)
  {
    assert forall i :: 0 <= i < |s.insertOrder| ==> s.insertOrder[i] in s.insertOrder;
  }

  lemma FirstIsLive(order: seq<Id32>, slots: map<Id32, Slot>)
    requires AllLive(order, slots) && slots != map[]
    ensures order != [] && order[0] in slots && FirstLive(order, slots) == 0
  {
    var any :| any in slots;
    assert any in order;
    assert order[0] in order;
  }

  /** Capacity eviction takes the first listed slot, and no slot has an earlier deadline. */
  lemma EvictOldestIsEarliest(cfg: Config, s: State, now: Time, completed: nat)
    requires Swept(cfg, s, now, completed) && s.slots != map[]
    ensures s.insertOrder != [] && s.insertOrder[0] in s.slots
    ensures EvictOldest(s).slots == s.slots - {s.insertOrder[0]}
    ensures forall id :: id in s.slots ==> s.slots[s.insertOrder[0]].deadline <= s.slots[id].deadline
  {
    FirstIsLive(s.insertOrder, s.slots);
    forall id | id in s.slots
      ensures s.slots[s.insertOrder[0]].deadline <= s.slots[id].deadline
    {
      var j :| 0 <= j < |s.insertOrder| && s.insertOrder[j] == id;
    }
  }

  lemma DropFirst(order: seq<Id32>, slots: map<Id32, Slot>)
    requires AllLive(order, slots) && order != []
    ensures AllLive(order[1..], slots - {order[0]})
  {
    forall id ensures id in order[1..] <==> id in order && id != order[0] {
      if id in order[1..] {
        var j :| 0 <= j < |order| - 1 && order[1..][j] == id;
        assert order[j + 1] == id;
      }
      if id in order && id != order[0] {
        var j :| 0 <= j < |order| && order[j] == id;
        assert order[1..][j - 1] == id;
      }
    }
  }

  lemma DropFirstSorted(order: seq<Id32>, slots: map<Id32, Slot>)
    requires InDeadlineOrder(order, slots) && order != []
    ensures InDeadlineOrder(order[1..], slots - {order[0]})
  {
  }

  lemma EvictFirst(s: State)
    requires s.insertOrder != [] && FirstLive(s.insertOrder, s.slots) == 0
    ensures EvictOldest(s) == s.(slots := s.slots - {s.insertOrder[0]}, insertOrder := s.insertOrder[1..],
                                 abandoned := s.abandoned + 1)
  {
    assert s.insertOrder[..0] + s.insertOrder[1..] == s.insertOrder[1..];
  }

  lemma EvictOldestShape(s: State)
    requires AllLive(s.insertOrder, s.slots) && s.slots != map[]
    ensures s.insertOrder != [] && s.insertOrder[0] in s.slots
    ensures EvictOldest(s) == s.(slots := s.slots - {s.insertOrder[0]}, insertOrder := s.insertOrder[1..],
                                 abandoned := s.abandoned + 1)
  {
    FirstIsLive(s.insertOrder, s.slots);
    EvictFirst(s);
  }

  lemma EvictOldestSweeps(cfg: Config, s: State, now: Time, completed: nat)
    requires Swept(cfg, s, now, completed) && s.slots != map[]
    ensures Swept(cfg, EvictOldest(s), now, completed) && |EvictOldest(s).slots| == |s.slots| - 1
  {
    EvictOldestShape(s);
    RemoveCount(s.slots, {s.insertOrder[0]});
    DropFirst(s.insertOrder, s.slots);
    DropFirstSorted(s.insertOrder, s.slots);
  }

  lemma {:induction false} NonePresent(n: nat)
    ensures Present(Nothing(n)) == 0
  {
    if n > 0 {
      NonePresent(n - 1);
      assert Nothing(n)[..n - 1] == Nothing(n - 1);
    }
  }

  /** Filling a missing index raises the count by one. */
  lemma {:induction false} FillCounts(frags: seq<Option<seq<byte>>>, k: nat, d: seq<byte>)
    requires k < |frags| && frags[k].None?
    ensures Present(frags[k := Some(d)]) == Present(frags) + 1
  {
    var n := |frags| - 1;
    var after := frags[k := Some(d)];
    if k < n {
      FillCounts(frags[..n], k, d);
      assert after[..n] == frags[..n][k := Some(d)];
    } else {
      assert after[..n] == frags[..n];
    }
  }

  /** A freshly opened slot on top of a swept state. */
  ghost predicate Opened(cfg: Config, s: State, id: Id32, now: Time, completed: nat) {
    && AllLive(s.insertOrder, s.slots) && id in s.slots
    && InDeadlineOrder(s.insertOrder, s.slots)
    && DeadlinesBy(s.slots, now + cfg.ttl)
    && (forall k :: k in s.slots && k != id ==> SlotOk(k, s.slots[k]))
    && Forming(id, s.slots[id])
    && |s.slots| <= cfg.maxSlots
    && Booked(s, completed)
  }

  lemma InsertSlot(order: seq<Id32>, slots: map<Id32, Slot>, slot: Slot, limit: Time)
    requires AllLive(order, slots) && InDeadlineOrder(order, slots) && DeadlinesBy(slots, limit)
    requires slot.txID !in slots && slot.deadline == limit
    ensures AllLive(order + [slot.txID], slots[slot.txID := slot])
    ensures InDeadlineOrder(order + [slot.txID], slots[slot.txID := slot])
    ensures DeadlinesBy(slots[slot.txID := slot], limit)
  {
    assert slot.txID !in order;
    assert forall i :: 0 <= i < |order| ==> order[i] in order;
  }

  lemma MakeRoom(cfg: Config, s: State, now: Time, completed: nat) returns (s': State)
    requires Swept(cfg, s, now, completed) && cfg.maxSlots > 0
    ensures s' == if |s.slots| >= cfg.maxSlots then EvictOldest(s) else s
    ensures Swept(cfg, s', now, completed) && |s'.slots| < cfg.maxSlots && s'.slots.Keys <= s.slots.Keys
  {
    s' := s;
    if |s.slots| >= cfg.maxSlots {
      assert s.slots != map[];
      EvictOldestSweeps(cfg, s, now, completed);
      s' := EvictOldest(s);
    }
  }

  lemma WithSlotOpens(cfg: Config, s: State, ff: Fragment, now: Time, completed: nat)
    requires Swept(cfg, s, now, completed) && |s.slots| < cfg.maxSlots
    requires ff.txID !in s.slots && Plausible(ff)
    ensures Opened(cfg, WithSlot(cfg, s, ff, now), ff.txID, now, completed)
    ensures Fits(WithSlot(cfg, s, ff, now).slots[ff.txID], ff)
  {
    NonePresent(ff.fragTotal);
    InsertSlot(s.insertOrder, s.slots, NewSlot(cfg, ff, now), now + cfg.ttl);
  }

  lemma OpenOpens(cfg: Config, s: State, ff: Fragment, now: Time, completed: nat)
    requires Swept(cfg, s, now, completed) && cfg.maxSlots > 0
    requires ff.txID !in s.slots && Plausible(ff)
    ensures Opened(cfg, Open(cfg, s, ff, now), ff.txID, now, completed)
    ensures Fits(Open(cfg, s, ff, now).slots[ff.txID], ff)
  {
    var s' := MakeRoom(cfg, s, now, completed);
    WithSlotOpens(cfg, s', ff, now, completed);
  }

  /** Dropping one slot leaves at most that id stale. */
  lemma OneStale(order: seq<Id32>, slots: map<Id32, Slot>, id: Id32)
    requires AllLive(order, slots) && InDeadlineOrder(order, slots)
    ensures Listed(order, slots - {id}) && InDeadlineOrder(order, slots - {id})
  {
    assert forall i :: 0 <= i < |order| ==> order[i] in order;
  }

  /** A received fragment changes its slot's fragments and count, nothing else. */
  lemma ReplaceSlot(order: seq<Id32>, slots: map<Id32, Slot>, slot: Slot)
    requires AllLive(order, slots) && InDeadlineOrder(order, slots) && slot.txID in slots
    requires slot.deadline == slots[slot.txID].deadline
    ensures AllLive(order, slots[slot.txID := slot]) && InDeadlineOrder(order, slots[slot.txID := slot])
    ensures |slots[slot.txID := slot]| == |slots|
  {
    assert slots[slot.txID := slot].Keys == slots.Keys;
  }

  lemma FillKeeps(cfg: Config, s: State, slot: Slot, now: Time, completed: nat)
    requires Opened(cfg, s, slot.txID, now, completed) && SlotOk(slot.txID, slot)
    requires slot.deadline == s.slots[slot.txID].deadline
    ensures Swept(cfg, s.(slots := s.slots[slot.txID := slot]), now, completed)
  {
    ReplaceSlot(s.insertOrder, s.slots, slot);
  }

  lemma BookKeeps(cfg: Config, s: State, c: Completion, now: Time, completed: nat)
    requires Opened(cfg, s, c.slot.txID, now, completed)
    ensures Sound(cfg, Book(s, c), now, completed + 1)
  {
    OneStale(s.insertOrder, s.slots, c.slot.txID);
    RemoveCount(s.slots, {c.slot.txID});
  }

  lemma StoreKeeps(cfg: Config, s: State, ff: Fragment, now: Time, completed: nat)
    requires Opened(cfg, s, ff.txID, now, completed)
    requires SlotOk(ff.txID, s.slots[ff.txID]) || Fits(s.slots[ff.txID], ff)
    ensures Sound(cfg, Store(cfg, s, ff).st, now, completed + |AsSeq(Store(cfg, s, ff).done)|)
  {
    var slot := s.slots[ff.txID];
    if !Fits(slot, ff) {
      SweptIsSound(cfg, s, now, completed);
    } else {
      FillCounts(slot.frags, ff.fragIndex, ff.fragData);
      var slot' := Filled(slot, ff);
      if slot'.received < slot'.fragTotal {
        FillKeeps(cfg, s, slot', now, completed);
        SweptIsSound(cfg, s.(slots := s.slots[ff.txID := slot']), now, completed);
      } else {
        BookKeeps(cfg, s, Complete(cfg, slot'), now, completed);
      }
    }
  }

  lemma ObserveKeeps(cfg: Config, s: State, ff: Fragment, clock: Time, now: Time, completed: nat)
    requires Sound(cfg, s, clock, completed) && clock <= now && cfg.maxSlots > 0
    ensures Sound(cfg, Observe(cfg, s, ff, now).st, now, completed + |AsSeq(Observe(cfg, s, ff, now).done)|)
  {
    EvictExpiredSweeps(cfg, s, clock, now, completed);
    var s' := EvictExpired(s, now);
    if ff.txID in s'.slots {
      StoreKeeps(cfg, s', ff, now, completed);
    } else if Plausible(ff) {
      OpenOpens(cfg, s', ff, now, completed);
      StoreKeeps(cfg, Open(cfg, s', ff, now), ff, now, completed);
    } else {
      SweptIsSound(cfg, s', now, completed);
    }
  }

  lemma PurgeKeeps(cfg: Config, s: State, now: Time, completed: nat)
    requires Sound(cfg, s, now, completed)
    ensures Sound(cfg, Purge(s), now, completed)
  {
  }

  lemma TickKeeps(cfg: Config, s: State, clock: Time, now: Time, completed: nat)
    requires Sound(cfg, s, clock, completed) && clock <= now
    ensures Sound(cfg, EvictExpired(s, now), now, completed)
  {
    EvictExpiredSweeps(cfg, s, clock, now, completed);
    SweptIsSound(cfg, EvictExpired(s, now), now, completed);
  }

  lemma FragmentShape(cfg: Config, w: World, ff: Fragment, now: Time, r: Result, w': World)
    requires r == Observe(cfg, w.st, ff, now) && w' == AfterFragment(cfg, w, ff, now)
    ensures w'.st == r.st && w'.clock == now && |w'.done| == |w.done| + |AsSeq(r.done)|
  {
  }

  lemma FragmentKeeps(cfg: Config, w: World, ff: Fragment, now: Time)
    requires Inv(cfg, w) && cfg.maxSlots > 0 && w.clock <= now
    ensures Inv(cfg, AfterFragment(cfg, w, ff, now))
  {
    var r := Observe(cfg, w.st, ff, now);
    ObserveKeeps(cfg, w.st, ff, w.clock, now, |w.done|);
    FragmentShape(cfg, w, ff, now, r, AfterFragment(cfg, w, ff, now));
  }

  lemma TickKeepsWorld(cfg: Config, w: World, now: Time)
    requires Inv(cfg, w) && w.clock <= now
    ensures Inv(cfg, AfterTick(w, now))
  {
    TickKeeps(cfg, w.st, w.clock, now, |w.done|);
  }

  lemma PurgeKeepsWorld(cfg: Config, w: World)
    requires Inv(cfg, w)
    ensures Inv(cfg, AfterPurge(w))
  {
    PurgeKeeps(cfg, w.st, w.clock, |w.done|);
  }

  lemma CallKeeps(cfg: Config, w: World, call: Call)
    requires Inv(cfg, w) && cfg.maxSlots > 0
    ensures Inv(cfg, Next(cfg, w, call))
  {
    match call
    case Arrive(ff, dt) => FragmentKeeps(cfg, w, ff, Later(w.clock, dt));
    case TickAfter(dt) => TickKeepsWorld(cfg, w, Later(w.clock, dt));
    case PurgeAll => PurgeKeepsWorld(cfg, w);
  }

  /** After every run: the list, the deadline order, the slot bound, the counts and the books. */
  lemma {:induction false} EveryRunKeeps(cfg: Config, t0: Time, calls: seq<Call>)
    requires cfg.maxSlots > 0
    ensures Inv(cfg, Exec(cfg, Start(t0), calls))
  {
    if calls != [] {
      var n := |calls| - 1;
      EveryRunKeeps(cfg, t0, calls[..n]);
      CallKeeps(cfg, Exec(cfg, Start(t0), calls[..n]), calls[n]);
    }
  }
}
