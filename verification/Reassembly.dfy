/** The reassembly buffer itself: in-place order list, eviction loops and completion, tied to the value-level steps. */
module ReassemblyClass {
  import opened Common
  import opened ReassemblySpec

  lemma LiveSnoc(order: seq<Id32>, i: nat, slots: map<Id32, Slot>)
    requires i < |order|
    ensures Live(order[..i + 1], slots) == Live(order[..i], slots) + if order[i] in slots then [order[i]] else []
  {
    assert order[..i + 1][..i] == order[..i];
  }

  class Buffer {
    const cfg: Config
    var slots: map<Id32, Slot>
    /** The order list is order[..orderLen]; the rest of the array is spare capacity. */
    var order: array<Id32>
    var orderLen: nat
    var started: nat
    var abandoned: nat
    var delivered: nat
    var discarded: nat
    var mismatched: nat

    ghost predicate Valid()
      reads this
    {
      orderLen <= order.Length
    }

    ghost function View(): State
      reads this, order
      requires Valid()
    {
      State(slots, order[..orderLen], started, abandoned, delivered, discarded, mismatched)
    }

    constructor (maxSlots: int, ttl: Time, verifyHash: bool, onComplete: bool, onCompleteBlock: bool,
                 onCompleteSubtree: bool, sha256d: seq<byte> -> Id32)
      ensures Valid() && fresh(order) && View() == EMPTY
      ensures cfg.maxSlots == (if maxSlots <= 0 then DEFAULT_MAX_SLOTS else maxSlots) && cfg.maxSlots > 0
      ensures cfg.ttl == (if ttl <= 0 then DEFAULT_TTL else ttl) && cfg.ttl > 0
      ensures cfg == Config(cfg.maxSlots, cfg.ttl, verifyHash, onComplete, onCompleteBlock, onCompleteSubtree, sha256d)
    {
      cfg := Config(if maxSlots <= 0 then DEFAULT_MAX_SLOTS else maxSlots, if ttl <= 0 then DEFAULT_TTL else ttl,
                    verifyHash, onComplete, onCompleteBlock, onCompleteSubtree, sha256d);
      slots := map[];
      order := new Id32[0];
      orderLen, started, abandoned, delivered, discarded, mismatched := 0, 0, 0, 0, 0, 0;
    }

    /** First half of the eviction: drop the expired slots, one id at a time. */
    method DropExpired(now: Time)
      requires Valid()
      modifies this`slots, this`abandoned
      ensures var expired := Expired(old(slots), order[..orderLen], now);
        slots == old(slots) - expired && abandoned == old(abandoned) + |expired|
    {
      var i := 0;
      assert Expired(slots, order[..0], now) == {};
      assert slots - {} == slots;
      while i < orderLen
        invariant 0 <= i <= orderLen
        invariant slots == old(slots) - Expired(old(slots), order[..i], now)
        invariant abandoned == old(abandoned) + |Expired(old(slots), order[..i], now)|
      {
        var txID := order[i];
        ExpiredStep(old(slots), order[..i], txID, now);
        assert order[..i + 1] == order[..i] + [txID];
        if txID in slots && now > slots[txID].deadline {
          abandoned := abandoned + 1;
          slots := slots - {txID};
        }
        i := i + 1;
      }
    }

    /** Second half: compact the order list in place, writing behind the reading position. */
    method Compact()
      requires Valid()
      modifies this`orderLen, order
      ensures Valid() && order[..orderLen] == Live(old(order[..orderLen]), slots)
    {
      var live, i := 0, 0;
      ghost var was := order[..orderLen];
      while i < orderLen
        invariant 0 <= live <= i <= orderLen == old(orderLen) == |was| <= order.Length
        invariant order[..live] == Live(was[..i], slots)
        invariant forall k :: i <= k < orderLen ==> order[k] == was[k]
      {
        ghost var kept := order[..live];
        var txID := order[i];
        LiveSnoc(was, i, slots);
        if txID in slots {
          order[live] := txID;
          assert order[..live + 1] == kept + [txID];
          live := live + 1;
        }
        i := i + 1;
      }
      assert was[..i] == was;
      orderLen := live;
    }

    method EvictExpired(now: Time)
      requires Valid()
      modifies this`slots, this`abandoned, this`orderLen, order
      ensures Valid() && View() == ReassemblySpec.EvictExpired(old(View()), now)
    {
      DropExpired(now);
      Compact();
    }

    /** Removes the element at i by shifting the tail left. */
    method RemoveAt(i: nat)
      requires Valid() && i < orderLen
      modifies this`orderLen, order
      ensures Valid() && order[..orderLen] == old(order[..i]) + old(order[i + 1..orderLen])
    {
      var j := i;
      ghost var was := order[..orderLen];
      while j < orderLen - 1
        invariant i <= j <= orderLen - 1 && orderLen == old(orderLen)
        invariant order[..i] == was[..i]
        invariant forall k :: i <= k < j ==> order[k] == was[k + 1]
        invariant forall k :: j <= k < orderLen ==> order[k] == was[k]
      {
        order[j] := order[j + 1];
        j := j + 1;
      }
      orderLen := orderLen - 1;
    }

    method FindLive() returns (i: nat)
      requires Valid()
      ensures i == FirstLive(order[..orderLen], slots)
    {
      i := 0;
      while i < orderLen && order[i] !in slots
        invariant 0 <= i <= orderLen
        invariant forall j :: 0 <= j < i ==> order[j] !in slots
      {
        i := i + 1;
      }
      FirstLiveUnique(order[..orderLen], slots, i);
    }

    method EvictOldest()
      requires Valid()
      modifies this`slots, this`abandoned, this`orderLen, order
      ensures Valid() && View() == ReassemblySpec.EvictOldest(old(View()))
    {
      var i := FindLive();
      if i < orderLen {
        DropAt(i);
      }
    }

    method DropAt(i: nat)
      requires Valid() && i < orderLen
      modifies this`slots, this`abandoned, this`orderLen, order
      ensures Valid() && View() == ReassemblySpec.DropAt(old(View()), i)
    {
      abandoned := abandoned + 1;
      slots := slots - {order[i]};
      RemoveAt(i);
    }

    /** append: grows into a larger array when the capacity is used up. */
    method Append(txID: Id32)
      requires Valid()
      modifies this`order, this`orderLen, order
      ensures Valid() && order[..orderLen] == old(order[..orderLen]) + [txID]
      ensures order == old(order) || fresh(order)
    {
      if orderLen == order.Length {
        var bigger := new Id32[2 * orderLen + 1](_ => txID);
        var i := 0;
        while i < orderLen
          invariant 0 <= i <= orderLen == old(orderLen) < bigger.Length
          invariant order == old(order) && orderLen <= order.Length && order[..] == old(order[..])
          invariant bigger[..i] == order[..i]
        {
          bigger[i] := order[i];
          i := i + 1;
        }
        order := bigger;
      }
      order[orderLen] := txID;
      orderLen := orderLen + 1;
    }

    method Open(ff: Fragment, now: Time)
      requires Valid()
      modifies this, order
      ensures Valid() && (order == old(order) || fresh(order))
      ensures View() == ReassemblySpec.Open(cfg, old(View()), ff, now)
    {
      if |slots| >= cfg.maxSlots {
        EvictOldest();
      }
      slots := slots[ff.txID := NewSlot(cfg, ff, now)];
      Append(ff.txID);
      started := started + 1;
    }

    /** The concatenation loop. */
    static method Assemble(frags: seq<Option<seq<byte>>>) returns (payload: seq<byte>)
      ensures payload == Payload(frags)
    {
      payload := [];
      var i := 0;
      while i < |frags|
        invariant 0 <= i <= |frags|
        invariant payload == Payload(frags[..i])
      {
        assert frags[..i + 1][..i] == frags[..i];
        match frags[i] {
          case Some(d) => payload := payload + d;
          case None =>
        }
        i := i + 1;
      }
      assert frags[..i] == frags;
    }

    method Complete(s: Slot) returns (c: Completion)
      requires Valid()
      modifies this`slots, this`delivered, this`discarded, this`mismatched
      ensures Valid() && c == ReassemblySpec.Complete(cfg, s) && View() == Book(old(View()), c)
    {
      var payload := Assemble(s.frags);
      var verdict := Judge(cfg, s, payload);
      slots := slots - {s.txID};
      match verdict {
        case Delivered => delivered := delivered + 1;
        case Discarded => discarded := discarded + 1;
        case HashMismatch => mismatched := mismatched + 1;
      }
      c := Completion(s, payload, verdict);
    }

    method Store(ff: Fragment) returns (done: Option<Completion>)
      requires Valid() && ff.txID in slots
      modifies this`slots, this`delivered, this`discarded, this`mismatched
      ensures Valid() && Result(View(), done) == ReassemblySpec.Store(cfg, old(View()), ff)
    {
      var s := slots[ff.txID];
      if ff.fragTotal != s.fragTotal || ff.fragIndex >= s.fragTotal { return None; }
      if ff.fragIndex >= |s.frags| || s.frags[ff.fragIndex].Some? { return None; }
      s := s.(frags := s.frags[ff.fragIndex := Some(ff.fragData)], received := s.received + 1);
      if s.received < s.fragTotal {
        slots := slots[ff.txID := s];
        return None;
      }
      var c := Complete(s);
      return Some(c);
    }

    /** Returns what the completion callback is given, if this fragment completed its slot. */
    method Observe(ff: Fragment, now: Time) returns (done: Option<Completion>)
      requires Valid()
      modifies this, order
      ensures Valid() && (order == old(order) || fresh(order))
      ensures Result(View(), done) == ReassemblySpec.Observe(cfg, old(View()), ff, now)
    {
      EvictExpired(now);
      if ff.txID !in slots {
        if ff.fragTotal == 0 || ff.fragIndex >= ff.fragTotal { return None; }
        if ff.origPayloadLen == 0 || ff.fragTotal > Inc32(ff.origPayloadLen) { return None; }
        Open(ff, now);
      }
      done := Store(ff);
    }

    method Tick(now: Time)
      requires Valid()
      modifies this`slots, this`abandoned, this`orderLen, order
      ensures Valid() && View() == ReassemblySpec.EvictExpired(old(View()), now)
    {
      EvictExpired(now);
    }

    method Purge()
      requires Valid()
      modifies this`slots, this`abandoned, this`orderLen
      ensures Valid() && View() == ReassemblySpec.Purge(old(View()))
    {
      var todo := slots.Keys;
      while todo != {}
        invariant todo == slots.Keys
        invariant abandoned + |slots| == old(abandoned) + |old(slots)|
      {
        var txID :| txID in todo;
        abandoned := abandoned + 1;
        assert (slots - {txID}).Keys == todo - {txID};
        slots := slots - {txID};
        todo := todo - {txID};
      }
      orderLen := 0;
    }

    method Len() returns (n: nat)
      ensures n == |slots|
    {
      n := |slots|;
    }
  }

  lemma ExpiredStep(slots: map<Id32, Slot>, order: seq<Id32>, id: Id32, now: Time)
    ensures var before, after := Expired(slots, order, now), Expired(slots, order + [id], now);
      if id in slots && now > slots[id].deadline && id !in before
      then after == before + {id} && |after| == |before| + 1 && slots - after == (slots - before) - {id}
      else after == before
  {
    var before, after := Expired(slots, order, now), Expired(slots, order + [id], now);
    if id in slots && now > slots[id].deadline && id !in before {
      assert after == before + {id};
    } else {
      assert after == before;
    }
  }

  lemma FirstLiveUnique(order: seq<Id32>, slots: map<Id32, Slot>, i: nat)
    requires i <= |order|
    requires forall j :: 0 <= j < i ==> order[j] !in slots
    requires i < |order| ==> order[i] in slots
    ensures FirstLive(order, slots) == i
  {
  }
}
