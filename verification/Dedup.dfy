/** The egress duplicate detector itself. */
module DedupClass {
  import opened Common
  import opened DedupSpec

  function ZeroKey(): Key { Key(0, seq(32, _ => 0), 0) }

  class Set {
    const capacity: nat
    const ttl: Time
    var entries: map<Key, Time>
    const ring: array<Key>
    var head: nat
    var count: nat

    ghost predicate Valid()
      reads this
    {
      && ring.Length == capacity && count <= capacity
      && (capacity > 0 ==> head < capacity) && (capacity == 0 ==> head == 0)
    }

    ghost function View(): State
      reads this, ring
    {
      State(entries, ring[..], head, count)
    }

    /** A capacity of zero or less disables the set. */
    constructor (capacity: int, ttl: Time)
      ensures Valid() && fresh(ring)
      ensures this.capacity == (if capacity <= 0 then 0 else capacity) && (capacity > 0 ==> this.ttl == ttl)
      ensures entries == map[] && head == 0 && count == 0
    {
      this.capacity := if capacity <= 0 then 0 else capacity;
      this.ttl := if capacity <= 0 then 0 else ttl;
      entries, head, count := map[], 0, 0;
      ring := new Key[if capacity <= 0 then 0 else capacity](_ => ZeroKey());
    }

    method SeenAndAdd(key: Key, now: Time) returns (seen: bool)
      requires Valid()
      modifies this, ring
      ensures Valid() && Answer(seen, View()) == DedupSpec.SeenAndAdd(old(View()), ttl, key, now)
    {
      if capacity == 0 { return false; }
      var expiry := now;
      if ttl > 0 { expiry := now + ttl; }
      if key in entries {
        if ttl <= 0 || entries[key] >= now {
          entries := entries[key := expiry];
          return true;
        }
      }
      if count == capacity {
        var oldest := ring[head];
        entries := entries - {oldest};
      } else {
        count := count + 1;
      }
      ring[head] := key;
      head := (head + 1) % capacity;
      assert head == Advance(old(head), capacity) by { NextHead(old(head), capacity); }
      entries := entries[key := expiry];
      return false;
    }

    method Len() returns (n: nat)
      ensures n == count
    {
      n := count;
    }
  }

  lemma NextHead(head: nat, capacity: nat)
    requires head < capacity
    ensures (head + 1) % capacity == Advance(head, capacity)
  {
    if head + 1 == capacity {
      assert capacity % capacity == 0;
    }
  }
}
