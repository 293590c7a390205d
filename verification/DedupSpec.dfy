/** The egress duplicate detector as a value: a map of expiries plus a ring of the inserted keys. */
module DedupSpec {
  import opened Common

  datatype Key = Key(groupIdx: uint32, subtreeID: Id32, seqNum: uint64)

  /** The set's fields; `ring` has one place per key the set can remember. */
  datatype State = State(entries: map<Key, Time>, ring: seq<Key>, head: nat, count: nat)

  datatype Answer = Answer(seen: bool, st: State)

  function Expiry(ttl: Time, now: Time): Time { if ttl > 0 then now + ttl else now }

  /** A remembered key whose expiry has not passed. */
  predicate Fresh(s: State, ttl: Time, key: Key, now: Time) {
    key in s.entries && (ttl <= 0 || s.entries[key] >= now)
  }

  function Advance(head: nat, capacity: nat): nat { if head + 1 == capacity then 0 else head + 1 }

  function Insert(s: State, ttl: Time, key: Key, now: Time): State
    requires s.head < |s.ring|
  {
    var full := s.count == |s.ring|;
    State((if full then s.entries - {s.ring[s.head]} else s.entries)[key := Expiry(ttl, now)],
          s.ring[s.head := key], Advance(s.head, |s.ring|), if full then s.count else s.count + 1)
  }

  function SeenAndAdd(s: State, ttl: Time, key: Key, now: Time): Answer {
    if s.head >= |s.ring| then Answer(false, s)
    else if Fresh(s, ttl, key, now) then Answer(true, s.(entries := s.entries[key := Expiry(ttl, now)]))
    else Answer(false, Insert(s, ttl, key, now))
  }
}
