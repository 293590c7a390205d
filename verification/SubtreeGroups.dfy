/** The time-bounded registry of subtree-group memberships (BRC-127). */
module SubtreeGroups {
  import opened Common

  type GroupId = s: seq<byte> | |s| == 16 witness seq(16, _ => 0)

  /** Group to subtree to expiry; the keys are the subscribed groups. */
  type Entries = map<GroupId, map<Id32, Time>>

  function With(subs: map<Id32, Time>, sub: Id32, expiry: Time): map<Id32, Time> { subs[sub := expiry] }

  function Added(e: Entries, defaultTTL: Time, g: GroupId, sub: Id32, ttl: Time, now: Time): Entries {
    if g !in e then e else e[g := With(e[g], sub, now + if ttl <= 0 then defaultTTL else ttl)]
  }

  function Removed(e: Entries, g: GroupId, sub: Id32): Entries {
    if g !in e then e else e[g := e[g] - {sub}]
  }

  /** A live member of some subscribed group. */
  predicate IsMember(e: Entries, sub: Id32, now: Time) {
    exists g :: g in e && sub in e[g] && now < e[g][sub]
  }

  function Unexpired(subs: map<Id32, Time>, now: Time): map<Id32, Time> {
    map sub | sub in subs && now <= subs[sub] :: subs[sub]
  }

  function Evicted(e: Entries, now: Time): Entries { map g | g in e :: Unexpired(e[g], now) }

  /** Every stored (group, subtree) pair. */
  ghost function Members(e: Entries): (r: set<(GroupId, Id32)>)
    ensures forall p :: p in r <==> p.0 in e && p.1 in e[p.0]
  {
    set g, sub | g in e && sub in e[g] :: (g, sub)
  }

  lemma MembersSplit(e: Entries, g: GroupId)
    requires g in e
    ensures |Members(e)| == |Members(e - {g})| + |e[g]|
  {
    var own: set<(GroupId, Id32)> := Pairs(g, e[g].Keys);
    var others := Members(e - {g});
    PairsSize(g, e[g].Keys);
    forall p: (GroupId, Id32) ensures p in Members(e) <==> p in others || p in own {
    }
    DisjointSize(Members(e), others, own);
  }

  /** Changing one group changes the size by that group's change. */
  lemma MembersShift(before: Entries, after: Entries, g: GroupId)
    requires g in before && g in after && before - {g} == after - {g}
    ensures |Members(after)| - |after[g]| == |Members(before)| - |before[g]|
  {
    MembersSplit(before, g);
    MembersSplit(after, g);
  }

  class Registry {
    var entries: Entries
    const subscribedGroups: set<GroupId>
    const defaultTTL: Time

    ghost predicate Valid()
      reads this
    {
      entries.Keys == subscribedGroups
    }

    constructor (groups: seq<GroupId>, defaultTTL: Time)
      ensures Valid() && this.defaultTTL == defaultTTL
      ensures forall g :: g in entries <==> g in groups
      ensures forall g :: g in entries ==> entries[g] == map[]
    {
      var e: Entries := map[];
      var i := 0;
      while i < |groups|
        invariant 0 <= i <= |groups|
        invariant forall g :: g in e <==> g in groups[..i]
        invariant forall g :: g in e ==> e[g] == map[]
      {
        e := e[groups[i] := map[]];
        i := i + 1;
      }
      assert groups[..i] == groups;
      entries, subscribedGroups := e, e.Keys;
      this.defaultTTL := defaultTTL;
    }

    method Add(g: GroupId, sub: Id32, ttl: Time, now: Time)
      requires Valid()
      modifies this`entries
      ensures Valid() && entries == Added(old(entries), defaultTTL, g, sub, ttl, now)
    {
      if g !in subscribedGroups { return; }
      var t := ttl;
      if t <= 0 { t := defaultTTL; }
      entries := entries[g := With(entries[g], sub, now + t)];
    }

    method Remove(g: GroupId, sub: Id32)
      requires Valid()
      modifies this`entries
      ensures Valid() && entries == Removed(old(entries), g, sub)
    {
      if g !in subscribedGroups { return; }
      entries := entries[g := entries[g] - {sub}];
    }

    method Contains(sub: Id32, now: Time) returns (found: bool)
      ensures found <==> IsMember(entries, sub, now)
    {
      var todo := entries.Keys;
      while todo != {}
        invariant todo <= entries.Keys
        invariant forall g :: g in entries && g !in todo ==> !(sub in entries[g] && now < entries[g][sub])
      {
        var g :| g in todo;
        if sub in entries[g] && now < entries[g][sub] { return true; }
        todo := todo - {g};
      }
      return false;
    }

    /** The inner loop: the expired subtrees of one group. */
    method EvictGroup(g: GroupId, now: Time) returns (n: nat)
      requires g in entries
      modifies this`entries
      ensures entries == old(entries)[g := Unexpired(old(entries)[g], now)]
      ensures n + |entries[g]| == |old(entries)[g]|
    {
      n := 0;
      var subs := entries[g];
      var todo := subs.Keys;
      while todo != {}
        invariant todo <= subs.Keys <= old(entries)[g].Keys
        invariant forall sub :: sub in subs ==> subs[sub] == old(entries)[g][sub]
        invariant forall sub :: sub in old(entries)[g] && sub !in todo ==>
          (sub in subs <==> now <= old(entries)[g][sub])
        invariant n + |subs| == |old(entries)[g]|
      {
        var sub :| sub in todo;
        if now > subs[sub] {
          assert (subs - {sub}).Keys == subs.Keys - {sub};
          subs := subs - {sub};
          n := n + 1;
        }
        todo := todo - {sub};
      }
      assert subs == Unexpired(old(entries)[g], now);
      entries := entries[g := subs];
    }

    /** Returns by how much Len drops. */
    method Evict(now: Time) returns (n: nat)
      requires Valid()
      modifies this`entries
      ensures Valid() && entries == Evicted(old(entries), now)
      ensures n + |Members(entries)| == |Members(old(entries))|
    {
      n := 0;
      var todo := entries.Keys;
      while todo != {}
        invariant todo <= entries.Keys == old(entries).Keys
        invariant forall g :: g in todo ==> entries[g] == old(entries)[g]
        invariant forall g :: g in entries && g !in todo ==> entries[g] == Unexpired(old(entries)[g], now)
        invariant n + |Members(entries)| == |Members(old(entries))|
      {
        var g :| g in todo;
        ghost var before := entries;
        var k := EvictGroup(g, now);
        MembersShift(before, entries, g);
        n := n + k;
        todo := todo - {g};
      }
      assert entries == Evicted(old(entries), now);
    }

    method Len() returns (n: nat)
      ensures n == |Members(entries)|
    {
      n := 0;
      var todo := entries.Keys;
      ghost var done: Entries := map[];
      assert Members(done) == {};
      while todo != {}
        invariant todo <= entries.Keys
        invariant done == map g | g in entries && g !in todo :: entries[g]
        invariant n == |Members(done)|
      {
        var g :| g in todo;
        n := n + |entries[g]|;
        todo := todo - {g};
        ghost var next := done[g := entries[g]];
        assert next - {g} == done;
        MembersSplit(next, g);
        done := next;
      }
      assert done == entries;
    }
  }
}
