/** The endpoint registry itself: entries updated in place, a dirty flag and a cached, deep-copied snapshot. */
module RegistryClass {
  import opened Common
  import opened Endpoints
  import opened AdvertWire
  import opened RegistrySpec

  class EndpointEntry {
    var addr: Address
    var tier: byte
    var preference: byte
    var flags: uint16
    var expires: Time
    const instanceID: uint32
    var supportsUnicast: bool

    function Info(): Endpoint
      reads this
    {
      Endpoint(addr, tier, preference, flags, expires, instanceID, supportsUnicast)
    }

    constructor (e: Endpoint)
      ensures Info() == e
    {
      addr, tier, preference, flags := e.addr, e.tier, e.preference, e.flags;
      expires, instanceID, supportsUnicast := e.expires, e.instanceID, e.supportsUnicast;
    }
  }

  ghost function Infos(s: seq<EndpointEntry>): (r: seq<Endpoint>)
    reads s
    ensures |r| == |s| && forall i :: 0 <= i < |s| ==> r[i] == s[i].Info()
  {
    seq(|s|, i requires 0 <= i < |s| reads s => s[i].Info())
  }

  /** Fresh objects with the given contents. */
  method Copies(infos: seq<Endpoint>) returns (r: seq<EndpointEntry>)
    ensures |r| == |infos| && fresh(r)
    ensures forall i :: 0 <= i < |r| ==> r[i].Info() == infos[i]
  {
    r := [];
    var i := 0;
    while i < |infos|
      invariant 0 <= i <= |infos| && |r| == i && fresh(r)
      invariant forall k :: 0 <= k < i ==> r[k].Info() == infos[k]
    {
      var e := new EndpointEntry(infos[i]);
      r := r + [e];
      i := i + 1;
    }
  }

  /** Places an element into a sorted sequence. */
  method InsertSorted(s: seq<Endpoint>, e: Endpoint) returns (r: seq<Endpoint>)
    requires Sorted(s)
    ensures Sorted(r) && multiset(r) == multiset(s) + multiset{e}
  {
    var i := |s|;
    while i > 0 && Less(e, s[i - 1])
      invariant 0 <= i <= |s|
      invariant forall k :: i <= k < |s| ==> Less(e, s[k])
    {
      i := i - 1;
    }
    r := s[..i] + [e] + s[i..];
    assert s == s[..i] + s[i..];
    SortedInsert(s, e, i);
  }

  lemma SortedInsert(s: seq<Endpoint>, e: Endpoint, i: nat)
    requires Sorted(s) && i <= |s|
    requires i > 0 ==> !Less(e, s[i - 1])
    requires forall k :: i <= k < |s| ==> Less(e, s[k])
    ensures Sorted(s[..i] + [e] + s[i..])
  {
    forall k | 0 <= k < i ensures !Less(e, s[k]) {
      if k < i - 1 { assert !Less(s[i - 1], s[k]); }
    }
  }

  method Sort(s: seq<Endpoint>) returns (r: seq<Endpoint>)
    ensures Sorted(r) && multiset(r) == multiset(s)
  {
    r := [];
    var i := 0;
    while i < |s|
      invariant 0 <= i <= |s|
      invariant Sorted(r) && multiset(r) == multiset(s[..i])
    {
      assert s[..i + 1] == s[..i] + [s[i]];
      r := InsertSorted(r, s[i]);
      i := i + 1;
    }
    assert s[..i] == s;
  }

  ghost function EntryInfos(entries: map<uint32, EndpointEntry>): (r: map<uint32, Endpoint>)
    reads entries.Values
    ensures r.Keys == entries.Keys && forall id :: id in entries ==> r[id] == entries[id].Info()
  {
    map id | id in entries :: entries[id].Info()
  }

  twostate lemma SameEntries(entries: map<uint32, EndpointEntry>)
    requires forall id :: id in entries ==> unchanged(entries[id])
    ensures EntryInfos(entries) == old(EntryInfos(entries))
  {
    assert forall id :: id in entries ==> entries[id].Info() == old(entries[id].Info());
  }

  twostate lemma SameList(list: seq<EndpointEntry>)
    requires forall i :: 0 <= i < |list| ==> unchanged(list[i])
    ensures Infos(list) == old(Infos(list))
  {
    assert forall i :: 0 <= i < |list| ==> list[i].Info() == old(list[i].Info());
  }

  lemma InsertedInfos(before: map<uint32, EndpointEntry>, id: uint32, entry: EndpointEntry)
    ensures EntryInfos(before[id := entry]) == EntryInfos(before)[id := entry.Info()]
  {
  }

  lemma EvictedInfos(before: map<uint32, EndpointEntry>, after: map<uint32, EndpointEntry>, v: State, now: Time)
    requires v.entries == EntryInfos(before) && after.Keys <= before.Keys
    requires forall id :: id in after ==> after[id] == before[id]
    requires forall id :: id in before ==> (id in after <==> now <= before[id].expires)
    ensures EntryInfos(after) == RegistrySpec.Evict(v, now).entries
  {
  }

  class Registry {
    var entries: map<uint32, EndpointEntry>
    var seeds: seq<EndpointEntry>
    /** The cache; `cached` is false until the first snapshot is built. */
    var snapshot: seq<EndpointEntry>
    var cached: bool
    var dirty: bool

    /** Entries under their own ids, sharing no object with the seeds or the cache. */
    ghost predicate Separate()
      reads this`entries, this`seeds, this`snapshot
    {
      && (forall id :: id in entries ==> entries[id].instanceID == id)
      && (forall id :: id in entries ==> entries[id] !in seeds && entries[id] !in snapshot)
    }

    /** A clean cache is a snapshot of the current state. */
    ghost predicate Valid()
      reads this, entries.Values, seeds, snapshot
    {
      Separate() && (cached && !dirty ==> IsSnapshot(View(), Infos(snapshot)))
    }

    ghost function View(): State
      reads this`entries, this`seeds, entries.Values, seeds
    {
      State(EntryInfos(entries), Infos(seeds))
    }

    /** Every object the registry holds. */
    ghost function Repr(): set<EndpointEntry>
      reads this`entries, this`seeds, this`snapshot
    {
      entries.Values + (set e | e in seeds) + (set e | e in snapshot)
    }

    constructor ()
      ensures Valid() && View() == State(map[], []) && entries == map[] && seeds == [] && snapshot == []
    {
      entries, seeds, snapshot, cached, dirty := map[], [], [], false, false;
    }

    /** Refreshes a known endpoint in place, or adds a new one. */
    method Upsert(a: Advert, now: Time)
      requires Valid()
      modifies this, entries.Values
      ensures Valid() && View() == RegistrySpec.Upsert(old(View()), a, now)
      ensures seeds == old(seeds) && snapshot == old(snapshot) && fresh(Repr() - old(Repr()))
    {
      dirty := true;
      if a.instanceID in entries {
        RefreshKnown(a, now);
      } else {
        AddNew(a, now);
      }
    }

    method RefreshKnown(a: Advert, now: Time)
      requires Separate() && a.instanceID in entries
      modifies entries[a.instanceID]
      ensures Separate() && View() == RegistrySpec.Upsert(old(View()), a, now)
    {
      Refresh(entries[a.instanceID], a, now);
      SameList(seeds);
      forall id | id in entries && id != a.instanceID ensures entries[id].Info() == old(entries[id].Info()) {
        assert entries[id] != entries[a.instanceID];
      }
      assert EntryInfos(entries) == old(EntryInfos(entries))[a.instanceID := FromAdvert(a, now)];
    }

    method AddNew(a: Advert, now: Time)
      requires Separate() && a.instanceID !in entries
      modifies this`entries
      ensures Separate() && View() == RegistrySpec.Upsert(old(View()), a, now)
      ensures fresh(entries.Values - old(entries.Values))
    {
      ghost var v := View();
      var entry := new EndpointEntry(FromAdvert(a, now));
      SameEntries(entries);
      SameList(seeds);
      Insert(entry, v);
    }

    /** Puts an object of the caller's making under its id. */
    method Insert(entry: EndpointEntry, ghost v: State)
      requires Separate() && View() == v && entry.instanceID !in entries && entry !in seeds && entry !in snapshot
      modifies this`entries
      ensures Separate() && entries.Values <= old(entries.Values) + {entry}
      ensures View() == v.(entries := v.entries[entry.instanceID := entry.Info()])
    {
      ghost var before := entries;
      entries := entries[entry.instanceID := entry];
      InsertedInfos(before, entry.instanceID, entry);
    }

    static method Refresh(entry: EndpointEntry, a: Advert, now: Time)
      requires entry.instanceID == a.instanceID
      modifies entry
      ensures entry.Info() == FromAdvert(a, now)
    {
      entry.addr := Advertised(a.nackAddr, a.nackPort);
      entry.tier := a.tier;
      entry.preference := a.preference;
      entry.flags := a.flags;
      entry.expires := now + a.beaconInterval * 3 * SECOND;
      entry.supportsUnicast := HasFlag(a.flags, FLAG_UNICAST_RETRANSMIT);
    }

    method Evict(now: Time)
      requires Valid()
      modifies this`entries, this`dirty
      ensures Valid() && View() == RegistrySpec.Evict(old(View()), now) && Repr() <= old(Repr())
    {
      ghost var before, v := entries, View();
      DropExpired(now);
      SameEntries(before);
      SameList(seeds);
      SameList(snapshot);
      EvictedInfos(before, entries, v, now);
    }

    /** The eviction loop, in an order the runtime picks. */
    method DropExpired(now: Time)
      requires Separate()
      modifies this`entries, this`dirty
      ensures Separate() && entries.Keys <= old(entries).Keys
      ensures forall id :: id in entries ==> entries[id] == old(entries)[id]
      ensures forall id :: id in old(entries) ==> (id in entries <==> now <= old(entries)[id].expires)
      ensures dirty || (entries == old(entries) && dirty == old(dirty))
    {
      var todo := entries.Keys;
      while todo != {}
        invariant todo <= entries.Keys <= old(entries).Keys
        invariant forall id :: id in entries ==> entries[id] == old(entries)[id]
        invariant forall id :: id in old(entries) && id !in todo ==>
          (id in entries <==> now <= old(entries)[id].expires)
        invariant dirty || (entries == old(entries) && dirty == old(dirty))
      {
        var id :| id in todo;
        if now > entries[id].expires {
          entries := entries - {id};
          dirty := true;
        }
        todo := todo - {id};
      }
    }

    method Seed(addrs: seq<string>)
      requires Valid()
      modifies this`seeds, this`dirty
      ensures Valid() && View() == RegistrySpec.Seed(old(View()), addrs) && fresh(Repr() - old(Repr()))
    {
      var list := SeedList(addrs);
      var copies := Copies(list);
      assert Infos(copies) == list;
      SameEntries(entries);
      Plant(copies, EntryInfos(entries), list);
    }

    /** Makes fresh copies the seeds. */
    method Plant(copies: seq<EndpointEntry>, ghost v: map<uint32, Endpoint>, ghost list: seq<Endpoint>)
      requires Separate() && EntryInfos(entries) == v && Infos(copies) == list
      requires forall id :: id in entries ==> entries[id] !in copies
      modifies this`seeds, this`dirty
      ensures Valid() && seeds == copies && View() == State(v, list)
    {
      seeds := copies;
      dirty := true;
      assert Infos(seeds) == list;
    }

    static method SeedList(addrs: seq<string>) returns (list: seq<Endpoint>)
      ensures list == seq(|addrs|, i requires 0 <= i < |addrs| => SeedEntry(addrs[i], i))
    {
      list := [];
      var i := 0;
      while i < |addrs|
        invariant 0 <= i <= |addrs| && |list| == i
        invariant forall k :: 0 <= k < i ==> list[k] == SeedEntry(addrs[k], k)
      {
        list := list + [SeedEntry(addrs[i], i)];
        i := i + 1;
      }
    }

    /** The beacon entries, in an order the runtime picks. */
    method MergeEntries() returns (merged: seq<Endpoint>)
      requires Separate()
      ensures multiset(merged) == multiset(EntryInfos(entries).Values)
    {
      merged := [];
      ghost var view := EntryInfos(entries);
      var todo := entries.Keys;
      ghost var done: set<Endpoint> := {};
      while todo != {}
        invariant todo <= entries.Keys
        invariant forall e :: e in done <==> e.instanceID in view && e.instanceID !in todo && view[e.instanceID] == e
        invariant multiset(merged) == multiset(done)
      {
        var id :| id in todo;
        merged := merged + [entries[id].Info()];
        done := done + {view[id]};
        todo := todo - {id};
      }
      assert done == view.Values;
    }

    /** The beacon entries, or the seeds when there are none. */
    method Merge() returns (merged: seq<Endpoint>)
      requires Separate()
      ensures multiset(merged) == Active(View())
    {
      merged := MergeEntries();
      if |entries| == 0 {
        merged := Values(seeds);
        assert View().entries == map[];
      } else {
        assert View().entries.Keys != {};
      }
    }

    /** A fresh deep copy of a sorted arrangement of the active endpoints; the registry's contents are unchanged. */
    method Snapshot() returns (r: seq<EndpointEntry>)
      requires Valid()
      modifies this`snapshot, this`cached, this`dirty
      ensures Valid() && View() == old(View()) && fresh(Repr() - old(Repr()))
      ensures fresh(r) && IsSnapshot(View(), Infos(r)) && forall e :: e in r ==> e !in Repr()
    {
      ghost var v := View();
      if dirty || !cached {
        Rebuild();
      }
      assert Valid() && View() == v;
      r := CopyCache();
      assert View() == v;
    }

    /** A fresh copy of a clean cache. */
    method CopyCache() returns (r: seq<EndpointEntry>)
      requires Valid() && cached && !dirty
      ensures fresh(r) && Valid() && View() == old(View()) && IsSnapshot(View(), Infos(r))
      ensures forall e :: e in r ==> e !in Repr()
    {
      var values := Values(snapshot);
      r := Copies(values);
      assert Infos(r) == values;
      SameEntries(entries);
      SameList(seeds);
      SameList(snapshot);
      assert View() == old(View());
    }

    method Arrange() returns (sorted: seq<Endpoint>)
      requires Separate()
      ensures IsSnapshot(View(), sorted)
    {
      var merged := Merge();
      sorted := Sort(merged);
    }

    method Rebuild()
      requires Separate()
      modifies this`snapshot, this`cached, this`dirty
      ensures Valid() && View() == old(View()) && cached && !dirty && fresh(snapshot)
    {
      var sorted := Arrange();
      ghost var v := View();
      label copying:
      var copies := Copies(sorted);
      assert Infos(copies) == sorted;
      SameEntries@copying(entries);
      SameList@copying(seeds);
      Install(copies, v, sorted);
    }

    /** Puts fresh copies into the cache. */
    method Install(copies: seq<EndpointEntry>, ghost v: State, ghost sorted: seq<Endpoint>)
      requires Separate() && View() == v && Infos(copies) == sorted && IsSnapshot(v, sorted)
      requires forall id :: id in entries ==> entries[id] !in copies
      modifies this`snapshot, this`cached, this`dirty
      ensures Valid() && View() == v && cached && !dirty && snapshot == copies
    {
      snapshot := copies;
      cached, dirty := true, false;
      assert View() == v;
      assert Infos(snapshot) == sorted;
    }

    method Len() returns (n: nat)
      ensures n == RegistrySpec.Len(View())
    {
      assert View().entries.Keys == entries.Keys;
      n := |entries| + |seeds|;
    }
  }

  method Values(s: seq<EndpointEntry>) returns (r: seq<Endpoint>)
    ensures r == Infos(s)
  {
    r := [];
    var i := 0;
    while i < |s|
      invariant 0 <= i <= |s| && r == Infos(s)[..i]
    {
      r := r + [s[i].Info()];
      i := i + 1;
    }
  }

  /** Whatever a caller writes into the objects it was given, the registry and its cache do not change. */
  method CallerMutation(reg: Registry, r: seq<EndpointEntry>, written: seq<Endpoint>)
    requires reg.Valid() && forall e :: e in r ==> e !in reg.Repr()
    modifies r
    ensures reg.Repr() == old(reg.Repr())
    ensures reg.Valid() && reg.View() == old(reg.View()) && Infos(reg.snapshot) == old(Infos(reg.snapshot))
  {
    var i := 0;
    while i < |r| && i < |written|
      invariant 0 <= i <= |r|
      invariant forall id :: id in reg.entries ==> unchanged(reg.entries[id])
      invariant forall k :: 0 <= k < |reg.seeds| ==> unchanged(reg.seeds[k])
      invariant forall k :: 0 <= k < |reg.snapshot| ==> unchanged(reg.snapshot[k])
    {
      assert r[i] in r;
      assert forall k :: 0 <= k < |reg.seeds| ==> reg.seeds[k] in reg.seeds && reg.seeds[k] != r[i];
      assert forall k :: 0 <= k < |reg.snapshot| ==> reg.snapshot[k] in reg.snapshot && reg.snapshot[k] != r[i];
      Overwrite(r[i], written[i]);
      i := i + 1;
    }
    SameEntries(reg.entries);
    SameList(reg.seeds);
    SameList(reg.snapshot);
  }

  method Overwrite(entry: EndpointEntry, e: Endpoint)
    modifies entry
    ensures entry.Info() == e.(instanceID := entry.instanceID)
  {
    entry.addr, entry.tier, entry.preference, entry.flags := e.addr, e.tier, e.preference, e.flags;
    entry.expires, entry.supportsUnicast := e.expires, e.supportsUnicast;
  }

  /** One call; a snapshot is answered with its contents. */
  method ServeOne(reg: Registry, call: Call) returns (answer: seq<Endpoint>)
    requires reg.Valid()
    modifies reg, reg.Repr()
    ensures reg.Valid() && reg.View() == Next(old(reg.View()), call) && fresh(reg.Repr() - old(reg.Repr()))
    ensures call.SnapshotCall? ==> IsSnapshot(reg.View(), answer)
  {
    answer := [];
    match call {
      case UpsertCall(a, now) => reg.Upsert(a, now);
      case EvictCall(now) => reg.Evict(now);
      case SeedCall(addrs) => reg.Seed(addrs);
      case SnapshotCall =>
        var r := reg.Snapshot();
        answer := Values(r);
    }
  }

  /**
   Any interleaving of calls: every snapshot is one of the state at its point, and
   only fresh objects join the registry.
   */
  method Serve(reg: Registry, calls: seq<Call>) returns (answers: seq<seq<Endpoint>>)
    requires reg.Valid()
    modifies reg, reg.Repr()
    ensures reg.Valid() && reg.View() == Run(old(reg.View()), calls) && fresh(reg.Repr() - old(reg.Repr()))
    ensures AnswersOk(old(reg.View()), calls, answers)
  {
    answers := [];
    ghost var v := reg.View();
    var i := 0;
    while i < |calls|
      invariant 0 <= i <= |calls| && reg.Valid() && fresh(reg.Repr() - old(reg.Repr()))
      invariant reg.View() == Run(v, calls[..i]) && AnswersOk(v, calls[..i], answers)
    {
      answers := ServeNext(reg, calls, i, answers, v);
      i := i + 1;
    }
    assert calls[..i] == calls;
  }

  /** Call number i of a run from v. */
  method ServeNext(reg: Registry, calls: seq<Call>, i: nat, answers: seq<seq<Endpoint>>, ghost v: State)
    returns (answers': seq<seq<Endpoint>>)
    requires reg.Valid() && i < |calls| && reg.View() == Run(v, calls[..i]) && AnswersOk(v, calls[..i], answers)
    modifies reg, reg.Repr()
    ensures reg.Valid() && reg.View() == Run(v, calls[..i + 1]) && AnswersOk(v, calls[..i + 1], answers')
    ensures fresh(reg.Repr() - old(reg.Repr()))
  {
    var answer := ServeOne(reg, calls[i]);
    AnswersSnoc(v, calls, i, answers, answer);
    answers' := if calls[i].SnapshotCall? then answers + [answer] else answers;
  }

  lemma AnswersSnoc(v: State, calls: seq<Call>, i: nat, answers: seq<seq<Endpoint>>, answer: seq<Endpoint>)
    requires i < |calls| && AnswersOk(v, calls[..i], answers)
    requires calls[i].SnapshotCall? ==> IsSnapshot(Run(v, calls[..i]), answer)
    ensures Run(v, calls[..i + 1]) == Next(Run(v, calls[..i]), calls[i])
    ensures AnswersOk(v, calls[..i + 1], if calls[i].SnapshotCall? then answers + [answer] else answers)
  {
    assert calls[..i + 1][..i] == calls[..i];
    assert (answers + [answer])[..|answers|] == answers;
  }

  /** The objects of a snapshot stay the caller's own through any calls. */
  method HoldAcross(reg: Registry, calls: seq<Call>) returns (r: seq<EndpointEntry>, answers: seq<seq<Endpoint>>)
    requires reg.Valid()
    modifies reg, reg.Repr()
    ensures reg.Valid() && reg.View() == Run(old(reg.View()), calls) && fresh(reg.Repr() - old(reg.Repr()))
    ensures AnswersOk(old(reg.View()), calls, answers)
    ensures fresh(r) && forall e :: e in r ==> e !in reg.Repr()
  {
    r := reg.Snapshot();
    answers := Serve(reg, calls);
  }

  /**
   A caller takes a snapshot, lets any calls pass, overwrites the objects it was
   given, and lets any calls pass again: all answers are those of the registry alone.
   */
  method CallerIsolated(reg: Registry, calls: seq<Call>, written: seq<Endpoint>, more: seq<Call>)
    returns (answers: seq<seq<Endpoint>>, later: seq<seq<Endpoint>>)
    requires reg.Valid()
    modifies reg, reg.Repr()
    ensures reg.Valid() && reg.View() == Run(Run(old(reg.View()), calls), more)
    ensures AnswersOk(old(reg.View()), calls, answers)
    ensures AnswersOk(Run(old(reg.View()), calls), more, later)
  {
    var r;
    r, answers := HoldAcross(reg, calls);
    CallerMutation(reg, r, written);
    later := Serve(reg, more);
  }
}
