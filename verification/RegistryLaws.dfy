/** What the registry lists after every run of calls, told in the fields of the beacons it received. */
module RegistryLaws {
  import opened Common
  import opened Endpoints
  import opened AdvertWire
  import opened RegistrySpec

  const EMPTY := State(map[], [])

  /** The last beacon of an instance among the first n calls. */
  ghost predicate IsLastBeacon(calls: seq<Call>, n: nat, id: uint32, k: int) {
    && 0 <= k < n <= |calls| && calls[k].UpsertCall? && calls[k].a.instanceID == id
    && forall j :: k < j < n && calls[j].UpsertCall? ==> calls[j].a.instanceID != id
  }

  /** Three beacon intervals, in nanoseconds. */
  ghost function Until(call: Call): Time
    requires call.UpsertCall?
  {
    call.now + 3 * call.a.beaconInterval * 1_000_000_000
  }

  /** No eviction since has come later than three beacon intervals after it. */
  ghost predicate StillKnown(calls: seq<Call>, n: nat, k: int)
    requires 0 <= k < n <= |calls| && calls[k].UpsertCall?
  {
    forall j :: k < j < n && calls[j].EvictCall? ==> calls[j].now <= Until(calls[k])
  }

  /** The entry carries the beacon's fields; bit 3 of the flags is unicast support. */
  ghost predicate Mirrors(e: Endpoint, call: Call)
    requires call.UpsertCall?
  {
    && e.addr == Advertised(call.a.nackAddr, call.a.nackPort) && e.tier == call.a.tier
    && e.preference == call.a.preference && e.flags == call.a.flags && e.instanceID == call.a.instanceID
    && (e.supportsUnicast <==> (call.a.flags / 8) % 2 == 1) && e.expires == Until(call)
  }

  ghost predicate KnownBy(calls: seq<Call>, n: nat, id: uint32, k: int) {
    IsLastBeacon(calls, n, id, k) && StillKnown(calls, n, k)
  }

  /** The law for one instance after n calls: listed with the fields of its last beacon, or not known. */
  ghost predicate EntryIs(s: State, calls: seq<Call>, n: nat, id: uint32) {
    && (id in s.entries <==> exists k :: KnownBy(calls, n, id, k))
    && forall k :: KnownBy(calls, n, id, k) && id in s.entries ==> Mirrors(s.entries[id], calls[k])
  }

  lemma UpsertFields(s: State, call: Call)
    requires call.UpsertCall?
    ensures var s' := Next(s, call);
      && s'.entries.Keys == s.entries.Keys + {call.a.instanceID} && s'.seeds == s.seeds
      && Mirrors(s'.entries[call.a.instanceID], call)
      && forall id :: id in s.entries && id != call.a.instanceID ==> s'.entries[id] == s.entries[id]
  {
  }

  /** One more call, the m-th: which beacon the instance is known by afterwards. */
  lemma KnownStep(calls: seq<Call>, n: nat, m: nat, id: uint32, k: int)
    requires n + 1 == m <= |calls|
    ensures KnownBy(calls, m, id, k) <==>
      if calls[n].UpsertCall? && calls[n].a.instanceID == id then k == n
      else KnownBy(calls, n, id, k) && (calls[n].EvictCall? ==> calls[n].now <= Until(calls[k]))
  {
    if KnownBy(calls, m, id, k) && !(calls[n].UpsertCall? && calls[n].a.instanceID == id) {
      assert k < n;
    }
  }

  lemma EntryStep(s: State, calls: seq<Call>, n: nat, m: nat, id: uint32)
    requires n + 1 == m <= |calls| && EntryIs(s, calls, n, id)
    ensures EntryIs(Next(s, calls[n]), calls, m, id)
  {
    var s', call := Next(s, calls[n]), calls[n];
    forall k ensures KnownBy(calls, m, id, k) <==>
        if call.UpsertCall? && call.a.instanceID == id then k == n
        else KnownBy(calls, n, id, k) && (call.EvictCall? ==> call.now <= Until(calls[k]))
    {
      KnownStep(calls, n, m, id, k);
    }
    if call.UpsertCall? {
      UpsertFields(s, call);
      if call.a.instanceID == id {
        assert KnownBy(calls, m, id, n);
      } else {
        Carries(s, s', calls, n, m, id);
      }
    } else if call.EvictCall? {
      EvictStep(s, s', calls, n, m, id);
    } else {
      Carries(s, s', calls, n, m, id);
    }
  }

  lemma Carries(s: State, s': State, calls: seq<Call>, n: nat, m: nat, id: uint32)
    requires n + 1 == m <= |calls| && EntryIs(s, calls, n, id)
    requires forall k :: KnownBy(calls, m, id, k) <==> KnownBy(calls, n, id, k)
    requires id in s'.entries <==> id in s.entries
    requires id in s.entries ==> s'.entries[id] == s.entries[id]
    ensures EntryIs(s', calls, m, id)
  {
    if k :| KnownBy(calls, n, id, k) {
      assert KnownBy(calls, m, id, k);
    }
    if k :| KnownBy(calls, m, id, k) {
      assert KnownBy(calls, n, id, k);
    }
    forall k | KnownBy(calls, m, id, k) && id in s'.entries ensures Mirrors(s'.entries[id], calls[k]) {
      assert KnownBy(calls, n, id, k);
    }
  }

  lemma EvictStep(s: State, s': State, calls: seq<Call>, n: nat, m: nat, id: uint32)
    requires n + 1 == m <= |calls| && EntryIs(s, calls, n, id) && calls[n].EvictCall? && s' == Next(s, calls[n])
    requires forall k :: KnownBy(calls, m, id, k) <==> KnownBy(calls, n, id, k) && calls[n].now <= Until(calls[k])
    ensures EntryIs(s', calls, m, id)
  {
    if id in s.entries {
      var k :| KnownBy(calls, n, id, k);
      assert Mirrors(s.entries[id], calls[k]);
      if calls[n].now <= Until(calls[k]) {
        assert KnownBy(calls, m, id, k);
      }
      forall j | KnownBy(calls, n, id, j) ensures j == k {
        OneLastBeacon(calls, n, id, j, k);
      }
    }
  }

  lemma OneLastBeacon(calls: seq<Call>, n: nat, id: uint32, j: int, k: int)
    requires IsLastBeacon(calls, n, id, j) && IsLastBeacon(calls, n, id, k)
    ensures j == k
  {
  }

  /**
   In every run, an instance is listed exactly when no eviction has come later than
   three beacon intervals after its last beacon, and then with that beacon's fields.
   */
  lemma {:induction false} EntriesLaw(calls: seq<Call>, n: nat, id: uint32)
    requires n <= |calls|
    ensures EntryIs(Run(EMPTY, calls[..n]), calls, n, id)
    decreases n
  {
    if n > 0 {
      EntriesLaw(calls, n - 1, id);
      assert calls[..n][..n - 1] == calls[..n - 1];
      EntryStep(Run(EMPTY, calls[..n - 1]), calls, n - 1, n, id);
    }
  }

  /** The last list of seeds. */
  ghost function LastSeeds(calls: seq<Call>): seq<string> {
    if calls == [] then [] else
      var call := calls[|calls| - 1];
      if call.SeedCall? then call.addrs else LastSeeds(calls[..|calls| - 1])
  }

  /** In every run, the seeds are those of the last list: lowest priority, no flags, good until the year 9999. */
  lemma {:induction false} SeedsLaw(calls: seq<Call>, seeds: seq<Endpoint>)
    requires seeds == Run(EMPTY, calls).seeds
    ensures |seeds| == |LastSeeds(calls)|
    ensures forall i :: 0 <= i < |seeds| ==>
      seeds[i] == Endpoint(Configured(LastSeeds(calls)[i]), 255, 0, 0, 253_370_764_800_000_000_000,
                           (0xFFFF_F000 + i) % 0x1_0000_0000, false)
  {
    if calls != [] {
      var n := |calls| - 1;
      SeedsLaw(calls[..n], Run(EMPTY, calls[..n]).seeds);
      if calls[n].SeedCall? {
        forall i | 0 <= i < |seeds| ensures seeds[i] == SeedEntry(calls[n].addrs[i], i) {
        }
      }
    }
  }

  /** The order of a snapshot: tiers ascend, preferences descend within a tier; and what is listed. */
  lemma SnapshotOrder(s: State, snap: seq<Endpoint>, i: nat, j: nat)
    requires IsSnapshot(s, snap) && i < j < |snap|
    ensures snap[i].tier <= snap[j].tier
    ensures snap[i].tier == snap[j].tier ==> snap[i].preference >= snap[j].preference
    ensures multiset(snap) == if s.entries == map[] then multiset(s.seeds) else multiset(s.entries.Values)
  {
    assert !Less(snap[j], snap[i]);
  }
}
