/** The endpoint registry as a value, and what a snapshot of it is. */
module RegistrySpec {
  import opened Common
  import opened Endpoints
  import opened AdvertWire

  const FLAG_UNICAST_RETRANSMIT: uint16 := 0x0008
  const SEED_TIER: byte := 0xFF
  const SEED_FIRST_ID: nat := 0xFFFF_F000
  /** The first instant of the year 9999, in nanoseconds since 1970: seeds never expire. */
  const NEVER: Time := 253_370_764_800 * SECOND

  datatype State = State(entries: map<uint32, Endpoint>, seeds: seq<Endpoint>)

  /** Is the flag bit (a power of two) set? */
  predicate HasFlag(flags: uint16, bit: uint16)
    requires bit > 0
  {
    (flags / bit) % 2 == 1
  }

  function FromAdvert(a: Advert, now: Time): Endpoint {
    Endpoint(Advertised(a.nackAddr, a.nackPort), a.tier, a.preference, a.flags,
             now + a.beaconInterval * 3 * SECOND, a.instanceID, HasFlag(a.flags, FLAG_UNICAST_RETRANSMIT))
  }

  function Upsert(s: State, a: Advert, now: Time): State {
    s.(entries := s.entries[a.instanceID := FromAdvert(a, now)])
  }

  function Evict(s: State, now: Time): State {
    s.(entries := map id | id in s.entries && now <= s.entries[id].expires :: s.entries[id])
  }

  /** Synthetic ids wrap like a uint32. */
  function SeedEntry(addr: string, i: nat): Endpoint {
    Endpoint(Configured(addr), SEED_TIER, 0, 0, NEVER, (SEED_FIRST_ID + i) % TWO32, false)
  }

  function Seed(s: State, addrs: seq<string>): State {
    s.(seeds := seq(|addrs|, i requires 0 <= i < |addrs| => SeedEntry(addrs[i], i)))
  }

  /** Every beacon entry sits under its own instance id. */
  ghost predicate Own(entries: map<uint32, Endpoint>) { forall id :: id in entries ==> entries[id].instanceID == id }

  ghost predicate Keyed(s: State) { Own(s.entries) }

  /** The endpoints a snapshot must list: the beacon entries, or the seeds when there are none. */
  ghost function Active(s: State): multiset<Endpoint> {
    if s.entries == map[] then multiset(s.seeds) else multiset(s.entries.Values)
  }

  /** A sorted arrangement of exactly the active endpoints. */
  ghost predicate IsSnapshot(s: State, snap: seq<Endpoint>) {
    Sorted(snap) && multiset(snap) == Active(s)
  }

  // --------------------------------------------------------------- Runs

  datatype Call = UpsertCall(a: Advert, now: Time) | EvictCall(now: Time) | SeedCall(addrs: seq<string>) | SnapshotCall

  function Next(s: State, call: Call): State {
    match call
    case UpsertCall(a, now) => Upsert(s, a, now)
    case EvictCall(now) => Evict(s, now)
    case SeedCall(addrs) => Seed(s, addrs)
    case SnapshotCall => s
  }

  function Run(s: State, calls: seq<Call>): State {
    if calls == [] then s else Next(Run(s, calls[..|calls| - 1]), calls[|calls| - 1])
  }

  /** Each snapshot call of the run is answered with a snapshot of the state at that point. */
  ghost predicate AnswersOk(s: State, calls: seq<Call>, answers: seq<seq<Endpoint>>) {
    if calls == [] then answers == [] else
      var n := |calls| - 1;
      if calls[n].SnapshotCall? then
        && answers != [] && IsSnapshot(Run(s, calls[..n]), answers[|answers| - 1])
        && AnswersOk(s, calls[..n], answers[..|answers| - 1])
      else AnswersOk(s, calls[..n], answers)
  }

  /** The seeds carry their synthetic ids; there are few enough of them for the ids not to come round again. */
  ghost predicate Numbered(s: State) {
    |s.seeds| <= TWO32 && forall i :: 0 <= i < |s.seeds| ==> s.seeds[i].instanceID == (SEED_FIRST_ID + i) % TWO32
  }

  /** In every run from the empty registry, every entry sits under its id and the seeds are numbered. */
  lemma {:induction false} EveryRunNumbered(calls: seq<Call>)
    requires forall i :: 0 <= i < |calls| && calls[i].SeedCall? ==> |calls[i].addrs| <= TWO32
    ensures Keyed(Run(State(map[], []), calls)) && Numbered(Run(State(map[], []), calls))
  {
    if calls != [] {
      var n := |calls| - 1;
      EveryRunNumbered(calls[..n]);
      var s := Run(State(map[], []), calls[..n]);
      match calls[n]
      case UpsertCall(a, now) => assert FromAdvert(a, now).instanceID == a.instanceID;
      case EvictCall(now) =>
      case SeedCall(addrs) =>
        forall i | 0 <= i < |addrs| ensures Seed(s, addrs).seeds[i].instanceID == (SEED_FIRST_ID + i) % TWO32 {
          assert Seed(s, addrs).seeds[i] == SeedEntry(addrs[i], i);
        }
      case SnapshotCall =>
    }
  }

  // ------------------------------------------------- Distinct endpoints

  function Ids(snap: seq<Endpoint>): (ids: seq<uint32>)
    ensures |ids| == |snap| && forall i :: 0 <= i < |snap| ==> ids[i] == snap[i].instanceID
  {
    seq(|snap|, i requires 0 <= i < |snap| => snap[i].instanceID)
  }

  lemma RoundDiffers(i: nat, j: nat)
    requires i < j < TWO32
    ensures (SEED_FIRST_ID + i) % TWO32 != (SEED_FIRST_ID + j) % TWO32
  {
  }

  lemma SeedIdsDiffer(s: State)
    requires Numbered(s)
    ensures forall i, j :: 0 <= i < j < |s.seeds| ==> s.seeds[i].instanceID != s.seeds[j].instanceID
  {
    forall i, j | 0 <= i < j < |s.seeds| ensures s.seeds[i].instanceID != s.seeds[j].instanceID {
      RoundDiffers(i, j);
    }
  }

  lemma {:induction false} OnceEach(list: seq<Endpoint>, e: Endpoint)
    requires forall i, j :: 0 <= i < j < |list| ==> list[i].instanceID != list[j].instanceID
    ensures multiset(list)[e] <= 1
  {
    if list != [] {
      var n := |list| - 1;
      assert list == list[..n] + [list[n]];
      OnceEach(list[..n], e);
      if e == list[n] {
        assert e !in list[..n];
        assert e !in multiset(list[..n]);
      }
    }
  }

  /** What a registry lists: each endpoint once, and no two under one id. */
  lemma ActiveOnce(s: State, e: Endpoint, f: Endpoint)
    requires Keyed(s) && Numbered(s)
    ensures Active(s)[e] <= 1
    ensures e in Active(s) && f in Active(s) && e.instanceID == f.instanceID ==> e == f
  {
    if s.entries == map[] {
      SeedIdsDiffer(s);
      OnceEach(s.seeds, e);
      if e in multiset(s.seeds) && f in multiset(s.seeds) {
        var i :| 0 <= i < |s.seeds| && s.seeds[i] == e;
        var j :| 0 <= j < |s.seeds| && s.seeds[j] == f;
        assert i < j || i == j || j < i;
      }
    }
  }

  lemma TwicePlaced(snap: seq<Endpoint>, p: nat, q: nat)
    requires p < q < |snap| && snap[p] == snap[q]
    ensures multiset(snap)[snap[p]] >= 2
  {
    var head, tail := snap[..q], snap[q..];
    assert snap == head + tail;
    assert head[p] in multiset(head) && tail[0] in multiset(tail);
  }

  /** The endpoints of a snapshot have distinct ids, beacons and seeds alike. */
  lemma SnapshotIdsDiffer(s: State, snap: seq<Endpoint>, p: nat, q: nat)
    requires IsSnapshot(s, snap) && Keyed(s) && Numbered(s) && p < q < |snap|
    ensures Ids(snap)[p] != Ids(snap)[q]
  {
    assert snap[p] in multiset(snap) && snap[q] in multiset(snap);
    ActiveOnce(s, snap[p], snap[q]);
    if snap[p] == snap[q] {
      TwicePlaced(snap, p, q);
      assert false;
    }
  }

  /** Two snapshots of one registry state may order ties differently, but agree on tier and preference everywhere. */
  lemma SnapshotsAgree(s: State, a: seq<Endpoint>, b: seq<Endpoint>)
    requires IsSnapshot(s, a) && IsSnapshot(s, b)
    ensures |a| == |b|
    ensures forall i :: 0 <= i < |a| ==> a[i].tier == b[i].tier && a[i].preference == b[i].preference
  {
    RanksOfPermutation(a, b);
    SortedRanksUnique(a, b);
  }

  /** While there is a beacon entry, no seed is listed, and every beacon entry is listed once. */
  lemma BeaconsHideSeeds(s: State, snap: seq<Endpoint>)
    requires IsSnapshot(s, snap) && s.entries != map[] && Keyed(s)
    ensures |snap| == |s.entries|
    ensures forall e :: e in snap <==> e.instanceID in s.entries && s.entries[e.instanceID] == e
  {
    assert |multiset(snap)| == |snap|;
    forall e ensures e in snap <==> e.instanceID in s.entries && s.entries[e.instanceID] == e {
      assert e in snap <==> e in multiset(snap);
      if e in snap {
        assert e in s.entries.Values;
      }
    }
    ValuesSize(s.entries);
  }

  /** How many endpoints the registry stores; seeds count even while beacons hide them. */
  function Len(s: State): nat { |s.entries| + |s.seeds| }

  /** The size is that of the snapshot exactly when no seed is hidden. */
  lemma LenIsSnapshotIff(s: State, snap: seq<Endpoint>)
    requires IsSnapshot(s, snap) && Keyed(s)
    ensures |snap| <= Len(s)
    ensures |snap| == Len(s) <==> s.entries == map[] || s.seeds == []
  {
    assert |multiset(snap)| == |snap|;
    if s.entries == map[] {
      assert |multiset(s.seeds)| == |s.seeds|;
    } else {
      BeaconsHideSeeds(s, snap);
    }
  }

  lemma {:induction false} ValuesSize(entries: map<uint32, Endpoint>)
    requires Own(entries)
    ensures |entries.Values| == |entries|
    decreases |entries|
  {
    if entries != map[] {
      var id :| id in entries;
      var rest := entries - {id};
      assert rest.Keys == entries.Keys - {id};
      ValuesSize(rest);
      assert entries.Values == rest.Values + {entries[id]} by {
        assert entries == rest[id := entries[id]];
      }
      assert entries[id] !in rest.Values;
    }
  }
}
