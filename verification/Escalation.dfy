/** The registry's snapshots drive the tracker's climb through the tiers. */
module Escalation {
  import opened Common
  import opened TrackerSpec
  import opened Endpoints
  import opened TrackerRuns
  import opened TrackerAttempts
  import RegistrySpec

  /** The same beacons at the same tiers and preferences; refreshed expiries, flags and addresses may differ. */
  ghost predicate SamePlaces(a: RegistrySpec.State, b: RegistrySpec.State) {
    SameRanked(a.entries, b.entries) && a.seeds == b.seeds
  }

  /** `rest` is `s` without one occurrence of e, and without e's id it is an arrangement of what is left. */
  ghost predicate IsCut(a: map<uint32, Endpoint>, s: seq<Endpoint>, e: Endpoint, rest: seq<Endpoint>) {
    && e.instanceID in a && a[e.instanceID] == e && |rest| == |s| - 1
    && multiset(rest) == multiset((a - {e.instanceID}).Values)
    && multiset(Ranks(s)) == multiset(Ranks(rest)) + multiset{Rank(e)}
  }

  /** Cutting the endpoint at k out of an arrangement cuts its id out of the map. */
  lemma Cut(a: map<uint32, Endpoint>, s: seq<Endpoint>, k: nat) returns (rest: seq<Endpoint>)
    requires RegistrySpec.Own(a) && multiset(s) == multiset(a.Values) && k < |s|
    ensures IsCut(a, s, s[k], rest)
  {
    RanksRemove(s, k);
    rest := s[..k] + s[k + 1..];
    assert s[k] in multiset(s);
    assert s[k] in a.Values;
    ValuesWithout(a, s[k]);
  }

  lemma ValuesWithout(a: map<uint32, Endpoint>, x: Endpoint)
    requires RegistrySpec.Own(a) && x in a.Values
    ensures x.instanceID in a && a[x.instanceID] == x
    ensures multiset((a - {x.instanceID}).Values) == multiset(a.Values) - multiset{x}
  {
    var rest := a - {x.instanceID};
    forall e ensures e in rest.Values <==> e in a.Values && e != x {
      if e in a.Values && e != x {
        assert e.instanceID in rest && rest[e.instanceID] == e;
      }
    }
    assert rest.Values == a.Values - {x};
  }

  /** Every id is listed somewhere. */
  lemma Place(a: map<uint32, Endpoint>, s: seq<Endpoint>, id: uint32) returns (k: nat)
    requires id in a && multiset(s) == multiset(a.Values)
    ensures k < |s| && s[k] == a[id]
  {
    assert a[id] in a.Values;
    assert a[id] in multiset(s);
    k :| 0 <= k < |s| && s[k] == a[id];
  }

  ghost predicate SameRanked(a: map<uint32, Endpoint>, b: map<uint32, Endpoint>) {
    a.Keys == b.Keys && forall id :: id in a ==> Rank(a[id]) == Rank(b[id])
  }

  lemma Smaller(a: map<uint32, Endpoint>, b: map<uint32, Endpoint>, id: uint32)
    requires RegistrySpec.Own(a) && RegistrySpec.Own(b) && SameRanked(a, b)
    ensures RegistrySpec.Own(a - {id}) && RegistrySpec.Own(b - {id}) && SameRanked(a - {id}, b - {id})
  {
    assert (a - {id}).Keys == (b - {id}).Keys;
  }

  /** Two arrangements, each of its registry's endpoints. */
  ghost predicate Arranged(a: map<uint32, Endpoint>, b: map<uint32, Endpoint>, s: seq<Endpoint>, t: seq<Endpoint>) {
    && RegistrySpec.Own(a) && RegistrySpec.Own(b) && SameRanked(a, b)
    && multiset(s) == multiset(a.Values) && multiset(t) == multiset(b.Values) && |s| == |t|
  }

  /** Cutting the first endpoint out of one arrangement and its counterpart out of the other. */
  lemma CutBoth(a: map<uint32, Endpoint>, b: map<uint32, Endpoint>, s: seq<Endpoint>, t: seq<Endpoint>)
    returns (a': map<uint32, Endpoint>, b': map<uint32, Endpoint>, s': seq<Endpoint>, t': seq<Endpoint>)
    requires Arranged(a, b, s, t) && s != []
    ensures Arranged(a', b', s', t') && |s'| < |s|
    ensures multiset(Ranks(s')) == multiset(Ranks(t')) ==> multiset(Ranks(s)) == multiset(Ranks(t))
  {
    var id := s[0].instanceID;
    s' := Cut(a, s, 0);
    var k := Place(b, t, id);
    t' := Cut(b, t, k);
    Smaller(a, b, id);
    a', b' := a - {id}, b - {id};
  }

  /** Arrangements of two registries with the same places have the same ranks. */
  lemma {:induction false} SameRanks(a: map<uint32, Endpoint>, b: map<uint32, Endpoint>, s: seq<Endpoint>,
                                     t: seq<Endpoint>)
    requires Arranged(a, b, s, t)
    ensures multiset(Ranks(s)) == multiset(Ranks(t))
    decreases |s|
  {
    if s != [] {
      var a', b', s', t' := CutBoth(a, b, s, t);
      SameRanks(a', b', s', t');
    }
  }

  /**
   Between two attempts for a gap in an orderly run, beacons may refresh as often
   as they like: while their tiers and preferences stay, the later attempt goes
   no lower and, within a tier, to no higher preference.
   */
  lemma RegistryClimb(cfg: Config, t0: Time, steps: seq<Step>, id: GapId, log: seq<Contact>, i: nat, j: nat,
                      before: RegistrySpec.State, after: RegistrySpec.State)
    requires OrderlyRun(cfg, Start(t0), steps, id) && log == Log(Exec(cfg, Start(t0), steps), id)
    requires i < j < |log|
    requires RegistrySpec.IsSnapshot(before, log[i].snapshot) && RegistrySpec.IsSnapshot(after, log[j].snapshot)
    requires RegistrySpec.Keyed(before) && RegistrySpec.Keyed(after) && SamePlaces(before, after)
    ensures log[i].endpoint.tier <= log[j].endpoint.tier
    ensures log[i].endpoint.tier == log[j].endpoint.tier ==> log[i].endpoint.preference >= log[j].endpoint.preference
  {
    if before.entries == map[] {
      assert after.entries == map[];
      RanksOfPermutation(log[i].snapshot, log[j].snapshot);
    } else {
      RegistrySpec.BeaconsHideSeeds(before, log[i].snapshot);
      RegistrySpec.BeaconsHideSeeds(after, log[j].snapshot);
      assert |before.entries.Keys| == |after.entries.Keys|;
      SameRanks(before.entries, after.entries, log[i].snapshot, log[j].snapshot);
    }
    TiersNeverDecrease(cfg, t0, steps, id, log, i, j);
  }

  /**
   Between two attempts that saw the same endpoints in the same order, refreshed or
   not and beacons or seeds, one endpoint is asked twice only if it is the last.
   */
  lemma OnlyLastAgain(cfg: Config, t0: Time, steps: seq<Step>, id: GapId, log: seq<Contact>, i: nat, j: nat,
                      reg: RegistrySpec.State)
    requires OrderlyRun(cfg, Start(t0), steps, id) && log == Log(Exec(cfg, Start(t0), steps), id) && i < j < |log|
    requires RegistrySpec.IsSnapshot(reg, log[i].snapshot) && RegistrySpec.Keyed(reg) && RegistrySpec.Numbered(reg)
    requires RegistrySpec.Ids(log[i].snapshot) == RegistrySpec.Ids(log[j].snapshot)
    requires log[i].endpoint.instanceID == log[j].endpoint.instanceID
    ensures var a, b := log[i].snapshot, log[j].snapshot;
      |a| == |b| > 0 && log[i].endpoint == a[|a| - 1] && log[j].endpoint == b[|b| - 1]
  {
    var a, b := log[i].snapshot, log[j].snapshot;
    assert |a| == |RegistrySpec.Ids(a)| == |RegistrySpec.Ids(b)| == |b|;
    EachPositionOnce(cfg, t0, steps, id, log, i, j);
    var p, q := Position(log[i].attempt, |a|), Position(log[j].attempt, |a|);
    assert RegistrySpec.Ids(a)[p] == log[i].endpoint.instanceID && RegistrySpec.Ids(b)[q] == log[j].endpoint.instanceID;
    if p < q {
      RegistrySpec.SnapshotIdsDiffer(reg, a, p, q);
      assert false;
    }
  }
}
