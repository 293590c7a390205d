/** Shard and subtree gating. */
module Filter {
  import opened Common
  import opened SubtreeGroups
  import opened SubtreeRuns

  /** Compiled sets; None stands for a nil map. */
  datatype Sets = Sets(shardInclude: Option<set<uint32>>, subtreeInclude: Option<set<Id32>>,
                       subtreeExclude: Option<set<Id32>>)

  datatype Reason = ShardFilter | SubtreeExclude | SubtreeIncludeMiss

  method Collect<T(==)>(list: seq<T>) returns (r: Option<set<T>>)
    ensures r.None? <==> list == []
    ensures r.Some? ==> forall x :: x in r.value <==> x in list
  {
    if |list| == 0 { return None; }
    var acc: set<T> := {};
    var i := 0;
    while i < |list|
      invariant 0 <= i <= |list|
      invariant forall x :: x in acc <==> x in list[..i]
    {
      acc := acc + {list[i]};
      i := i + 1;
    }
    assert list[..i] == list;
    r := Some(acc);
  }

  /** The sets were compiled from these lists. */
  ghost predicate Compiled(f: Sets, shards: seq<uint32>, include_: seq<Id32>, exclude: seq<Id32>) {
    && (f.shardInclude.None? <==> shards == [])
    && (f.shardInclude.Some? ==> forall x :: x in f.shardInclude.value <==> x in shards)
    && (f.subtreeInclude.None? <==> include_ == [])
    && (f.subtreeInclude.Some? ==> forall x :: x in f.subtreeInclude.value <==> x in include_)
    && (f.subtreeExclude.None? <==> exclude == [])
    && (f.subtreeExclude.Some? ==> forall x :: x in f.subtreeExclude.value <==> x in exclude)
  }

  method New(shards: seq<uint32>, include_: seq<Id32>, exclude: seq<Id32>) returns (f: Sets)
    ensures Compiled(f, shards, include_, exclude)
  {
    var a := Collect(shards);
    var b := Collect(include_);
    var c := Collect(exclude);
    f := Sets(a, b, c);
  }

  /** None means allowed. `groups` is the subtree-group registry, if there is one. */
  function Verdict(f: Sets, groupIdx: uint32, sub: Id32, groups: Option<Entries>, now: Time): Option<Reason> {
    if f.shardInclude.Some? && groupIdx !in f.shardInclude.value then Some(ShardFilter)
    else if f.subtreeExclude.Some? && sub in f.subtreeExclude.value then Some(SubtreeExclude)
    else if (f.subtreeInclude.Some? || groups.Some?)
            && !(f.subtreeInclude.Some? && sub in f.subtreeInclude.value)
            && !(groups.Some? && IsMember(groups.value, sub, now))
    then Some(SubtreeIncludeMiss)
    else None
  }

  /**
   In terms of the configured lists. The last clause is open only without a group
   registry: a registry with no live member still closes it.
   */
  lemma AllowedIff(f: Sets, shards: seq<uint32>, include_: seq<Id32>, exclude: seq<Id32>,
                   groupIdx: uint32, sub: Id32, groups: Option<Entries>, now: Time)
    requires Compiled(f, shards, include_, exclude)
    ensures Verdict(f, groupIdx, sub, groups, now).None? <==>
      && (shards == [] || groupIdx in shards)
      && sub !in exclude
      && (sub in include_ || (groups.Some? && IsMember(groups.value, sub, now)) || (include_ == [] && groups.None?))
  {
  }

  /** No filter decision depends on when, or whether, the registry evicts. */
  lemma EvictionChangesNoVerdict(f: Sets, groupIdx: uint32, sub: Id32, e: Entries, defaultTTL: Time,
                                 ops: seq<Op>, fewer: seq<Op>, now: Time)
    requires Timed(ops) && DropsEvictions(ops, fewer) && EvictsBy(ops, now)
    ensures Verdict(f, groupIdx, sub, Some(Run(e, defaultTTL, ops)), now) ==
            Verdict(f, groupIdx, sub, Some(Run(e, defaultTTL, fewer)), now)
  {
    EvictionIsInvisible(e, defaultTTL, ops, fewer, sub, now);
  }

  /** Nothing configured: without a group registry every frame passes, with one that has no group none does. */
  lemma EmptyGroupsClose(groupIdx: uint32, sub: Id32, now: Time)
    ensures Verdict(Sets(None, None, None), groupIdx, sub, None, now).None?
    ensures Verdict(Sets(None, None, None), groupIdx, sub, Some(map[]), now) == Some(SubtreeIncludeMiss)
  {
  }

  /** The reason of a refusal: the shard first, then the exclusion, then the missing inclusion. */
  lemma ReasonIff(f: Sets, shards: seq<uint32>, include_: seq<Id32>, exclude: seq<Id32>,
                  groupIdx: uint32, sub: Id32, groups: Option<Entries>, now: Time)
    requires Compiled(f, shards, include_, exclude)
    ensures var r := Verdict(f, groupIdx, sub, groups, now);
      && (r == Some(ShardFilter) <==> shards != [] && groupIdx !in shards)
      && (r == Some(SubtreeExclude) <==> (shards == [] || groupIdx in shards) && sub in exclude)
      && (r == Some(SubtreeIncludeMiss) <==>
            && (shards == [] || groupIdx in shards) && sub !in exclude && sub !in include_
            && (include_ != [] || groups.Some?) && !(groups.Some? && IsMember(groups.value, sub, now)))
  {
  }
}
