/** Eviction is invisible: with or without it, every membership query answers the same. */
module SubtreeRuns {
  import opened Common
  import opened SubtreeGroups

  datatype Op =
    | Add(g: GroupId, sub: Id32, ttl: Time, now: Time)
    | Remove(g: GroupId, sub: Id32, now: Time)
    | Evict(now: Time)
    | Query(sub: Id32, now: Time)

  ghost function After(e: Entries, defaultTTL: Time, op: Op): Entries {
    match op
    case Add(g, sub, ttl, now) => Added(e, defaultTTL, g, sub, ttl, now)
    case Remove(g, sub, _) => Removed(e, g, sub)
    case Evict(now) => Evicted(e, now)
    case Query(_, _) => e
  }

  ghost function Run(e: Entries, defaultTTL: Time, ops: seq<Op>): Entries {
    if ops == [] then e else After(Run(e, defaultTTL, ops[..|ops| - 1]), defaultTTL, ops[|ops| - 1])
  }

  /** The answers of the queries, in order. */
  ghost function Answers(e: Entries, defaultTTL: Time, ops: seq<Op>): seq<bool> {
    if ops == [] then [] else
      var before := ops[..|ops| - 1];
      Answers(e, defaultTTL, before) +
      match ops[|ops| - 1]
      case Query(sub, now) => [IsMember(Run(e, defaultTTL, before), sub, now)]
      case _ => []
  }

  /** A query reads the clock after the evictions before it did; other times are in any order. */
  ghost predicate Timed(ops: seq<Op>) {
    forall i, j :: 0 <= i < j < |ops| && ops[i].Evict? && ops[j].Query? ==> ops[i].now <= ops[j].now
  }

  ghost predicate EvictsBy(ops: seq<Op>, bound: Time) {
    forall i :: 0 <= i < |ops| && ops[i].Evict? ==> ops[i].now <= bound
  }

  /** `fewer` is `ops` with some of its evictions left out. */
  ghost predicate DropsEvictions(ops: seq<Op>, fewer: seq<Op>) {
    if ops == [] then fewer == [] else
      var last := ops[|ops| - 1];
      || (last.Evict? && DropsEvictions(ops[..|ops| - 1], fewer))
      || (fewer != [] && fewer[|fewer| - 1] == last && DropsEvictions(ops[..|ops| - 1], fewer[..|fewer| - 1]))
  }

  /** The second registry holds everything the first does, and besides only what has expired by then. */
  ghost predicate Agree(e: Entries, more: Entries, now: Time) {
    && e.Keys == more.Keys
    && forall g :: g in e ==> GroupAgree(e[g], more[g], now)
  }

  ghost predicate GroupAgree(subs: map<Id32, Time>, more: map<Id32, Time>, now: Time) {
    && (forall sub :: sub in subs ==> sub in more && subs[sub] == more[sub])
    && (forall sub :: sub in more && sub !in subs ==> more[sub] < now)
  }

  lemma StepAgrees(e: Entries, more: Entries, defaultTTL: Time, op: Op, bound: Time)
    requires Agree(e, more, bound)
    ensures Agree(After(e, defaultTTL, op), After(more, defaultTTL, op), bound)
  {
  }

  lemma EvictAgrees(e: Entries, more: Entries, now: Time, bound: Time)
    requires Agree(e, more, bound) && now <= bound
    ensures Agree(Evicted(e, now), more, bound)
  {
  }

  lemma QueryAgrees(e: Entries, more: Entries, sub: Id32, now: Time)
    requires Agree(e, more, now)
    ensures IsMember(e, sub, now) <==> IsMember(more, sub, now)
  {
    if IsMember(more, sub, now) {
      var g :| g in more && sub in more[g] && now < more[g][sub];
      assert GroupAgree(e[g], more[g], now);
      assert sub in e[g];
    }
    if IsMember(e, sub, now) {
      var g :| g in e && sub in e[g] && now < e[g][sub];
      assert GroupAgree(e[g], more[g], now);
      assert sub in more[g];
    }
  }

  /** The two registries agree from the latest eviction on, and all queries of the two runs get the same answers. */
  lemma {:induction false} RunsAgree(e: Entries, defaultTTL: Time, ops: seq<Op>, fewer: seq<Op>, bound: Time)
    requires Timed(ops) && DropsEvictions(ops, fewer) && EvictsBy(ops, bound)
    ensures Agree(Run(e, defaultTTL, ops), Run(e, defaultTTL, fewer), bound)
    ensures Answers(e, defaultTTL, ops) == Answers(e, defaultTTL, fewer)
    decreases |ops|
  {
    if ops != [] {
      var n := |ops| - 1;
      var last, before := ops[n], ops[..n];
      if last.Evict? && DropsEvictions(before, fewer) {
        RunsAgree(e, defaultTTL, before, fewer, bound);
        EvictAgrees(Run(e, defaultTTL, before), Run(e, defaultTTL, fewer), last.now, bound);
      } else {
        var less := fewer[..|fewer| - 1];
        RunsAgree(e, defaultTTL, before, less, bound);
        StepAgrees(Run(e, defaultTTL, before), Run(e, defaultTTL, less), defaultTTL, last, bound);
        if last.Query? {
          RunsAgree(e, defaultTTL, before, less, last.now);
          QueryAgrees(Run(e, defaultTTL, before), Run(e, defaultTTL, less), last.sub, last.now);
        }
      }
    }
  }

  /** Leaving out any or all evictions changes no answer of the run, nor the answer of any query after them. */
  lemma EvictionIsInvisible(e: Entries, defaultTTL: Time, ops: seq<Op>, fewer: seq<Op>, sub: Id32, now: Time)
    requires Timed(ops) && DropsEvictions(ops, fewer) && EvictsBy(ops, now)
    ensures Answers(e, defaultTTL, ops) == Answers(e, defaultTTL, fewer)
    ensures IsMember(Run(e, defaultTTL, ops), sub, now) <==> IsMember(Run(e, defaultTTL, fewer), sub, now)
  {
    RunsAgree(e, defaultTTL, ops, fewer, now);
    QueryAgrees(Run(e, defaultTTL, ops), Run(e, defaultTTL, fewer), sub, now);
  }

  // ------------------------------------------------------ What is a member

  /** The last announcement or withdrawal of the pair. */
  ghost function LastWord(ops: seq<Op>, g: GroupId, sub: Id32): Option<Op> {
    if ops == [] then None else
      var op := ops[|ops| - 1];
      if (op.Add? || op.Remove?) && op.g == g && op.sub == sub then Some(op) else LastWord(ops[..|ops| - 1], g, sub)
  }

  /** Until when an announcement holds. */
  ghost predicate HoldsAt(op: Option<Op>, defaultTTL: Time, now: Time) {
    op.Some? && op.value.Add? && now < op.value.now + (if op.value.ttl <= 0 then defaultTTL else op.value.ttl)
  }

  /** What is stored for the pair follows from its last word, up to entries that have expired by then. */
  ghost predicate StoredIs(e: Entries, g: GroupId, sub: Id32, word: Option<Op>, defaultTTL: Time, bound: Time)
    requires g in e
  {
    && (sub in e[g] ==>
          && word.Some? && word.value.Add?
          && e[g][sub] == word.value.now + (if word.value.ttl <= 0 then defaultTTL else word.value.ttl))
    && (HoldsAt(word, defaultTTL, bound) ==> sub in e[g])
  }

  lemma {:induction false} StoredIsLastWord(e: Entries, defaultTTL: Time, ops: seq<Op>, g: GroupId, sub: Id32,
                                            bound: Time)
    requires g in e && e[g] == map[] && EvictsBy(ops, bound)
    ensures g in Run(e, defaultTTL, ops)
    ensures StoredIs(Run(e, defaultTTL, ops), g, sub, LastWord(ops, g, sub), defaultTTL, bound)
  {
    if ops != [] {
      var n := |ops| - 1;
      StoredIsLastWord(e, defaultTTL, ops[..n], g, sub, bound);
      StoredStep(Run(e, defaultTTL, ops[..n]), g, sub, LastWord(ops[..n], g, sub), defaultTTL, bound, ops[n]);
    }
  }

  lemma StoredStep(e: Entries, g: GroupId, sub: Id32, word: Option<Op>, defaultTTL: Time, bound: Time, op: Op)
    requires g in e && StoredIs(e, g, sub, word, defaultTTL, bound) && (op.Evict? ==> op.now <= bound)
    ensures g in After(e, defaultTTL, op)
    ensures var word' := if (op.Add? || op.Remove?) && op.g == g && op.sub == sub then Some(op) else word;
      StoredIs(After(e, defaultTTL, op), g, sub, word', defaultTTL, bound)
  {
  }

  /**
   In every run from an empty registry, a subtree is a member exactly when the last
   word on it in some subscribed group is an announcement whose TTL still runs.
   */
  lemma MemberIff(e: Entries, defaultTTL: Time, ops: seq<Op>, sub: Id32, now: Time)
    requires (forall g :: g in e ==> e[g] == map[]) && EvictsBy(ops, now)
    ensures IsMember(Run(e, defaultTTL, ops), sub, now) <==>
      exists g :: g in e && HoldsAt(LastWord(ops, g, sub), defaultTTL, now)
  {
    var after := Run(e, defaultTTL, ops);
    RunGroups(e, defaultTTL, ops);
    forall g | g in e ensures StoredIs(after, g, sub, LastWord(ops, g, sub), defaultTTL, now) {
      StoredIsLastWord(e, defaultTTL, ops, g, sub, now);
    }
    if g :| g in after && sub in after[g] && now < after[g][sub] {
      assert StoredIs(after, g, sub, LastWord(ops, g, sub), defaultTTL, now);
      assert HoldsAt(LastWord(ops, g, sub), defaultTTL, now);
    }
    if g :| g in e && HoldsAt(LastWord(ops, g, sub), defaultTTL, now) {
      assert StoredIs(after, g, sub, LastWord(ops, g, sub), defaultTTL, now);
      assert sub in after[g] && now < after[g][sub];
    }
  }

  lemma {:induction false} RunGroups(e: Entries, defaultTTL: Time, ops: seq<Op>)
    ensures Run(e, defaultTTL, ops).Keys == e.Keys
  {
    if ops != [] {
      RunGroups(e, defaultTTL, ops[..|ops| - 1]);
    }
  }

  /** Eviction keeps exactly the pairs whose expiry has not passed, with their expiries. */
  lemma EvictKeepsIff(e: Entries, g: GroupId, sub: Id32, now: Time)
    requires g in e
    ensures g in Evicted(e, now)
    ensures sub in Evicted(e, now)[g] <==> sub in e[g] && now <= e[g][sub]
    ensures sub in Evicted(e, now)[g] ==> Evicted(e, now)[g][sub] == e[g][sub]
  {
  }
}
