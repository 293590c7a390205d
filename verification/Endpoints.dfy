/** Retry endpoints and their dispatch order. */
module Endpoints {
  import opened Common

  /** Where NACKs for an endpoint go: an advertised address and port, or a configured host:port text. */
  datatype Address = Advertised(ip: seq<byte>, port: uint16) | Configured(text: string)

  datatype Endpoint = Endpoint(addr: Address, tier: byte, preference: byte, flags: uint16,
                               expires: Time, instanceID: uint32, supportsUnicast: bool)

  /** The sort's comparison: lower tier first, higher preference first within a tier. */
  predicate Less(a: Endpoint, b: Endpoint) {
    if a.tier != b.tier then a.tier < b.tier else a.preference > b.preference
  }

  /** The place of an endpoint in the dispatch order, as a number. */
  function Rank(e: Endpoint): nat { 256 * e.tier + (255 - e.preference) }

  ghost predicate Sorted(s: seq<Endpoint>) {
    forall i, j :: 0 <= i < j < |s| ==> !Less(s[j], s[i])
  }

  function Ranks(s: seq<Endpoint>): seq<nat> { seq(|s|, i requires 0 <= i < |s| => Rank(s[i])) }

  ghost predicate Ascending(s: seq<nat>) {
    forall i, j :: 0 <= i < j < |s| ==> s[i] <= s[j]
  }

  /** Removing the element at k removes its rank once. */
  lemma RanksRemove(s: seq<Endpoint>, k: nat)
    requires k < |s|
    ensures multiset(s) == multiset(s[..k] + s[k + 1..]) + multiset{s[k]}
    ensures multiset(Ranks(s)) == multiset(Ranks(s[..k] + s[k + 1..])) + multiset{Rank(s[k])}
  {
    var rest := s[..k] + s[k + 1..];
    assert s == s[..k] + [s[k]] + s[k + 1..];
    assert Ranks(s) == Ranks(s[..k]) + [Rank(s[k])] + Ranks(s[k + 1..]);
    assert Ranks(rest) == Ranks(s[..k]) + Ranks(s[k + 1..]);
  }

  /** Equal multisets of endpoints have equal multisets of ranks. */
  lemma {:induction false} RanksOfPermutation(a: seq<Endpoint>, b: seq<Endpoint>)
    requires multiset(a) == multiset(b)
    ensures multiset(Ranks(a)) == multiset(Ranks(b))
    decreases |a|
  {
    if a == [] {
      assert |multiset(b)| == 0;
      assert b == [];
    } else {
      assert a[0] in multiset(b);
      var k :| 0 <= k < |b| && b[k] == a[0];
      RanksRemove(a, 0);
      RanksRemove(b, k);
      assert a[..0] + a[1..] == a[1..];
      assert multiset(a[1..]) == multiset(a) - multiset{a[0]};
      assert multiset(b[..k] + b[k + 1..]) == multiset(b) - multiset{a[0]};
      RanksOfPermutation(a[1..], b[..k] + b[k + 1..]);
    }
  }

  lemma LastIsGreatest(a: seq<nat>, x: nat)
    requires Ascending(a) && x in multiset(a)
    ensures a != [] && x <= a[|a| - 1]
  {
    var i :| 0 <= i < |a| && a[i] == x;
  }

  lemma DropLast(a: seq<nat>)
    requires a != []
    ensures a == a[..|a| - 1] + [a[|a| - 1]]
    ensures multiset(a[..|a| - 1]) == multiset(a) - multiset{a[|a| - 1]}
  {
    assert a == a[..|a| - 1] + [a[|a| - 1]];
  }

  lemma SameLast(a: seq<nat>, b: seq<nat>)
    requires Ascending(a) && Ascending(b) && multiset(a) == multiset(b) && a != []
    ensures b != [] && a[|a| - 1] == b[|b| - 1]
    ensures multiset(a[..|a| - 1]) == multiset(b[..|b| - 1])
  {
    assert a[|a| - 1] in multiset(a);
    LastIsGreatest(b, a[|a| - 1]);
    assert b[|b| - 1] in multiset(b);
    LastIsGreatest(a, b[|b| - 1]);
    DropLast(a);
    DropLast(b);
  }

  /** A multiset of numbers has one ascending arrangement. */
  lemma {:induction false} AscendingUnique(a: seq<nat>, b: seq<nat>)
    requires Ascending(a) && Ascending(b) && multiset(a) == multiset(b)
    ensures a == b
    decreases |a|
  {
    if a == [] {
      assert |multiset(b)| == 0;
    } else {
      SameLast(a, b);
      var a', b' := a[..|a| - 1], b[..|b| - 1];
      AscendingUnique(a', b');
      assert a == a' + [a[|a| - 1]] && b == b' + [b[|b| - 1]];
    }
  }

  /**
   Whatever order ties come out in, every position of two sorted arrangements
   with the same ranks has the same tier and the same preference.
   */
  lemma SortedRanksUnique(a: seq<Endpoint>, b: seq<Endpoint>)
    requires Sorted(a) && Sorted(b) && multiset(Ranks(a)) == multiset(Ranks(b))
    ensures |a| == |b|
    ensures forall i :: 0 <= i < |a| ==> a[i].tier == b[i].tier && a[i].preference == b[i].preference
  {
    AscendingUnique(Ranks(a), Ranks(b));
    assert |Ranks(a)| == |a| && |Ranks(b)| == |b|;
    forall i | 0 <= i < |a|
      ensures a[i].tier == b[i].tier && a[i].preference == b[i].preference
    {
      assert Ranks(a)[i] == Ranks(b)[i];
    }
  }
}
