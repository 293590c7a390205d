/** Machine-width types and small collection facts shared by every component. */
module Common {

  const TWO32: int := 0x1_0000_0000
  const TWO63: int := 0x8000_0000_0000_0000
  const TWO64: int := 0x1_0000_0000_0000_0000

  type byte = x: int | 0 <= x < 0x100
  type uint16 = x: int | 0 <= x < 0x1_0000
  type uint32 = x: int | 0 <= x < 0x1_0000_0000
  type uint64 = x: int | 0 <= x < 0x1_0000_0000_0000_0000

  /** A 32-byte identifier: a TxID, a SubtreeID or a content hash. */
  type Id32 = s: seq<byte> | |s| == 32 witness seq(32, _ => 0)

  /** Instants and durations, in nanoseconds. */
  type Time = int

  /** The clock `dt` later. */
  function Later(clock: Time, dt: nat): Time { clock + dt }

  const MILLISECOND: Time := 1_000_000
  const SECOND: Time := 1_000_000_000

  datatype Option<+T> = None | Some(value: T)

  function Min(a: int, b: int): int { if a <= b then a else b }

  /** Every element of `bs` paired with `a`. */
  ghost function Pairs<A(!new), B(!new)>(a: A, bs: set<B>): (r: set<(A, B)>)
    ensures forall p :: p in r <==> p.0 == a && p.1 in bs
  {
    set b | b in bs :: (a, b)
  }

  lemma {:induction false} PairsSize<A(!new), B(!new)>(a: A, bs: set<B>)
    ensures |Pairs(a, bs)| == |bs|
  {
    if bs == {} {
      assert Pairs(a, bs) == {};
    } else {
      var b :| b in bs;
      PairsSize(a, bs - {b});
      assert Pairs(a, bs) == Pairs(a, bs - {b}) + {(a, b)};
    }
  }

  /** The integers in [lo, hi). */
  function Range(lo: int, hi: int): (r: set<int>)
    ensures forall i :: i in r <==> lo <= i < hi
    ensures |r| == if lo < hi then hi - lo else 0
    decreases hi - lo
  {
    if lo >= hi then {} else Range(lo, hi - 1) + {hi - 1}
  }

  lemma DisjointSize<T>(all: set<T>, a: set<T>, b: set<T>)
    requires a !! b
    requires all == a + b
    ensures |all| == |a| + |b|
  {
  }

  lemma SubsetSize<T>(a: set<T>, b: set<T>)
    requires a <= b
    ensures |a| <= |b|
    ensures |a| == |b| ==> a == b
  {
    assert b == a + (b - a);
  }
}
