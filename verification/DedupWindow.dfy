/** The detector against a sliding window over the keys it has let through. */
module DedupWindow {
  import opened Common
  import opened DedupSpec

  datatype Call = Call(key: Key, now: Time, seen: bool)

  /** The set with a record of its calls and of the keys of the calls that answered false. */
  datatype World = World(st: State, calls: seq<Call>, misses: seq<Key>)

  ghost predicate Fits(s: State, capacity: nat) {
    capacity > 0 && |s.ring| == capacity && s.head < capacity && s.count <= capacity
  }

  ghost predicate Initial(w: World, capacity: nat) {
    && Fits(w.st, capacity) && w.st.entries == map[] && w.st.head == 0 && w.st.count == 0
    && w.calls == [] && w.misses == []
  }

  ghost function Next(w: World, ttl: Time, key: Key, now: Time): World {
    var a := SeenAndAdd(w.st, ttl, key, now);
    World(a.st, w.calls + [Call(key, now, a.seen)], if a.seen then w.misses else w.misses + [key])
  }

  ghost function Exec(w: World, ttl: Time, keys: seq<(Key, Time)>): World {
    if keys == [] then w else
      Next(Exec(w, ttl, keys[..|keys| - 1]), ttl, keys[|keys| - 1].0, keys[|keys| - 1].1)
  }

  // ----------------------------------------------------- What is remembered

  /** i is the last miss of the key. */
  ghost predicate LastMiss(misses: seq<Key>, key: Key, i: int) {
    0 <= i < |misses| && misses[i] == key && forall j :: i < j < |misses| ==> misses[j] != key
  }

  /**
   Has the ring overwritten an earlier copy of the key since its last miss i?
   Miss j overwrites miss j - capacity, so these are the copies at distance less
   than the capacity before i that have left the window.
   */
  ghost predicate Overwritten(misses: seq<Key>, capacity: nat, key: Key, i: int) {
    exists p :: 0 <= p < |misses| && i - capacity < p < |misses| - capacity && misses[p] == key
  }

  /** Missed before, and no copy overwritten since. */
  ghost predicate Remembered(misses: seq<Key>, capacity: nat, key: Key) {
    exists i :: LastMiss(misses, key, i) && !Overwritten(misses, capacity, key, i)
  }

  /** Among the last `capacity` misses. */
  ghost predicate InWindow(misses: seq<Key>, capacity: nat, key: Key) {
    exists i :: |misses| - capacity <= i < |misses| && 0 <= i && misses[i] == key
  }

  lemma LastMissUnique(misses: seq<Key>, key: Key, i: int, j: int)
    requires LastMiss(misses, key, i) && LastMiss(misses, key, j)
    ensures i == j
  {
  }

  lemma {:induction false} LastMissExists(misses: seq<Key>, key: Key) returns (i: nat)
    requires key in misses
    ensures LastMiss(misses, key, i)
  {
    var n := |misses| - 1;
    if misses[n] == key {
      i := n;
    } else {
      assert misses == misses[..n] + [misses[n]];
      i := LastMissExists(misses[..n], key);
      assert forall j :: i < j < n ==> misses[j] == misses[..n][j];
    }
  }

  lemma LastMissSnoc(misses: seq<Key>, x: Key, key: Key, i: int)
    requires x != key
    ensures LastMiss(misses + [x], key, i) <==> LastMiss(misses, key, i)
  {
    var after := misses + [x];
    assert forall j :: 0 <= j < |misses| ==> after[j] == misses[j];
    if LastMiss(after, key, i) {
      assert i < |misses| && misses[i] == key;
      forall j | i < j < |misses| ensures misses[j] != key {
        assert after[j] != key;
      }
    }
  }

  lemma OverwrittenSnoc(misses: seq<Key>, capacity: nat, x: Key, key: Key, i: int)
    requires capacity > 0 && 0 <= i < |misses|
    ensures Overwritten(misses + [x], capacity, key, i) <==>
      Overwritten(misses, capacity, key, i) || (|misses| >= capacity && misses[|misses| - capacity] == key)
  {
    var after := misses + [x];
    if Overwritten(after, capacity, key, i) {
      var p :| 0 <= p < |after| && i - capacity < p < |after| - capacity && after[p] == key;
      assert misses[p] == key;
    }
    if Overwritten(misses, capacity, key, i) {
      var p :| 0 <= p < |misses| && i - capacity < p < |misses| - capacity && misses[p] == key;
      assert after[p] == key;
    }
    if |misses| >= capacity && misses[|misses| - capacity] == key {
      assert after[|misses| - capacity] == key;
    }
  }

  /** One more miss: the new key is remembered, the overwritten key is not, the rest is as before. */
  lemma RememberedSnoc(misses: seq<Key>, capacity: nat, x: Key, key: Key)
    requires capacity > 0
    ensures Remembered(misses + [x], capacity, key) <==>
      key == x || (Remembered(misses, capacity, key) && !(|misses| >= capacity && misses[|misses| - capacity] == key))
  {
    var after := misses + [x];
    if key == x {
      assert LastMiss(after, key, |misses|);
    } else {
      forall i ensures LastMiss(after, key, i) <==> LastMiss(misses, key, i) {
        LastMissSnoc(misses, x, key, i);
      }
      forall i | LastMiss(misses, key, i)
        ensures Overwritten(after, capacity, key, i) <==>
          Overwritten(misses, capacity, key, i) || (|misses| >= capacity && misses[|misses| - capacity] == key)
      {
        OverwrittenSnoc(misses, capacity, x, key, i);
      }
    }
  }

  /** What is remembered is in the window. */
  lemma RememberedInWindow(misses: seq<Key>, capacity: nat, key: Key)
    requires Remembered(misses, capacity, key) && capacity > 0
    ensures InWindow(misses, capacity, key)
  {
    var i :| LastMiss(misses, key, i) && !Overwritten(misses, capacity, key, i);
    assert misses[i] == key;
  }

  /** A key in the window is remembered exactly when no earlier copy was overwritten after its last miss. */
  lemma WindowAgreesIff(misses: seq<Key>, capacity: nat, key: Key, i: int)
    requires capacity > 0 && LastMiss(misses, key, i)
    ensures (InWindow(misses, capacity, key) <==> Remembered(misses, capacity, key)) <==>
      (|misses| - capacity <= i ==> !Overwritten(misses, capacity, key, i))
  {
    if InWindow(misses, capacity, key) {
      var j :| |misses| - capacity <= j < |misses| && 0 <= j && misses[j] == key;
      assert j <= i;
    }
    if Remembered(misses, capacity, key) {
      RememberedInWindow(misses, capacity, key);
      var j :| LastMiss(misses, key, j) && !Overwritten(misses, capacity, key, j);
      LastMissUnique(misses, key, i, j);
    }
  }

  // ------------------------------------------------------------- The ring

  /** The place d steps behind the head. */
  function Behind(head: nat, d: nat, capacity: nat): int {
    if head >= d then head - d else head - d + capacity
  }

  /** The ring holds the latest misses, newest behind the head. */
  ghost predicate RingIs(s: State, misses: seq<Key>) {
    && s.count == (if |misses| <= |s.ring| then |misses| else |s.ring|)
    && forall d :: 1 <= d <= s.count ==>
         0 <= Behind(s.head, d, |s.ring|) < |s.ring| && s.ring[Behind(s.head, d, |s.ring|)] == misses[|misses| - d]
  }

  lemma InsertRing(s: State, capacity: nat, ttl: Time, key: Key, now: Time, misses: seq<Key>)
    requires Fits(s, capacity) && RingIs(s, misses)
    ensures RingIs(Insert(s, ttl, key, now), misses + [key])
    ensures s.count == capacity ==> s.ring[s.head] == misses[|misses| - capacity]
  {
    var s' := Insert(s, ttl, key, now);
    var after := misses + [key];
    if s.count == capacity { assert Behind(s.head, capacity, capacity) == s.head; }
    forall d | 1 <= d <= s'.count
      ensures 0 <= Behind(s'.head, d, capacity) < capacity
      ensures s'.ring[Behind(s'.head, d, capacity)] == after[|after| - d]
    {
      if d == 1 {
        assert Behind(s'.head, 1, capacity) == s.head;
      } else {
        assert Behind(s'.head, d, capacity) == Behind(s.head, d - 1, capacity);
        assert s.ring[Behind(s.head, d - 1, capacity)] == misses[|misses| - (d - 1)];
      }
    }
  }

  // ------------------------------------------------------- The invariant

  /** The last call with the key, if any. */
  function LastCall(calls: seq<Call>, key: Key): Option<Time> {
    if calls == [] then None
    else if calls[|calls| - 1].key == key then Some(calls[|calls| - 1].now)
    else LastCall(calls[..|calls| - 1], key)
  }

  ghost predicate Stamped(s: State, ttl: Time, calls: seq<Call>) {
    forall k :: k in s.entries ==> LastCall(calls, k).Some? && s.entries[k] == Expiry(ttl, LastCall(calls, k).value)
  }

  ghost predicate Inv(w: World, capacity: nat, ttl: Time) {
    && Fits(w.st, capacity) && RingIs(w.st, w.misses)
    && (forall k :: k in w.st.entries <==> Remembered(w.misses, capacity, k))
    && Stamped(w.st, ttl, w.calls)
  }

  lemma LastCallSnoc(calls: seq<Call>, c: Call, key: Key)
    ensures LastCall(calls + [c], key) == if c.key == key then Some(c.now) else LastCall(calls, key)
  {
    assert (calls + [c])[..|calls|] == calls;
  }

  lemma StampedSnoc(s: State, s': State, ttl: Time, calls: seq<Call>, c: Call)
    requires Stamped(s, ttl, calls)
    requires c.key in s'.entries && s'.entries[c.key] == Expiry(ttl, c.now)
    requires forall k :: k in s'.entries && k != c.key ==> k in s.entries && s'.entries[k] == s.entries[k]
    ensures Stamped(s', ttl, calls + [c])
  {
    forall k | k in s'.entries
      ensures LastCall(calls + [c], k).Some? && s'.entries[k] == Expiry(ttl, LastCall(calls + [c], k).value)
    {
      LastCallSnoc(calls, c, k);
    }
  }

  lemma MissKeeps(w: World, capacity: nat, ttl: Time, key: Key, now: Time)
    requires Inv(w, capacity, ttl) && !Fresh(w.st, ttl, key, now)
    ensures Inv(Next(w, ttl, key, now), capacity, ttl)
  {
    var s' := Insert(w.st, ttl, key, now);
    InsertRing(w.st, capacity, ttl, key, now, w.misses);
    forall k ensures k in s'.entries <==> Remembered(w.misses + [key], capacity, k) {
      RememberedSnoc(w.misses, capacity, key, k);
    }
    StampedSnoc(w.st, s', ttl, w.calls, Call(key, now, false));
  }

  lemma HitKeeps(w: World, capacity: nat, ttl: Time, key: Key, now: Time)
    requires Inv(w, capacity, ttl) && Fresh(w.st, ttl, key, now)
    ensures Inv(Next(w, ttl, key, now), capacity, ttl)
  {
    StampedSnoc(w.st, Next(w, ttl, key, now).st, ttl, w.calls, Call(key, now, true));
  }

  lemma {:induction false} EveryRunKeeps(w0: World, capacity: nat, ttl: Time, keys: seq<(Key, Time)>)
    requires Initial(w0, capacity)
    ensures Inv(Exec(w0, ttl, keys), capacity, ttl)
  {
    if keys != [] {
      var n := |keys| - 1;
      EveryRunKeeps(w0, capacity, ttl, keys[..n]);
      var w := Exec(w0, ttl, keys[..n]);
      if Fresh(w.st, ttl, keys[n].0, keys[n].1) {
        HitKeeps(w, capacity, ttl, keys[n].0, keys[n].1);
      } else {
        MissKeeps(w, capacity, ttl, keys[n].0, keys[n].1);
      }
    }
  }

  // ------------------------------------------------------------ The laws

  /**
   The exact answer, for every TTL and every run: seen before exactly when the
   key is still remembered and, if keys expire, its latest call is recent enough.
   */
  lemma ExactAnswer(w0: World, capacity: nat, ttl: Time, keys: seq<(Key, Time)>, w: World, key: Key, now: Time)
    requires Initial(w0, capacity) && w == Exec(w0, ttl, keys)
    ensures SeenAndAdd(w.st, ttl, key, now).seen <==>
      && Remembered(w.misses, capacity, key)
      && (ttl <= 0 || (LastCall(w.calls, key).Some? && LastCall(w.calls, key).value + ttl >= now))
  {
    EveryRunKeeps(w0, capacity, ttl, keys);
  }

  /** Never an unfounded answer: true only for a key that was let through before. */
  lemma SeenIsSound(w0: World, capacity: nat, ttl: Time, keys: seq<(Key, Time)>, w: World, key: Key, now: Time)
    requires Initial(w0, capacity) && w == Exec(w0, ttl, keys)
    requires SeenAndAdd(w.st, ttl, key, now).seen
    ensures key in w.misses && InWindow(w.misses, capacity, key)
    ensures LastCall(w.calls, key).Some? && (ttl > 0 ==> LastCall(w.calls, key).value + ttl >= now)
  {
    EveryRunKeeps(w0, capacity, ttl, keys);
    RememberedInWindow(w.misses, capacity, key);
  }

  lemma {:induction false} FewDistinct(keys: set<Key>, window: seq<Key>)
    requires forall k :: k in keys ==> k in window
    ensures |keys| <= |window|
    decreases |window|
  {
    if window == [] {
      assert keys == {};
    } else {
      var n := |window| - 1;
      assert window == window[..n] + [window[n]];
      FewDistinct(keys - {window[n]}, window[..n]);
      if window[n] !in keys { assert keys - {window[n]} == keys; }
    }
  }

  /** The map never outgrows the ring, even when a stale key is in the ring twice. */
  lemma MapWithinRing(w0: World, capacity: nat, ttl: Time, keys: seq<(Key, Time)>, w: World)
    requires Initial(w0, capacity) && w == Exec(w0, ttl, keys)
    ensures |w.st.entries| <= w.st.count <= capacity
  {
    EveryRunKeeps(w0, capacity, ttl, keys);
    var window := w.misses[|w.misses| - w.st.count..];
    forall k | k in w.st.entries ensures k in window {
      RememberedInWindow(w.misses, capacity, k);
      var i :| |w.misses| - capacity <= i < |w.misses| && 0 <= i && w.misses[i] == k;
      assert window[i - (|w.misses| - w.st.count)] == k;
    }
    FewDistinct(w.st.entries.Keys, window);
  }

  /** What Len counts: in every run, the misses up to the capacity, of which the map holds the remembered ones. */
  lemma LenIsMisses(w0: World, capacity: nat, ttl: Time, keys: seq<(Key, Time)>, w: World)
    requires Initial(w0, capacity) && w == Exec(w0, ttl, keys)
    ensures w.st.count == Min(|w.misses|, capacity)
    ensures |w.st.entries| == w.st.count ==> forall k :: InWindow(w.misses, capacity, k) ==> k in w.st.entries
  {
    EveryRunKeeps(w0, capacity, ttl, keys);
    MapWithinRing(w0, capacity, ttl, keys, w);
    if |w.st.entries| == w.st.count {
      var window := w.misses[|w.misses| - w.st.count..];
      forall k | InWindow(w.misses, capacity, k) ensures k in w.st.entries {
        WindowIsTail(w.misses, capacity, w.st.count, k);
        forall x | x in w.st.entries ensures x in window {
          RememberedInWindow(w.misses, capacity, x);
          WindowIsTail(w.misses, capacity, w.st.count, x);
        }
        FullOfKeys(w.st.entries.Keys, window, k);
      }
    }
  }

  /** As many keys as places: every place holds one of them. */
  lemma FullOfKeys(keys: set<Key>, window: seq<Key>, key: Key)
    requires |keys| == |window| && key in window && forall k :: k in keys ==> k in window
    ensures key in keys
  {
    if key !in keys {
      var i :| 0 <= i < |window| && window[i] == key;
      var rest := window[..i] + window[i + 1..];
      forall k | k in keys ensures k in rest {
        var j :| 0 <= j < |window| && window[j] == k;
        assert rest[if j < i then j else j - 1] == k;
      }
      FewDistinct(keys, rest);
      assert false;
    }
  }

  /** Two misses of one key have at least `capacity` misses between them. */
  ghost predicate Spaced(misses: seq<Key>, capacity: nat) {
    forall i, j :: 0 <= i < j < |misses| && misses[i] == misses[j] ==> j - i > capacity
  }

  lemma SpacedWindow(misses: seq<Key>, capacity: nat, key: Key)
    requires Spaced(misses, capacity) && capacity > 0
    ensures Remembered(misses, capacity, key) <==> InWindow(misses, capacity, key)
  {
    if Remembered(misses, capacity, key) { RememberedInWindow(misses, capacity, key); }
    if InWindow(misses, capacity, key) {
      assert key in misses;
      var i := LastMissExists(misses, key);
      var j :| |misses| - capacity <= j < |misses| && 0 <= j && misses[j] == key;
      assert j <= i;
      forall p | 0 <= p < |misses| && i - capacity < p < |misses| - capacity
        ensures misses[p] != key
      {
        assert p < i;
      }
    }
  }

  /** Whatever the TTL: while no key has been let through twice within a window, only expiry sets the two apart. */
  lemma WindowWhileSpaced(w0: World, capacity: nat, ttl: Time, keys: seq<(Key, Time)>, w: World, key: Key, now: Time)
    requires Initial(w0, capacity) && w == Exec(w0, ttl, keys) && Spaced(w.misses, capacity)
    ensures SeenAndAdd(w.st, ttl, key, now).seen <==>
      && InWindow(w.misses, capacity, key)
      && (ttl <= 0 || (LastCall(w.calls, key).Some? && LastCall(w.calls, key).value + ttl >= now))
  {
    ExactAnswer(w0, capacity, ttl, keys, w, key, now);
    SpacedWindow(w.misses, capacity, key);
  }

  /** Without expiry the detector is the sliding window over its own misses. */
  lemma {:induction false} WindowWithoutExpiry(w0: World, capacity: nat, ttl: Time, keys: seq<(Key, Time)>, w: World)
    requires Initial(w0, capacity) && w == Exec(w0, ttl, keys) && ttl <= 0
    ensures Spaced(w.misses, capacity)
    ensures forall key, now :: SeenAndAdd(w.st, ttl, key, now).seen <==> InWindow(w.misses, capacity, key)
  {
    EveryRunKeeps(w0, capacity, ttl, keys);
    if keys != [] {
      var n := |keys| - 1;
      var v := Exec(w0, ttl, keys[..n]);
      WindowWithoutExpiry(w0, capacity, ttl, keys[..n], v);
      if !SeenAndAdd(v.st, ttl, keys[n].0, keys[n].1).seen {
        SpacedSnoc(v.misses, capacity, keys[n].0);
      }
    }
    forall key, now ensures SeenAndAdd(w.st, ttl, key, now).seen <==> InWindow(w.misses, capacity, key) {
      SpacedWindow(w.misses, capacity, key);
    }
  }

  lemma {:induction false} AllDistinct(window: seq<Key>, keys: set<Key>)
    requires forall i, j :: 0 <= i < j < |window| ==> window[i] != window[j]
    requires forall k :: k in keys <==> k in window
    ensures |keys| == |window|
    decreases |window|
  {
    if window == [] {
      assert keys == {};
    } else {
      var n := |window| - 1;
      var rest := keys - {window[n]};
      assert window == window[..n] + [window[n]];
      assert window[n] !in window[..n];
      AllDistinct(window[..n], rest);
      assert keys == rest + {window[n]};
    }
  }

  ghost predicate At(s: State, d: nat, key: Key) {
    0 <= Behind(s.head, d, |s.ring|) < |s.ring| && s.ring[Behind(s.head, d, |s.ring|)] == key
  }

  /** Among the `count` ring places behind the head. */
  ghost predicate InRing(s: State, key: Key) { exists d: nat :: 1 <= d <= s.count && At(s, d, key) }

  /** Without expiry the map holds exactly the ring's keys, and these are distinct: its size is the count. */
  lemma RingIsMap(w0: World, capacity: nat, ttl: Time, keys: seq<(Key, Time)>, w: World)
    requires Initial(w0, capacity) && w == Exec(w0, ttl, keys) && ttl <= 0
    ensures |w.st.entries| == w.st.count
    ensures forall k :: k in w.st.entries <==> InRing(w.st, k)
  {
    EveryRunKeeps(w0, capacity, ttl, keys);
    WindowWithoutExpiry(w0, capacity, ttl, keys, w);
    var n := w.st.count;
    var window := w.misses[|w.misses| - n..];
    forall k ensures k in w.st.entries <==> k in window {
      SpacedWindow(w.misses, capacity, k);
      WindowIsTail(w.misses, capacity, n, k);
    }
    AllDistinct(window, w.st.entries.Keys);
    forall k ensures k in window <==> InRing(w.st, k) {
      TailIsRing(w.st, w.misses, k);
    }
  }

  lemma WindowIsTail(misses: seq<Key>, capacity: nat, n: nat, key: Key)
    requires n == if |misses| <= capacity then |misses| else capacity
    ensures InWindow(misses, capacity, key) <==> key in misses[|misses| - n..]
  {
    var tail := misses[|misses| - n..];
    if i :| |misses| - capacity <= i < |misses| && 0 <= i && misses[i] == key {
      assert tail[i - (|misses| - n)] == key;
    }
    if key in tail {
      var j :| 0 <= j < n && tail[j] == key;
      assert misses[|misses| - n + j] == key;
    }
  }

  lemma TailIsRing(s: State, misses: seq<Key>, key: Key)
    requires RingIs(s, misses)
    ensures key in misses[|misses| - s.count..] <==> InRing(s, key)
  {
    var n := s.count;
    var tail := misses[|misses| - n..];
    if key in tail {
      var j :| 0 <= j < n && tail[j] == key;
      var d := n - j;
      assert At(s, d, key);
    }
    if d: nat :| 1 <= d <= n && At(s, d, key) {
      assert tail[n - d] == key;
    }
  }

  lemma SpacedSnoc(misses: seq<Key>, capacity: nat, key: Key)
    requires Spaced(misses, capacity) && !InWindow(misses, capacity, key)
    ensures Spaced(misses + [key], capacity)
  {
    forall i | 0 <= i < |misses| && misses[i] == key
      ensures |misses| - i > capacity
    {
    }
  }

  /**
   With expiry the window law fails: a expires, is let through again, and the next
   miss b overwrites the first copy of a, so a third a within its TTL is let
   through although it is the last miss but one and the set has room for two.
   */
  lemma StaleCopyForgets(a: Key, b: Key, w0: World, w: World)
    requires a != b && Initial(w0, 2)
    requires w == Next(Next(Next(w0, 1, a, 0), 1, a, 5), 1, b, 5)
    ensures w.misses == [a, a, b] && InWindow(w.misses, 2, a) && LastCall(w.calls, a) == Some(5)
    ensures !SeenAndAdd(w.st, 1, a, 5).seen
  {
    assert w.misses[1] == a;
    var w2 := Next(Next(w0, 1, a, 0), 1, a, 5);
    LastCallSnoc(w2.calls, Call(b, 5, false), a);
    LastCallSnoc(Next(w0, 1, a, 0).calls, Call(a, 5, false), a);
  }

  /** A set without capacity answers false to every call of every run and records nothing. */
  lemma {:induction false} DisabledForgets(w0: World, ttl: Time, keys: seq<(Key, Time)>, key: Key, now: Time)
    requires w0.st.ring == []
    ensures Exec(w0, ttl, keys).st == w0.st && !SeenAndAdd(Exec(w0, ttl, keys).st, ttl, key, now).seen
  {
    if keys != [] {
      DisabledForgets(w0, ttl, keys[..|keys| - 1], key, now);
    }
  }
}
