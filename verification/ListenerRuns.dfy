/** What dedup and egress can and cannot change over whole runs of a worker. */
module ListenerRuns {
  import opened Common
  import opened ListenerSpec
  import TrackerSpec
  import DedupSpec
  import DedupWindow
  import Reassembly = ReassemblySpec

  /**
   A datagram of this worker, or something that happens to its components between
   datagrams: another worker's frame on the shared tracker, the tracker's sweeps
   and attempts, the buffer's ticks.
   */
  datatype Event =
    | Received(i: Input)
    | Observed(a: TrackerSpec.Arrival, now: Time, jitter: TrackerSpec.Jitter)
    | Filled(hashKey: uint64, seqNum: uint64)
    | Swept(visits: seq<TrackerSpec.Visit>, now: Time)
    | Dequeued
    | Cancelled(e: TrackerSpec.Gap)
    | Advanced(e: TrackerSpec.Gap, immediate: bool, numEndpoints: nat, now: Time)
    | Ticked(now: Time)
    | Purged

  function TrackerStep(cfg: TrackerSpec.Config, st: TrackerSpec.State, ev: Event): TrackerSpec.State {
    match ev
    case Observed(a, now, jitter) => TrackerSpec.Observe(cfg, st, a, now, jitter)
    case Filled(hk, q) => TrackerSpec.Fill(st, hk, q)
    case Swept(visits, now) => TrackerSpec.SweepAll(cfg, st, visits, now)
    case Dequeued => if st.queue == [] then st else st.(queue := st.queue[1..])
    case Cancelled(e) => TrackerSpec.CancelGap(st, e)
    case Advanced(e, immediate, n, now) => TrackerSpec.AdvanceEndpoint(cfg, st, e, immediate, n, now)
    case _ => st
  }

  function BufferStep(st: Reassembly.State, ev: Event): Reassembly.State {
    match ev
    case Ticked(now) => Reassembly.EvictExpired(st, now)
    case Purged => Reassembly.Purge(st)
    case _ => st
  }

  function Background(c: Setup, s: State, ev: Event): State {
    s.(tracker := match s.tracker case None => None case Some(t) => Some(TrackerStep(c.tracker, t, ev)),
       buffer := match s.buffer case None => None case Some(b) => Some(BufferStep(b, ev)))
  }

  function Step(c: Setup, s: State, zero: Id32, ev: Event): State {
    if ev.Received? then Process(c, s, zero, ev.i) else Background(c, s, ev)
  }

  function Exec(c: Setup, s: State, zero: Id32, events: seq<Event>): State {
    if events == [] then s else
      Step(c, Exec(c, s, zero, events[..|events| - 1]), zero, events[|events| - 1])
  }

  // ------------------------------------ The tracker sees the same frames

  /** The same gap tracker and the same reassembly buffer. */
  ghost predicate SameTracking(s: State, t: State) { s.tracker == t.tracker && s.buffer == t.buffer }

  /** The same datagram at the same moment; the sends may end differently. */
  ghost predicate SameButSends(i: Input, j: Input) {
    j == i.(unicastOk := j.unicastOk, multicastOk := j.multicastOk)
  }

  /** The same worker but for the dedup TTL and multicast egress. */
  ghost predicate SameButEgress(c: Setup, d: Setup) {
    && d.tracker == c.tracker && d.buffer == c.buffer && d.filter == c.filter
    && d.verifyPayloadHash == c.verifyPayloadHash && d.sha256d == c.sha256d && d.groupIndex == c.groupIndex
  }

  lemma ObserveSame(c: Setup, d: Setup, s: State, t: State, a: TrackerSpec.Arrival, i: Input, j: Input)
    requires SameTracking(s, t) && SameButEgress(c, d) && SameButSends(i, j)
    ensures SameTracking(Observe(c, s, a, i), Observe(d, t, a, j))
  {
  }

  /** Whatever dedup and the sends do, a passing stamped frame is observed once and a passing unstamped one not. */
  lemma FrameTracks(c: Setup, s: State, f: Frame, i: Input)
    ensures var a := TrackerSpec.Arrival(c.groupIndex(f.txID), f.subtreeID, f.hashKey, f.seqNum);
      SameTracking(OnFrame(c, s, f, i), if Passes(c, f, i) && f.v2 && f.seqNum != 0 then Observe(c, s, a, i) else s)
  {
  }

  lemma FrameSame(c: Setup, d: Setup, s: State, t: State, f: Frame, i: Input, j: Input)
    requires SameTracking(s, t) && SameButEgress(c, d) && SameButSends(i, j)
    ensures SameTracking(OnFrame(c, s, f, i), OnFrame(d, t, f, j))
  {
    FrameTracks(c, s, f, i);
    FrameTracks(d, t, f, j);
    ObserveSame(c, d, s, t, ArrivalOf(c, f), i, j);
  }

  lemma ControlSame(c: Setup, d: Setup, s: State, t: State, b: ControlFrame, zero: Id32, i: Input, j: Input)
    requires SameTracking(s, t) && SameButEgress(c, d) && SameButSends(i, j)
    ensures SameTracking(OnBlock(c, s, b, zero, i), OnBlock(d, t, b, zero, j))
    ensures SameTracking(OnSubtree(c, s, b, i), OnSubtree(d, t, b, j))
  {
    ObserveSame(c, d, s, t, TrackerSpec.Arrival(TrackerSpec.CTRL_GROUP_CONTROL, zero, b.hashKey, b.seqNum), i, j);
    ObserveSame(c, d, s, t, TrackerSpec.Arrival(TrackerSpec.CTRL_GROUP_SUBTREE, b.id, b.hashKey, b.seqNum), i, j);
  }

  lemma DeliverSame(c: Setup, d: Setup, s: State, t: State, x: Reassembly.Completion, zero: Id32, i: Input, j: Input)
    requires SameTracking(s, t) && SameButEgress(c, d) && SameButSends(i, j)
    ensures SameTracking(Deliver(c, s, x, zero, i), Deliver(d, t, x, zero, j))
  {
    ControlSame(c, d, s, t, Control(x), zero, i, j);
    DeliverFrameSame(c, d, s, t, Synthetic(x), i, j);
  }

  lemma DeliverFrameSame(c: Setup, d: Setup, s: State, t: State, f: Frame, i: Input, j: Input)
    requires SameTracking(s, t) && SameButEgress(c, d) && SameButSends(i, j)
    ensures SameTracking(DeliverFrame(c, s, f, i), DeliverFrame(d, t, f, j))
  {
    ObserveSame(c, d, s, t, ArrivalOf(c, f), i, j);
  }

  lemma FragmentSame(c: Setup, d: Setup, s: State, t: State, ff: Reassembly.Fragment, zero: Id32, i: Input, j: Input)
    requires SameTracking(s, t) && SameButEgress(c, d) && SameButSends(i, j)
    ensures SameTracking(OnFragment(c, s, ff, zero, i), OnFragment(d, t, ff, zero, j))
  {
    if s.buffer.Some? {
      var r := Reassembly.Observe(c.buffer, s.buffer.value, ff, i.now);
      if r.done.Some? {
        DeliverSame(c, d, s.(buffer := Some(r.st)), t.(buffer := Some(r.st)), r.done.value, zero, i, j);
      }
    }
  }

  lemma ProcessSame(c: Setup, d: Setup, s: State, t: State, zero: Id32, i: Input, j: Input)
    requires SameTracking(s, t) && SameButEgress(c, d) && SameButSends(i, j)
    ensures SameTracking(Process(c, s, zero, i), Process(d, t, zero, j))
  {
    match i.d
    case BlockControl(b) => if b.Some? { ControlSame(c, d, s, t, b.value, zero, i, j); }
    case SubtreeData(b) => if b.Some? { ControlSame(c, d, s, t, b.value, zero, i, j); }
    case Fragment(ff) => if ff.Some? { FragmentSame(c, d, s, t, ff.value, zero, i, j); }
    case Transaction(f) => if f.Some? { FrameSame(c, d, s, t, f.value, i, j); }
  }

  /**
   Over every run, sweeps and attempts between the datagrams included: the tracker
   and the reassembly buffer end up the same with dedup on, off, or of any capacity
   and TTL, and whatever the sends returned.
   */
  lemma {:induction false} TrackingIgnoresEgress(c: Setup, d: Setup, s: State, t: State, zero: Id32,
                                                 es: seq<Event>, fs: seq<Event>)
    requires SameTracking(s, t) && SameButEgress(c, d) && |es| == |fs|
    requires forall k :: 0 <= k < |es| ==> SameEvent(es[k], fs[k])
    ensures SameTracking(Exec(c, s, zero, es), Exec(d, t, zero, fs))
  {
    if es != [] {
      var n := |es| - 1;
      TrackingIgnoresEgress(c, d, s, t, zero, es[..n], fs[..n]);
      StepSame(c, d, Exec(c, s, zero, es[..n]), Exec(d, t, zero, fs[..n]), zero, es[n], fs[n]);
    }
  }

  /** The same event, but for the outcome of sends. */
  ghost predicate SameEvent(e: Event, f: Event) {
    if e.Received? then f.Received? && SameButSends(e.i, f.i) else f == e
  }

  lemma StepSame(c: Setup, d: Setup, s: State, t: State, zero: Id32, e: Event, f: Event)
    requires SameTracking(s, t) && SameButEgress(c, d) && SameEvent(e, f)
    ensures SameTracking(Step(c, s, zero, e), Step(d, t, zero, f))
  {
    if e.Received? {
      ProcessSame(c, d, s, t, zero, e.i, f.i);
    }
  }

  // ----------------------------------------------- Dedup only takes away

  /** xs is ys with some elements left out. */
  ghost predicate Thinned(xs: seq<Out>, ys: seq<Out>) {
    if ys == [] then xs == [] else
      || (xs != [] && xs[|xs| - 1] == ys[|ys| - 1] && Thinned(xs[..|xs| - 1], ys[..|ys| - 1]))
      || Thinned(xs, ys[..|ys| - 1])
  }

  lemma ThinnedSnoc(xs: seq<Out>, ys: seq<Out>, y: Out)
    requires Thinned(xs, ys)
    ensures Thinned(xs + [y], ys + [y]) && Thinned(xs, ys + [y])
  {
    assert (ys + [y])[..|ys|] == ys && (xs + [y])[..|xs|] == xs;
  }

  /** What a step hands out beyond what it inherited. */
  ghost predicate HandsSame(s: State, s': State, t: State, t': State) {
    (s'.handed == s.handed && t'.handed == t.handed) ||
    exists y :: s'.handed == s.handed + [y] && t'.handed == t.handed + [y]
  }

  lemma FrameHands(c: Setup, s: State, f: Frame, i: Input)
    ensures OnFrame(c, s, f, i).handed == s.handed ||
      (Passes(c, f, i) && OnFrame(c, s, f, i).handed == s.handed + [OutFrame(f)])
  {
  }

  lemma UndedupedHands(c: Setup, t: State, f: Frame, i: Input)
    requires t.dedup.None?
    ensures OnFrame(c, t, f, i).dedup.None?
    ensures OnFrame(c, t, f, i).handed == if Passes(c, f, i) then t.handed + [OutFrame(f)] else t.handed
  {
  }

  /** The worker without dedup hands out the frame; the one with dedup may not. */
  lemma FrameThins(c: Setup, s: State, t: State, f: Frame, i: Input)
    requires t.dedup.None? && Thinned(s.handed, t.handed)
    ensures Thinned(OnFrame(c, s, f, i).handed, OnFrame(c, t, f, i).handed) && OnFrame(c, t, f, i).dedup.None?
  {
    FrameHands(c, s, f, i);
    UndedupedHands(c, t, f, i);
    ThinnedSnoc(s.handed, t.handed, OutFrame(f));
  }

  lemma DeliverHandsSame(c: Setup, s: State, t: State, x: Reassembly.Completion, zero: Id32, i: Input)
    ensures HandsSame(s, Deliver(c, s, x, zero, i), t, Deliver(c, t, x, zero, i))
    ensures Deliver(c, t, x, zero, i).dedup == t.dedup && Deliver(c, s, x, zero, i).dedup == s.dedup
  {
  }

  lemma HandsSameThins(s: State, s': State, t: State, t': State)
    requires Thinned(s.handed, t.handed) && HandsSame(s, s', t, t')
    ensures Thinned(s'.handed, t'.handed)
  {
    if !(s'.handed == s.handed && t'.handed == t.handed) {
      var y :| s'.handed == s.handed + [y] && t'.handed == t.handed + [y];
      ThinnedSnoc(s.handed, t.handed, y);
    }
  }

  lemma FragmentHandsSame(c: Setup, s: State, t: State, ff: Reassembly.Fragment, zero: Id32, i: Input)
    requires SameTracking(s, t)
    ensures HandsSame(s, OnFragment(c, s, ff, zero, i), t, OnFragment(c, t, ff, zero, i))
    ensures OnFragment(c, t, ff, zero, i).dedup == t.dedup && OnFragment(c, s, ff, zero, i).dedup == s.dedup
  {
    if s.buffer.Some? {
      var r := Reassembly.Observe(c.buffer, s.buffer.value, ff, i.now);
      if r.done.Some? {
        DeliverHandsSame(c, s.(buffer := Some(r.st)), t.(buffer := Some(r.st)), r.done.value, zero, i);
      }
    }
  }

  lemma ControlHandsSame(c: Setup, s: State, t: State, b: ControlFrame, zero: Id32, i: Input)
    ensures HandsSame(s, OnBlock(c, s, b, zero, i), t, OnBlock(c, t, b, zero, i))
    ensures HandsSame(s, OnSubtree(c, s, b, i), t, OnSubtree(c, t, b, i))
    ensures OnBlock(c, t, b, zero, i).dedup == t.dedup && OnSubtree(c, t, b, i).dedup == t.dedup
    ensures OnBlock(c, s, b, zero, i).dedup == s.dedup && OnSubtree(c, s, b, i).dedup == s.dedup
  {
  }

  lemma ProcessThins(c: Setup, s: State, t: State, zero: Id32, i: Input)
    requires SameTracking(s, t) && t.dedup.None? && Thinned(s.handed, t.handed)
    ensures Thinned(Process(c, s, zero, i).handed, Process(c, t, zero, i).handed) && Process(c, t, zero, i).dedup.None?
  {
    match i.d
    case BlockControl(b) =>
      if b.Some? {
        ControlHandsSame(c, s, t, b.value, zero, i);
        HandsSameThins(s, OnBlock(c, s, b.value, zero, i), t, OnBlock(c, t, b.value, zero, i));
      }
    case SubtreeData(b) =>
      if b.Some? {
        ControlHandsSame(c, s, t, b.value, zero, i);
        HandsSameThins(s, OnSubtree(c, s, b.value, i), t, OnSubtree(c, t, b.value, i));
      }
    case Fragment(ff) =>
      if ff.Some? {
        FragmentHandsSame(c, s, t, ff.value, zero, i);
        HandsSameThins(s, OnFragment(c, s, ff.value, zero, i), t, OnFragment(c, t, ff.value, zero, i));
      }
    case Transaction(f) => if f.Some? { FrameThins(c, s, t, f.value, i); }
  }

  lemma StepThins(c: Setup, s: State, t: State, zero: Id32, ev: Event)
    requires SameTracking(s, t) && t.dedup.None? && Thinned(s.handed, t.handed)
    ensures Thinned(Step(c, s, zero, ev).handed, Step(c, t, zero, ev).handed) && Step(c, t, zero, ev).dedup.None?
  {
    if ev.Received? {
      ProcessThins(c, s, t, zero, ev.i);
    }
  }

  lemma TrackingIgnoresDedup(c: Setup, s: State, t: State, zero: Id32, events: seq<Event>)
    requires SameTracking(s, t)
    ensures SameTracking(Exec(c, s, zero, events), Exec(c, t, zero, events))
  {
    assert forall k :: 0 <= k < |events| ==> SameEvent(events[k], events[k]);
    TrackingIgnoresEgress(c, c, s, t, zero, events, events);
  }

  /** Over every run, egress with dedup is egress without it, with some frames left out and the order kept. */
  lemma {:induction false} DedupOnlyThins(c: Setup, s: State, t: State, zero: Id32, events: seq<Event>)
    requires SameTracking(s, t) && t.dedup.None? && Thinned(s.handed, t.handed)
    ensures Thinned(Exec(c, s, zero, events).handed, Exec(c, t, zero, events).handed)
    ensures Exec(c, t, zero, events).dedup.None?
  {
    if events != [] {
      var n := |events| - 1;
      DedupOnlyThins(c, s, t, zero, events[..n]);
      TrackingIgnoresDedup(c, s, t, zero, events[..n]);
      StepThins(c, Exec(c, s, zero, events[..n]), Exec(c, t, zero, events[..n]), zero, events[n]);
    }
  }

  // -------------------------------------- What is left out, and only that

  /** The dedup keys of the stamped frames handed out, in order. */
  function Keys(c: Setup, handed: seq<Out>): seq<DedupSpec.Key> {
    if handed == [] then [] else
      var last := handed[|handed| - 1];
      Keys(c, handed[..|handed| - 1]) + if last.OutFrame? && Stamped(last.f) then [KeyOf(c, last.f)] else []
  }

  lemma KeysSnoc(c: Setup, handed: seq<Out>, out: Out)
    ensures Keys(c, handed + [out]) ==
      if out.OutFrame? && Stamped(out.f) then Keys(c, handed) + [KeyOf(c, out.f)] else Keys(c, handed)
  {
    assert (handed + [out])[..|handed|] == handed;
  }

  /** The dedup set's misses are the keys of the stamped frames handed out. */
  ghost predicate Mirrors(c: Setup, s: State, w: DedupWindow.World, capacity: nat) {
    && s.dedup == Some(w.st) && w.misses == Keys(c, s.handed)
    && DedupWindow.Inv(w, capacity, c.dedupTTL)
  }

  /** The frame reaches the dedup set. */
  ghost predicate Deduped(c: Setup, ev: Event) {
    ev.Received? && ev.i.d.Transaction? && ev.i.d.f.Some? && Passes(c, ev.i.d.f.value, ev.i) && Stamped(ev.i.d.f.value)
  }

  /** The dedup set fed with the passing stamped frames of the run, at their times, and with nothing else. */
  ghost function Replay(c: Setup, w: DedupWindow.World, events: seq<Event>): DedupWindow.World {
    if events == [] then w else
      var ev := events[|events| - 1];
      var before := Replay(c, w, events[..|events| - 1]);
      if Deduped(c, ev) then DedupWindow.Next(before, c.dedupTTL, KeyOf(c, ev.i.d.f.value), ev.i.now) else before
  }

  /** When the last passing stamped frame with this key arrived. */
  ghost function LastArrived(c: Setup, events: seq<Event>, key: DedupSpec.Key): Option<Time> {
    if events == [] then None else
      var ev := events[|events| - 1];
      if Deduped(c, ev) && KeyOf(c, ev.i.d.f.value) == key then Some(ev.i.now)
      else LastArrived(c, events[..|events| - 1], key)
  }

  lemma {:induction false} LastArrivedIsLastCall(c: Setup, w: DedupWindow.World, events: seq<Event>, key: DedupSpec.Key)
    requires w.calls == []
    ensures DedupWindow.LastCall(Replay(c, w, events).calls, key) == LastArrived(c, events, key)
  {
    if events != [] {
      var n := |events| - 1;
      LastArrivedIsLastCall(c, w, events[..n], key);
      var before, ev := Replay(c, w, events[..n]), events[n];
      if Deduped(c, ev) {
        var after := DedupWindow.Next(before, c.dedupTTL, KeyOf(c, ev.i.d.f.value), ev.i.now);
        DedupWindow.LastCallSnoc(before.calls, after.calls[|before.calls|], key);
      }
    }
  }

  ghost predicate StartsEmpty(s: State, capacity: nat) {
    s.dedup.Some? && s.handed == [] && DedupWindow.Initial(Empty(s), capacity)
  }

  ghost function Empty(s: State): DedupWindow.World
    requires s.dedup.Some?
  {
    DedupWindow.World(s.dedup.value, [], [])
  }

  /** The frame is handed out. */
  ghost predicate HandedOut(s: State, s': State, f: Frame) { s'.handed == s.handed + [OutFrame(f)] }

  /** The dedup test decides between handing the frame out and keeping it back. */
  lemma FreshIsKeptBack(c: Setup, s: State, f: Frame, i: Input)
    requires Passes(c, f, i) && Stamped(f) && s.dedup.Some?
    ensures var s' := OnFrame(c, s, f, i);
      if DedupSpec.SeenAndAdd(s.dedup.value, c.dedupTTL, KeyOf(c, f), i.now).seen
      then s'.handed == s.handed else HandedOut(s, s', f)
  {
  }

  /**
   The exact rule, after every run: a stamped frame that passes the filter is kept
   back exactly when its key is still remembered from the frames handed out and the
   last frame with that key arrived within the TTL.
   */
  lemma KeptBackIff(c: Setup, s0: State, zero: Id32, events: seq<Event>, s: State, capacity: nat, f: Frame, i: Input)
    requires StartsEmpty(s0, capacity) && s == Exec(c, s0, zero, events) && Passes(c, f, i) && Stamped(f)
    ensures var s' := OnFrame(c, s, f, i);
      && (HandedOut(s, s', f) || s'.handed == s.handed)
      && (s'.handed == s.handed <==>
          DedupWindow.Remembered(Keys(c, s.handed), capacity, KeyOf(c, f)) &&
          (c.dedupTTL <= 0 ||
           (LastArrived(c, events, KeyOf(c, f)).Some? &&
            LastArrived(c, events, KeyOf(c, f)).value + c.dedupTTL >= i.now)))
  {
    EveryRunMirrors(c, s0, zero, events, capacity);
    LastArrivedIsLastCall(c, Empty(s0), events, KeyOf(c, f));
    FreshIsKeptBack(c, s, f, i);
    assert s.handed + [OutFrame(f)] != s.handed;
  }

  /** A frame kept back has a twin: one of the last `capacity` stamped frames handed out has the same key. */
  lemma KeptBackHasTwin(c: Setup, s0: State, zero: Id32, events: seq<Event>, s: State, capacity: nat, f: Frame,
                        i: Input)
    requires StartsEmpty(s0, capacity) && s == Exec(c, s0, zero, events) && Passes(c, f, i) && Stamped(f)
    requires OnFrame(c, s, f, i).handed == s.handed
    ensures DedupWindow.InWindow(Keys(c, s.handed), capacity, KeyOf(c, f))
  {
    KeptBackIff(c, s0, zero, events, s, capacity, f, i);
    DedupWindow.RememberedInWindow(Keys(c, s.handed), capacity, KeyOf(c, f));
  }

  /**
   The key leaves out the sender: after every run, a frame of one sender keeps back
   the frame of another that carries the same group, subtree and number within the TTL.
   */
  lemma OtherSenderKeptBack(c: Setup, s0: State, zero: Id32, events: seq<Event>, s: State, capacity: nat,
                            f: Frame, g: Frame, i: Input, j: Input)
    requires StartsEmpty(s0, capacity) && s == Exec(c, s0, zero, events)
    requires c.dedupTTL <= 0 || j.now <= i.now + c.dedupTTL
    requires Passes(c, f, i) && Passes(c, g, j) && Stamped(f) && Stamped(g)
    requires KeyOf(c, f) == KeyOf(c, g) && f.hashKey != g.hashKey
    ensures OnFrame(c, OnFrame(c, s, f, i), g, j).handed == OnFrame(c, s, f, i).handed
  {
    EveryRunMirrors(c, s0, zero, events, capacity);
    var s' := OnFrame(c, s, f, i);
    assert s'.dedup == Some(DedupSpec.SeenAndAdd(s.dedup.value, c.dedupTTL, KeyOf(c, f), i.now).st);
    FreshIsKeptBack(c, s', g, j);
  }

  lemma FrameMirrors(c: Setup, s: State, w: DedupWindow.World, capacity: nat, f: Frame, i: Input)
    requires Mirrors(c, s, w, capacity) && Passes(c, f, i) && Stamped(f)
    ensures Mirrors(c, OnFrame(c, s, f, i), DedupWindow.Next(w, c.dedupTTL, KeyOf(c, f), i.now), capacity)
  {
    var key := KeyOf(c, f);
    KeysSnoc(c, s.handed, OutFrame(f));
    FreshIsKeptBack(c, s, f, i);
    if DedupSpec.Fresh(w.st, c.dedupTTL, key, i.now) {
      DedupWindow.HitKeeps(w, capacity, c.dedupTTL, key, i.now);
    } else {
      DedupWindow.MissKeeps(w, capacity, c.dedupTTL, key, i.now);
    }
  }

  lemma UntrackedMirrors(c: Setup, s: State, w: DedupWindow.World, capacity: nat, f: Frame, i: Input)
    requires Mirrors(c, s, w, capacity) && !(Passes(c, f, i) && Stamped(f))
    ensures Mirrors(c, OnFrame(c, s, f, i), w, capacity)
  {
    KeysSnoc(c, s.handed, OutFrame(f));
  }

  /** Handing out anything but a stamped inline frame leaves the keys alone. */
  ghost predicate AddsNoKey(s: State, s': State) {
    && s'.dedup == s.dedup
    && (s'.handed == s.handed || exists y :: s'.handed == s.handed + [y] && !y.OutFrame?)
  }

  lemma AddsNoKeyMirrors(c: Setup, s: State, s': State, w: DedupWindow.World, capacity: nat)
    requires Mirrors(c, s, w, capacity) && AddsNoKey(s, s')
    ensures Mirrors(c, s', w, capacity)
  {
    if s'.handed != s.handed {
      var y :| s'.handed == s.handed + [y] && !y.OutFrame?;
      KeysSnoc(c, s.handed, y);
    }
  }

  lemma ControlAddsNoKey(c: Setup, s: State, b: ControlFrame, zero: Id32, i: Input)
    ensures AddsNoKey(s, OnBlock(c, s, b, zero, i)) && AddsNoKey(s, OnSubtree(c, s, b, i))
  {
    assert OnBlock(c, s, b, zero, i).handed == s.handed + [OutBlock(b)];
    assert OnSubtree(c, s, b, i).handed == s.handed + [OutSubtree(b)];
  }

  lemma DeliverAddsNoKey(c: Setup, s: State, x: Reassembly.Completion, zero: Id32, i: Input)
    ensures AddsNoKey(s, Deliver(c, s, x, zero, i))
  {
    ControlAddsNoKey(c, s, Control(x), zero, i);
    var s' := Deliver(c, s, x, zero, i);
    assert s'.handed == s.handed + [OutReassembled(Synthetic(x))] ==> AddsNoKey(s, s');
  }

  lemma FragmentAddsNoKey(c: Setup, s: State, ff: Reassembly.Fragment, zero: Id32, i: Input)
    ensures AddsNoKey(s, OnFragment(c, s, ff, zero, i))
  {
    if s.buffer.Some? {
      var r := Reassembly.Observe(c.buffer, s.buffer.value, ff, i.now);
      if r.done.Some? { DeliverAddsNoKey(c, s.(buffer := Some(r.st)), r.done.value, zero, i); }
    }
  }

  lemma OthersAddNoKey(c: Setup, s: State, zero: Id32, i: Input)
    requires !i.d.Transaction?
    ensures AddsNoKey(s, Process(c, s, zero, i))
  {
    match i.d
    case BlockControl(b) => if b.Some? { ControlAddsNoKey(c, s, b.value, zero, i); }
    case SubtreeData(b) => if b.Some? { ControlAddsNoKey(c, s, b.value, zero, i); }
    case Fragment(ff) => if ff.Some? { FragmentAddsNoKey(c, s, ff.value, zero, i); }
  }

  lemma StepMirrors(c: Setup, s: State, zero: Id32, w: DedupWindow.World, capacity: nat, ev: Event)
    requires Mirrors(c, s, w, capacity)
    ensures Mirrors(c, Step(c, s, zero, ev),
                    if Deduped(c, ev) then DedupWindow.Next(w, c.dedupTTL, KeyOf(c, ev.i.d.f.value), ev.i.now) else w,
                    capacity)
  {
    if ev.Received? {
      var i := ev.i;
      if !i.d.Transaction? {
        OthersAddNoKey(c, s, zero, i);
        AddsNoKeyMirrors(c, s, Process(c, s, zero, i), w, capacity);
      } else if Deduped(c, ev) {
        FrameMirrors(c, s, w, capacity, i.d.f.value, i);
      } else if i.d.f.Some? {
        UntrackedMirrors(c, s, w, capacity, i.d.f.value, i);
      }
    }
  }

  /**
   Over every run of a worker that starts with an empty dedup set, the set is the
   replay of the passing stamped frames, and its misses are the keys handed out.
   */
  lemma {:induction false} EveryRunMirrors(c: Setup, s: State, zero: Id32, events: seq<Event>, capacity: nat)
    requires StartsEmpty(s, capacity)
    ensures Mirrors(c, Exec(c, s, zero, events), Replay(c, Empty(s), events), capacity)
  {
    if events == [] {
      DedupWindow.EveryRunKeeps(Empty(s), capacity, c.dedupTTL, []);
    } else {
      var n := |events| - 1;
      EveryRunMirrors(c, s, zero, events[..n], capacity);
      StepMirrors(c, Exec(c, s, zero, events[..n]), zero, Replay(c, Empty(s), events[..n]), capacity, events[n]);
    }
  }
}
