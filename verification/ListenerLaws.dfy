/**
 What one datagram does to a worker, told in the fields of the frames: which arrival
 the tracker sees, which key the dedup set sees, and what is handed out.
 */
module ListenerLaws {
  import opened Common
  import opened ListenerSpec
  import opened ListenerRuns
  import Filter
  import TrackerSpec
  import DedupSpec
  import ReassemblyLaws
  import Reassembly = ReassemblySpec

  /** The tracker after one observation with these fields, if there is a tracker. */
  ghost predicate Tracked(c: Setup, s: State, s': State, i: Input, groupIdx: uint32, subtreeID: Id32,
                          hashKey: uint64, seqNum: uint64) {
    s'.tracker == match s.tracker
                  case None => None
                  case Some(t) => Some(TrackerSpec.Observe(c.tracker, t,
                                  TrackerSpec.Arrival(groupIdx, subtreeID, hashKey, seqNum), i.now, i.jitter))
  }

  /** The failed sends of one hand-out. */
  ghost function Failures(c: Setup, i: Input): nat {
    if i.unicastOk then (if c.multicast && !i.multicastOk then 1 else 0)
    else if c.multicast && !i.multicastOk then 2 else 1
  }

  /** The frame survives: its hash fits if that is checked, and the filter has no objection. */
  ghost predicate Admitted(c: Setup, f: Frame, i: Input) {
    && (c.verifyPayloadHash && f.v2 ==> c.sha256d(f.payload) == f.txID)
    && Filter.Verdict(c.filter, c.groupIndex(f.txID), f.subtreeID, i.groups, i.now) == None
  }

  /** A refused transaction frame, and an undecodable datagram, change nothing. */
  lemma RefusedLaw(c: Setup, s: State, zero: Id32, i: Input)
    requires match i.d
      case BlockControl(b) => b.None?
      case SubtreeData(d) => d.None?
      case Fragment(ff) => ff.None? || s.buffer.None?
      case Transaction(f) => f.None? || !Admitted(c, f.value, i)
    ensures Process(c, s, zero, i) == s
  {
  }

  /** An unstamped frame is handed out and seen by neither tracker nor dedup set. */
  lemma UnstampedLaw(c: Setup, s: State, zero: Id32, i: Input, f: Frame, s': State)
    requires i.d == Transaction(Some(f)) && Admitted(c, f, i) && (!f.v2 || f.seqNum == 0)
    requires s' == Process(c, s, zero, i)
    ensures s' == s.(handed := s.handed + [OutFrame(f)], errors := s.errors + Failures(c, i))
  {
  }

  /**
   A stamped frame: the tracker sees it under its own sender and number, the dedup set
   under group, subtree and number, and it is handed out unless the set has seen it.
   */
  lemma StampedLaw(c: Setup, s: State, zero: Id32, i: Input, f: Frame, s': State)
    requires i.d == Transaction(Some(f)) && Admitted(c, f, i) && f.v2 && f.seqNum != 0 && s' == Process(c, s, zero, i)
    ensures Tracked(c, s, s', i, c.groupIndex(f.txID), f.subtreeID, f.hashKey, f.seqNum) && s'.buffer == s.buffer
    ensures match s.dedup
      case None => s'.dedup == None && Handed(c, s, s', i, f)
      case Some(d) =>
        var a := DedupSpec.SeenAndAdd(d, c.dedupTTL, DedupSpec.Key(c.groupIndex(f.txID), f.subtreeID, f.seqNum), i.now);
        s'.dedup == Some(a.st) && if a.seen then s'.handed == s.handed && s'.errors == s.errors
                                  else Handed(c, s, s', i, f)
  {
    assert Passes(c, f, i) && Stamped(f);
  }

  ghost predicate Handed(c: Setup, s: State, s': State, i: Input, f: Frame) {
    s'.handed == s.handed + [OutFrame(f)] && s'.errors == s.errors + Failures(c, i)
  }

  /** A block frame: unicast only, tracked under group 0xFFFE and the zero subtree if it is stamped. */
  ghost predicate BlockHanded(c: Setup, s: State, s': State, i: Input, b: ControlFrame, zero: Id32) {
    && s'.handed == s.handed + [OutBlock(b)] && s'.errors == s.errors + (if i.unicastOk then 0 else 1)
    && s'.dedup == s.dedup
    && (if b.seqNum == 0 then s'.tracker == s.tracker else Tracked(c, s, s', i, 0xFFFE, zero, b.hashKey, b.seqNum))
  }

  /** A subtree data frame: unicast only, tracked under group 0xFFFB and its own id if it is stamped. */
  ghost predicate SubtreeHanded(c: Setup, s: State, s': State, i: Input, d: ControlFrame) {
    && s'.handed == s.handed + [OutSubtree(d)] && s'.errors == s.errors + (if i.unicastOk then 0 else 1)
    && s'.dedup == s.dedup
    && (if d.seqNum == 0 then s'.tracker == s.tracker else Tracked(c, s, s', i, 0xFFFB, d.id, d.hashKey, d.seqNum))
  }

  lemma BlockLaw(c: Setup, s: State, zero: Id32, i: Input, b: ControlFrame, s': State)
    requires i.d == BlockControl(Some(b)) && s' == Process(c, s, zero, i)
    ensures BlockHanded(c, s, s', i, b, zero) && s'.buffer == s.buffer
  {
  }

  lemma SubtreeLaw(c: Setup, s: State, zero: Id32, i: Input, d: ControlFrame, s': State)
    requires i.d == SubtreeData(Some(d)) && s' == Process(c, s, zero, i)
    ensures SubtreeHanded(c, s, s', i, d) && s'.buffer == s.buffer
  {
  }

  /** A reassembled transaction: filtered, handed out with the slot's stamps, tracked, and never deduplicated. */
  ghost predicate FrameDelivered(c: Setup, s: State, s': State, i: Input, x: Reassembly.Completion) {
    && s'.dedup == s.dedup
    && if Filter.Verdict(c.filter, c.groupIndex(x.slot.txID), x.slot.subtreeID, i.groups, i.now) != None || !i.encodes
       then s'.handed == s.handed && s'.errors == s.errors && s'.tracker == s.tracker
       else
         && s'.handed == s.handed + [OutReassembled(Frame(true, x.slot.txID, x.slot.hashKey, x.slot.seqNum,
                                                          x.slot.subtreeID, x.payload))]
         && s'.errors == s.errors + Failures(c, i)
         && (if x.slot.seqNum == 0 then s'.tracker == s.tracker
             else Tracked(c, s, s', i, c.groupIndex(x.slot.txID), x.slot.subtreeID, x.slot.hashKey, x.slot.seqNum))
  }

  /** What a delivered completion does, by original version. */
  ghost predicate Delivery(c: Setup, s: State, s': State, i: Input, x: Reassembly.Completion, zero: Id32) {
    var frame := ControlFrame(x.slot.txID, x.slot.hashKey, x.slot.seqNum);
    if x.slot.origFrameVer != 4 && x.slot.origFrameVer != 5 then FrameDelivered(c, s, s', i, x)
    else if !i.encodes then s' == s.(buffer := s'.buffer)
    else if x.slot.origFrameVer == 4 then BlockHanded(c, s, s', i, frame, zero)
    else SubtreeHanded(c, s, s', i, frame)
  }

  /** A fragment: the buffer observes it, and only a delivered completion has further effects. */
  lemma FragmentLaw(c: Setup, s: State, zero: Id32, i: Input, ff: Reassembly.Fragment, s': State)
    requires i.d == Fragment(Some(ff)) && s.buffer.Some? && s' == Process(c, s, zero, i)
    ensures var r := Reassembly.Observe(c.buffer, s.buffer.value, ff, i.now);
      && s'.buffer == Some(r.st)
      && (if r.done.Some? && r.done.value.verdict == Reassembly.Delivered
          then Delivery(c, s, s', i, r.done.value, zero)
          else s' == s.(buffer := Some(r.st)))
  {
    var r := Reassembly.Observe(c.buffer, s.buffer.value, ff, i.now);
    if r.done.Some? && r.done.value.verdict == Reassembly.Delivered {
      DeliverLaw(c, s.(buffer := Some(r.st)), r.done.value, zero, i);
    }
  }

  lemma DeliverLaw(c: Setup, s: State, x: Reassembly.Completion, zero: Id32, i: Input)
    ensures Delivery(c, s, Deliver(c, s, x, zero, i), i, x, zero) && Deliver(c, s, x, zero, i).buffer == s.buffer
  {
    if x.slot.origFrameVer != 4 && x.slot.origFrameVer != 5 {
      DeliverFrameLaw(c, s, x, i);
    }
  }

  lemma DeliverFrameLaw(c: Setup, s: State, x: Reassembly.Completion, i: Input)
    ensures FrameDelivered(c, s, DeliverFrame(c, s, Synthetic(x), i), i, x)
    ensures DeliverFrame(c, s, Synthetic(x), i).buffer == s.buffer
  {
  }

  // ------------------------------------------------- Reassembled frames in runs

  /** The fragments received so far. */
  ghost function Fragments(events: seq<Event>): seq<Reassembly.Fragment> {
    if events == [] then [] else
      var ev := events[|events| - 1];
      Fragments(events[..|events| - 1]) +
      if ev.Received? && ev.i.d.Fragment? && ev.i.d.ff.Some? then [ev.i.d.ff.value] else []
  }

  /** The frame's id and stamps are those of one received fragment. */
  ghost predicate Stamps(ff: Reassembly.Fragment, f: Frame) {
    ff.txID == f.txID && ff.hashKey == f.hashKey && ff.seqNum == f.seqNum && ff.subtreeID == f.subtreeID
  }

  ghost predicate FromFragment(arrived: seq<Reassembly.Fragment>, f: Frame) {
    exists k :: 0 <= k < |arrived| && Stamps(arrived[k], f)
  }

  ghost predicate OutsSourced(arrived: seq<Reassembly.Fragment>, handed: seq<Out>) {
    forall k :: 0 <= k < |handed| && handed[k].OutReassembled? ==> FromFragment(arrived, handed[k].f)
  }

  ghost predicate BufferSourced(arrived: seq<Reassembly.Fragment>, s: State) {
    s.buffer.Some? ==> ReassemblyLaws.AllSourced(arrived, s.buffer.value.slots)
  }

  lemma OutsLater(arrived: seq<Reassembly.Fragment>, ff: Reassembly.Fragment, handed: seq<Out>)
    requires OutsSourced(arrived, handed)
    ensures OutsSourced(arrived + [ff], handed)
  {
    forall k | 0 <= k < |handed| && handed[k].OutReassembled? ensures FromFragment(arrived + [ff], handed[k].f) {
      var j :| 0 <= j < |arrived| && Stamps(arrived[j], handed[k].f);
      assert Stamps((arrived + [ff])[j], handed[k].f);
    }
  }

  lemma FragmentSourced(c: Setup, s: State, zero: Id32, i: Input, ff: Reassembly.Fragment,
                        arrived: seq<Reassembly.Fragment>)
    requires i.d == Fragment(Some(ff)) && BufferSourced(arrived, s) && OutsSourced(arrived, s.handed)
    ensures BufferSourced(arrived + [ff], Process(c, s, zero, i))
    ensures OutsSourced(arrived + [ff], Process(c, s, zero, i).handed)
  {
    OutsLater(arrived, ff, s.handed);
    if s.buffer.Some? {
      var s' := Process(c, s, zero, i);
      var r := Reassembly.Observe(c.buffer, s.buffer.value, ff, i.now);
      FragmentLaw(c, s, zero, i, ff, s');
      ReassemblyLaws.ObserveSourced(c.buffer, s.buffer.value, ff, i.now, arrived);
      if r.done.Some? && r.done.value.verdict == Reassembly.Delivered {
        DeliverySourced(c, s, s', i, r.done.value, zero, arrived + [ff]);
      }
    }
  }

  lemma DeliverySourced(c: Setup, s: State, s': State, i: Input, x: Reassembly.Completion, zero: Id32,
                        arrived: seq<Reassembly.Fragment>)
    requires Delivery(c, s, s', i, x, zero) && ReassemblyLaws.Sourced(arrived, x.slot) && OutsSourced(arrived, s.handed)
    ensures OutsSourced(arrived, s'.handed)
  {
    var k :| 0 <= k < |arrived| && ReassemblyLaws.Opens(arrived[k], x.slot);
    var f := Frame(true, x.slot.txID, x.slot.hashKey, x.slot.seqNum, x.slot.subtreeID, x.payload);
    assert Stamps(arrived[k], f);
    assert FromFragment(arrived, f);
  }

  lemma OtherInputSourced(c: Setup, s: State, zero: Id32, i: Input, arrived: seq<Reassembly.Fragment>)
    requires !(i.d.Fragment? && i.d.ff.Some?) && BufferSourced(arrived, s) && OutsSourced(arrived, s.handed)
    ensures BufferSourced(arrived, Process(c, s, zero, i)) && OutsSourced(arrived, Process(c, s, zero, i).handed)
  {
    match i.d
    case BlockControl(b) => if b.Some? { BlockLaw(c, s, zero, i, b.value, Process(c, s, zero, i)); }
    case SubtreeData(d) => if d.Some? { SubtreeLaw(c, s, zero, i, d.value, Process(c, s, zero, i)); }
    case Fragment(ff) =>
    case Transaction(f) => if f.Some? { FrameHands(c, s, f.value, i); FrameTracks(c, s, f.value, i); }
  }

  lemma BackgroundSourced(c: Setup, s: State, ev: Event, arrived: seq<Reassembly.Fragment>)
    requires BufferSourced(arrived, s)
    ensures BufferSourced(arrived, Background(c, s, ev)) && Background(c, s, ev).handed == s.handed
  {
  }

  /**
   In every run of a worker that starts empty, a reassembled frame that is handed out,
   and so tracked, carries the id, sender, number and subtree of one received fragment.
   */
  lemma {:induction false} ReassembledFromFragments(c: Setup, s0: State, zero: Id32, events: seq<Event>, s: State)
    requires s0.handed == [] && (s0.buffer.Some? ==> s0.buffer.value.slots == map[]) && s == Exec(c, s0, zero, events)
    ensures BufferSourced(Fragments(events), s) && OutsSourced(Fragments(events), s.handed)
  {
    if events != [] {
      var n := |events| - 1;
      var t, ev := Exec(c, s0, zero, events[..n]), events[n];
      ReassembledFromFragments(c, s0, zero, events[..n], t);
      assert Fragments(events[..n]) + [] == Fragments(events[..n]);
      if !ev.Received? {
        BackgroundSourced(c, t, ev, Fragments(events[..n]));
      } else if ev.i.d.Fragment? && ev.i.d.ff.Some? {
        FragmentSourced(c, t, zero, ev.i, ev.i.d.ff.value, Fragments(events[..n]));
      } else {
        OtherInputSourced(c, t, zero, ev.i, Fragments(events[..n]));
      }
    }
  }
}
