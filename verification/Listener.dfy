/** The worker itself: processFrame and the delivery callbacks over the stateful components. */
module ListenerClass {
  import opened Common
  import opened ListenerSpec
  import Filter
  import TrackerSpec
  import TrackerClass
  import DedupSpec
  import DedupClass
  import Spec = ReassemblySpec
  import ReassemblyClass

  class Worker {
    const setup: Setup
    const zero: Id32
    const tracker: TrackerClass.Tracker?
    const dedupSet: DedupClass.Set?
    const reassemBuf: ReassemblyClass.Buffer?
    var handed: seq<Out>
    var errors: nat

    /** The components are configured as the setup says. */
    ghost predicate Valid()
      reads this, dedupSet, reassemBuf
    {
      && (tracker != null ==> tracker.cfg == setup.tracker)
      && (dedupSet != null ==> dedupSet.Valid() && dedupSet.ttl == setup.dedupTTL)
      && (reassemBuf != null ==> reassemBuf.Valid() && reassemBuf.cfg == setup.buffer)
    }

    /** A worker around components it shares with others; null switches one off. */
    constructor (setup: Setup, zero: Id32, tracker: TrackerClass.Tracker?, dedupSet: DedupClass.Set?,
                 reassemBuf: ReassemblyClass.Buffer?)
      requires tracker != null ==> tracker.cfg == setup.tracker
      requires dedupSet != null ==> dedupSet.Valid() && dedupSet.ttl == setup.dedupTTL
      requires reassemBuf != null ==> reassemBuf.Valid() && reassemBuf.cfg == setup.buffer
      ensures Valid() && this.setup == setup && this.zero == zero && handed == [] && errors == 0
      ensures this.tracker == tracker && this.dedupSet == dedupSet && this.reassemBuf == reassemBuf
    {
      this.setup, this.zero := setup, zero;
      this.tracker, this.dedupSet, this.reassemBuf := tracker, dedupSet, reassemBuf;
      handed, errors := [], 0;
    }

    /** Everything a frame may change. */
    ghost function Parts(): set<object>
      reads reassemBuf
    {
      (if tracker == null then {} else {tracker as object})
      + (if dedupSet == null then {} else {dedupSet as object, dedupSet.ring as object})
      + (if reassemBuf == null then {} else {reassemBuf as object, reassemBuf.order as object})
    }

    ghost function View(): State
      reads this, dedupSet, reassemBuf, Parts()
      requires Valid()
    {
      State(if tracker == null then None else Some(tracker.View()),
            if dedupSet == null then None else Some(dedupSet.View()),
            if reassemBuf == null then None else Some(reassemBuf.View()),
            handed, errors)
    }

    method Observe(a: TrackerSpec.Arrival, i: Input)
      requires Valid()
      modifies tracker
      ensures Valid() && View() == ListenerSpec.Observe(setup, old(View()), a, i)
    {
      if tracker != null {
        tracker.Observe(a, i.now, i.jitter);
      }
    }

    /** Unicast send, and multicast if configured; either may fail without consequence. */
    method Send(out: Out, multicast: bool, i: Input)
      requires Valid()
      modifies this
      ensures Valid() && View() == Hand(setup, old(View()), out,
        (if i.unicastOk then 0 else 1) + (if multicast && !i.multicastOk then 1 else 0))
    {
      handed := handed + [out];
      if !i.unicastOk { errors := errors + 1; }
      if multicast {
        if !i.multicastOk { errors := errors + 1; }
      }
    }

    method OnFrame(f: Frame, i: Input)
      requires Valid()
      modifies this, tracker, dedupSet, if dedupSet == null then {} else {dedupSet.ring}
      ensures Valid() && Parts() == old(Parts())
      ensures View() == ListenerSpec.OnFrame(setup, old(View()), f, i)
    {
      var pass := Gate(f, i);
      if !pass { return; }
      if dedupSet != null && f.v2 && f.seqNum != 0 {
        var seen := SeenBefore(f, i);
        if seen {
          Observe(ArrivalOf(setup, f), i);
          return;
        }
      }
      Forward(f, i);
    }

    /** The optional payload hash check, then the filter. */
    method Gate(f: Frame, i: Input) returns (pass: bool)
      ensures pass == Passes(setup, f, i)
    {
      if setup.verifyPayloadHash && f.v2 {
        if setup.sha256d(f.payload) != f.txID { return false; }
      }
      var groupIdx := setup.groupIndex(f.txID);
      var verdict := Filter.Verdict(setup.filter, groupIdx, f.subtreeID, i.groups, i.now);
      pass := verdict.None?;
    }

    method SeenBefore(f: Frame, i: Input) returns (seen: bool)
      requires Valid() && dedupSet != null
      modifies dedupSet, dedupSet.ring
      ensures Valid()
      ensures var a := DedupSpec.SeenAndAdd(old(View()).dedup.value, setup.dedupTTL, KeyOf(setup, f), i.now);
        seen == a.seen && View() == old(View()).(dedup := Some(a.st))
    {
      seen := dedupSet.SeenAndAdd(KeyOf(setup, f), i.now);
    }

    method Forward(f: Frame, i: Input)
      requires Valid()
      modifies this, tracker
      ensures Valid() && View() == ListenerSpec.Forward(setup, old(View()), f, i)
    {
      Send(OutFrame(f), setup.multicast, i);
      if f.v2 && f.seqNum != 0 {
        Observe(ArrivalOf(setup, f), i);
      }
    }

    method OnBlock(b: ControlFrame, i: Input)
      requires Valid()
      modifies this, tracker
      ensures Valid() && View() == ListenerSpec.OnBlock(setup, old(View()), b, zero, i)
    {
      Send(OutBlock(b), false, i);
      if b.seqNum != 0 {
        Observe(TrackerSpec.Arrival(TrackerSpec.CTRL_GROUP_CONTROL, zero, b.hashKey, b.seqNum), i);
      }
    }

    method OnSubtree(d: ControlFrame, i: Input)
      requires Valid()
      modifies this, tracker
      ensures Valid() && View() == ListenerSpec.OnSubtree(setup, old(View()), d, i)
    {
      Send(OutSubtree(d), false, i);
      if d.seqNum != 0 {
        Observe(TrackerSpec.Arrival(TrackerSpec.CTRL_GROUP_SUBTREE, d.id, d.hashKey, d.seqNum), i);
      }
    }

    /** The completion callbacks. */
    method Deliver(x: Spec.Completion, i: Input)
      requires Valid()
      modifies this, tracker
      ensures Valid() && View() == ListenerSpec.Deliver(setup, old(View()), x, zero, i)
    {
      if x.slot.origFrameVer == Spec.FRAME_VER_V4 {
        if i.encodes { OnBlock(Control(x), i); }
      } else if x.slot.origFrameVer == Spec.FRAME_VER_V5 {
        if i.encodes { OnSubtree(Control(x), i); }
      } else {
        DeliverFrame(Synthetic(x), i);
      }
    }

    method DeliverFrame(f: Frame, i: Input)
      requires Valid()
      modifies this, tracker
      ensures Valid() && View() == ListenerSpec.DeliverFrame(setup, old(View()), f, i)
    {
      var verdict := Filter.Verdict(setup.filter, setup.groupIndex(f.txID), f.subtreeID, i.groups, i.now);
      if verdict.Some? { return; }
      if !i.encodes { return; }
      Send(OutReassembled(f), setup.multicast, i);
      if f.seqNum != 0 {
        Observe(ArrivalOf(setup, f), i);
      }
    }

    /** The buffer's part of a fragment. */
    method Collect(ff: Spec.Fragment, i: Input) returns (done: Option<Spec.Completion>)
      requires Valid() && reassemBuf != null
      modifies reassemBuf, reassemBuf.order
      ensures Valid() && fresh(Parts() - old(Parts()))
      ensures var r := Spec.Observe(setup.buffer, old(View()).buffer.value, ff, i.now);
        done == r.done && View() == old(View()).(buffer := Some(r.st))
    {
      done := reassemBuf.Observe(ff, i.now);
    }

    method OnFragment(ff: Spec.Fragment, i: Input)
      requires Valid()
      modifies this, Parts()
      ensures Valid() && fresh(Parts() - old(Parts()))
      ensures View() == ListenerSpec.OnFragment(setup, old(View()), ff, zero, i)
    {
      if reassemBuf == null { return; }
      var done := Collect(ff, i);
      if done.Some? && done.value.verdict.Delivered? {
        Deliver(done.value, i);
      }
    }

    method ProcessFrame(i: Input)
      requires Valid()
      modifies this, Parts()
      ensures Valid() && fresh(Parts() - old(Parts()))
      ensures View() == Process(setup, old(View()), zero, i)
    {
      match i.d {
        case BlockControl(b) => if b.Some? { OnBlock(b.value, i); }
        case SubtreeData(d) => if d.Some? { OnSubtree(d.value, i); }
        case Fragment(ff) => if ff.Some? { OnFragment(ff.value, i); }
        case Transaction(f) => if f.Some? { OnFrame(f.value, i); }
      }
    }
  }
}
