/** One receive worker as a value: how a datagram drives the filter, the dedup set, the tracker and the buffer. */
module ListenerSpec {
  import opened Common
  import opened SubtreeGroups
  import Filter
  import TrackerSpec
  import DedupSpec
  import Reassembly = ReassemblySpec

  /** A decoded BRC-12 or BRC-124 frame; `v2` tells the two apart. */
  datatype Frame = Frame(v2: bool, txID: Id32, hashKey: uint64, seqNum: uint64, subtreeID: Id32, payload: seq<byte>)

  /** A datagram by kind; None stands for a decode error. */
  datatype Datagram =
    | BlockControl(block: Option<ControlFrame>)
    | SubtreeData(data: Option<ControlFrame>)
    | Fragment(ff: Option<Reassembly.Fragment>)
    | Transaction(f: Option<Frame>)

  /** A BRC-131 or BRC-132 frame: the content or subtree id, and the stamps. */
  datatype ControlFrame = ControlFrame(id: Id32, hashKey: uint64, seqNum: uint64)

  /** What was handed to egress. */
  datatype Out = OutFrame(f: Frame) | OutReassembled(f: Frame) | OutBlock(b: ControlFrame) | OutSubtree(d: ControlFrame)

  datatype Setup = Setup(tracker: TrackerSpec.Config, buffer: Reassembly.Config, filter: Filter.Sets,
                         dedupTTL: Time, multicast: bool, verifyPayloadHash: bool,
                         sha256d: seq<byte> -> Id32, groupIndex: Id32 -> uint32)

  /** A worker; the parts a deployment may switch off are optional. */
  datatype State = State(tracker: Option<TrackerSpec.State>, dedup: Option<DedupSpec.State>,
                         buffer: Option<Reassembly.State>, handed: seq<Out>, errors: nat)

  /** What the surroundings contribute to one call. */
  datatype Input = Input(d: Datagram, now: Time, jitter: TrackerSpec.Jitter, groups: Option<Entries>,
                         encodes: bool, unicastOk: bool, multicastOk: bool)

  function Errors(c: Setup, i: Input): nat {
    (if i.unicastOk then 0 else 1) + (if c.multicast && !i.multicastOk then 1 else 0)
  }

  function Observe(c: Setup, s: State, a: TrackerSpec.Arrival, i: Input): State {
    if s.tracker.None? then s
    else s.(tracker := Some(TrackerSpec.Observe(c.tracker, s.tracker.value, a, i.now, i.jitter)))
  }

  function Hand(c: Setup, s: State, out: Out, errors: nat): State {
    s.(handed := s.handed + [out], errors := s.errors + errors)
  }

  function ArrivalOf(c: Setup, f: Frame): TrackerSpec.Arrival {
    TrackerSpec.Arrival(c.groupIndex(f.txID), f.subtreeID, f.hashKey, f.seqNum)
  }

  function KeyOf(c: Setup, f: Frame): DedupSpec.Key {
    DedupSpec.Key(c.groupIndex(f.txID), f.subtreeID, f.seqNum)
  }

  /** Stamped by the proxy, so tracked and deduplicated. */
  predicate Stamped(f: Frame) { f.v2 && f.seqNum != 0 }

  /** The frame survives the optional hash check and the filter. */
  predicate Passes(c: Setup, f: Frame, i: Input) {
    && !(c.verifyPayloadHash && f.v2 && c.sha256d(f.payload) != f.txID)
    && Filter.Verdict(c.filter, c.groupIndex(f.txID), f.subtreeID, i.groups, i.now).None?
  }

  function Forward(c: Setup, s: State, f: Frame, i: Input): State {
    var s := Hand(c, s, OutFrame(f), Errors(c, i));
    if Stamped(f) then Observe(c, s, ArrivalOf(c, f), i) else s
  }

  function OnFrame(c: Setup, s: State, f: Frame, i: Input): State {
    if !Passes(c, f, i) then s
    else if s.dedup.None? || !Stamped(f) then Forward(c, s, f, i)
    else
      var a := DedupSpec.SeenAndAdd(s.dedup.value, c.dedupTTL, KeyOf(c, f), i.now);
      var s := s.(dedup := Some(a.st));
      if a.seen then Observe(c, s, ArrivalOf(c, f), i) else Forward(c, s, f, i)
  }

  function OnBlock(c: Setup, s: State, b: ControlFrame, zero: Id32, i: Input): State {
    var s := Hand(c, s, OutBlock(b), if i.unicastOk then 0 else 1);
    if b.seqNum != 0
    then Observe(c, s, TrackerSpec.Arrival(TrackerSpec.CTRL_GROUP_CONTROL, zero, b.hashKey, b.seqNum), i) else s
  }

  function OnSubtree(c: Setup, s: State, d: ControlFrame, i: Input): State {
    var s := Hand(c, s, OutSubtree(d), if i.unicastOk then 0 else 1);
    if d.seqNum != 0
    then Observe(c, s, TrackerSpec.Arrival(TrackerSpec.CTRL_GROUP_SUBTREE, d.id, d.hashKey, d.seqNum), i) else s
  }

  /** The synthetic frame of a completed V2 slot. */
  function Synthetic(x: Reassembly.Completion): Frame {
    Frame(true, x.slot.txID, x.slot.hashKey, x.slot.seqNum, x.slot.subtreeID, x.payload)
  }

  function Control(x: Reassembly.Completion): ControlFrame {
    ControlFrame(x.slot.txID, x.slot.hashKey, x.slot.seqNum)
  }

  /** A reassembled transaction frame goes through the filter and egress again, but not through dedup. */
  function DeliverFrame(c: Setup, s: State, f: Frame, i: Input): State {
    if Filter.Verdict(c.filter, c.groupIndex(f.txID), f.subtreeID, i.groups, i.now).Some? || !i.encodes then s else
      var s := Hand(c, s, OutReassembled(f), Errors(c, i));
      if f.seqNum != 0 then Observe(c, s, ArrivalOf(c, f), i) else s
  }

  /** The completion callbacks. */
  function Deliver(c: Setup, s: State, x: Reassembly.Completion, zero: Id32, i: Input): State {
    if x.slot.origFrameVer == Reassembly.FRAME_VER_V4 then
      (if i.encodes then OnBlock(c, s, Control(x), zero, i) else s)
    else if x.slot.origFrameVer == Reassembly.FRAME_VER_V5 then
      (if i.encodes then OnSubtree(c, s, Control(x), i) else s)
    else DeliverFrame(c, s, Synthetic(x), i)
  }

  function OnFragment(c: Setup, s: State, ff: Reassembly.Fragment, zero: Id32, i: Input): State {
    if s.buffer.None? then s else
      var r := Reassembly.Observe(c.buffer, s.buffer.value, ff, i.now);
      var s := s.(buffer := Some(r.st));
      match r.done
      case Some(x) => if x.verdict.Delivered? then Deliver(c, s, x, zero, i) else s
      case None => s
  }

  /** `zero` is the all-zero subtree id under which block frames are tracked. */
  function Process(c: Setup, s: State, zero: Id32, i: Input): State {
    match i.d
    case BlockControl(b) => if b.Some? then OnBlock(c, s, b.value, zero, i) else s
    case SubtreeData(d) => if d.Some? then OnSubtree(c, s, d.value, i) else s
    case Fragment(ff) => if ff.Some? then OnFragment(c, s, ff.value, zero, i) else s
    case Transaction(f) => if f.Some? then OnFrame(c, s, f.value, i) else s
  }
}
