/** The BRC-130 reassembly buffer as a value: one function per locked operation. */
module ReassemblySpec {
  import opened Common

  const DEFAULT_MAX_SLOTS: nat := 4096
  const DEFAULT_TTL: Time := 10 * SECOND

  const FRAME_VER_V4: byte := 4
  const FRAME_VER_V5: byte := 5

  datatype Fragment = Fragment(txID: Id32, subtreeID: Id32, hashKey: uint64, seqNum: uint64, origPayloadLen: uint32,
                               fragIndex: uint16, fragTotal: uint16, fragData: seq<byte>,
                               origFrameVer: byte, msgType: byte)

  /** A missing fragment is None; a received one may be empty. */
  datatype Slot = Slot(txID: Id32, subtreeID: Id32, hashKey: uint64, seqNum: uint64, origPayloadLen: uint32,
                       fragTotal: uint16, received: nat, frags: seq<Option<seq<byte>>>, deadline: Time,
                       origFrameVer: byte, msgType: byte)

  /** Which callbacks are registered, and the double SHA-256 as a parameter. */
  datatype Config = Config(maxSlots: nat, ttl: Time, verifyHash: bool,
                           onComplete: bool, onCompleteBlock: bool, onCompleteSubtree: bool,
                           sha256d: seq<byte> -> Id32)

  /** What becomes of a complete slot. */
  datatype Verdict = Delivered | Discarded | HashMismatch

  /** A slot that received its last fragment: what the callback was given, or why there was none. */
  datatype Completion = Completion(slot: Slot, payload: seq<byte>, verdict: Verdict)

  datatype State = State(slots: map<Id32, Slot>, insertOrder: seq<Id32>, started: nat, abandoned: nat,
                         delivered: nat, discarded: nat, mismatched: nat)

  const EMPTY := State(map[], [], 0, 0, 0, 0, 0)

  // -------------------------------------------------------------- Eviction

  /** The ids that still have a slot, in order. */
  function Live(order: seq<Id32>, slots: map<Id32, Slot>): seq<Id32> {
    if order == [] then [] else
      var rest := Live(order[..|order| - 1], slots);
      if order[|order| - 1] in slots then rest + [order[|order| - 1]] else rest
  }

  /** The slots among the given ids whose deadline has passed. */
  function Expired(slots: map<Id32, Slot>, order: seq<Id32>, now: Time): set<Id32> {
    set id | id in order && id in slots && now > slots[id].deadline
  }

  function EvictExpired(s: State, now: Time): State {
    var expired := Expired(s.slots, s.insertOrder, now);
    s.(slots := s.slots - expired, insertOrder := Live(s.insertOrder, s.slots - expired),
       abandoned := s.abandoned + |expired|)
  }

  /** The position of the first id with a slot, or the length if there is none. */
  function FirstLive(order: seq<Id32>, slots: map<Id32, Slot>): (i: nat)
    ensures i <= |order|
    ensures i < |order| ==> order[i] in slots
    ensures forall j :: 0 <= j < i ==> order[j] !in slots
  {
    if order == [] then 0
    else if order[0] in slots then 0
    else 1 + FirstLive(order[1..], slots)
  }

  function DropAt(s: State, i: nat): State
    requires i < |s.insertOrder|
  {
    s.(slots := s.slots - {s.insertOrder[i]},
       insertOrder := s.insertOrder[..i] + s.insertOrder[i + 1..],
       abandoned := s.abandoned + 1)
  }

  function EvictOldest(s: State): State {
    var i := FirstLive(s.insertOrder, s.slots);
    if i == |s.insertOrder| then s else DropAt(s, i)
  }

  // --------------------------------------------------------------- Observe

  /** x + 1 on a uint32. */
  function Inc32(x: uint32): uint32 { if x == TWO32 - 1 then 0 else x + 1 }

  /** The metadata test before a slot is opened; the sum wraps as in the source. */
  predicate Plausible(ff: Fragment) {
    && ff.fragTotal != 0 && ff.fragIndex < ff.fragTotal
    && ff.origPayloadLen != 0 && ff.fragTotal <= Inc32(ff.origPayloadLen)
  }

  function Nothing(n: nat): seq<Option<seq<byte>>> { seq(n, _ => None) }

  function NewSlot(cfg: Config, ff: Fragment, now: Time): Slot {
    Slot(ff.txID, ff.subtreeID, ff.hashKey, ff.seqNum, ff.origPayloadLen, ff.fragTotal, 0,
         Nothing(ff.fragTotal), now + cfg.ttl, ff.origFrameVer, ff.msgType)
  }

  function WithSlot(cfg: Config, s: State, ff: Fragment, now: Time): State {
    s.(slots := s.slots[ff.txID := NewSlot(cfg, ff, now)],
       insertOrder := s.insertOrder + [ff.txID],
       started := s.started + 1)
  }

  function Open(cfg: Config, s: State, ff: Fragment, now: Time): State {
    WithSlot(cfg, if |s.slots| >= cfg.maxSlots then EvictOldest(s) else s, ff, now)
  }

  /** The fragment belongs to the slot and its index is still missing. */
  predicate Fits(slot: Slot, ff: Fragment) {
    ff.fragTotal == slot.fragTotal && ff.fragIndex < slot.fragTotal && ff.fragIndex < |slot.frags| &&
    slot.frags[ff.fragIndex].None?
  }

  function Filled(slot: Slot, ff: Fragment): Slot
    requires Fits(slot, ff)
  {
    slot.(frags := slot.frags[ff.fragIndex := Some(ff.fragData)], received := slot.received + 1)
  }

  /** The received fragments in index order. */
  function Payload(frags: seq<Option<seq<byte>>>): seq<byte> {
    if frags == [] then [] else
      Payload(frags[..|frags| - 1]) + match frags[|frags| - 1] case Some(d) => d case None => []
  }

  function Judge(cfg: Config, slot: Slot, payload: seq<byte>): Verdict {
    if slot.origFrameVer == FRAME_VER_V4 then (if cfg.onCompleteBlock then Delivered else Discarded)
    else if slot.origFrameVer == FRAME_VER_V5 then (if cfg.onCompleteSubtree then Delivered else Discarded)
    else if cfg.verifyHash && cfg.sha256d(payload) != slot.txID then HashMismatch
    else if cfg.onComplete then Delivered else Discarded
  }

  function Complete(cfg: Config, slot: Slot): Completion {
    Completion(slot, Payload(slot.frags), Judge(cfg, slot, Payload(slot.frags)))
  }

  /** Books a completion and drops its slot; the id stays in insertOrder. */
  function Book(s: State, c: Completion): State {
    s.(slots := s.slots - {c.slot.txID},
       delivered := s.delivered + if c.verdict.Delivered? then 1 else 0,
       discarded := s.discarded + if c.verdict.Discarded? then 1 else 0,
       mismatched := s.mismatched + if c.verdict.HashMismatch? then 1 else 0)
  }

  datatype Result = Result(st: State, done: Option<Completion>)

  /** Stores the fragment in its open slot, and completes the slot if it was the last one. */
  function Store(cfg: Config, s: State, ff: Fragment): Result
    requires ff.txID in s.slots
  {
    var slot := s.slots[ff.txID];
    if !Fits(slot, ff) then Result(s, None) else
      var slot' := Filled(slot, ff);
      if slot'.received < slot'.fragTotal then Result(s.(slots := s.slots[ff.txID := slot']), None) else
        var c := Complete(cfg, slot');
        Result(Book(s, c), Some(c))
  }

  function Observe(cfg: Config, s: State, ff: Fragment, now: Time): Result {
    var s := EvictExpired(s, now);
    if ff.txID in s.slots then Store(cfg, s, ff)
    else if !Plausible(ff) then Result(s, None)
    else Store(cfg, Open(cfg, s, ff, now), ff)
  }

  function Purge(s: State): State {
    s.(slots := map[], insertOrder := [], abandoned := s.abandoned + |s.slots|)
  }
}
