/**
 The tracker with its dispatcher and its environment, as a transition system.
 A run is any sequence of steps; a step whose guard fails does nothing, so every
 sequence is a run. Beside the tracker's own state a world carries four records
 that the code does not have: the attempts a goroutine holds, per gap the NACKs
 sent and the attempts that failed before sending, and per flow the frames seen
 since its counter last started over.
 */
module TrackerRuns {
  import opened Common
  import opened TrackerSpec
  import opened Endpoints

  /** A queued copy in the hands of a goroutine; `sentTo` is the snapshot its NACK was sent from. */
  datatype Attempt = Attempt(gap: Gap, sentTo: Option<seq<Endpoint>>)

  /**
   One NACK: the index of the copy it was sent for, the snapshot consulted, the
   endpoint chosen, and how many attempts for the gap had failed before it.
   */
  datatype Contact = Contact(attempt: nat, snapshot: seq<Endpoint>, endpoint: Endpoint, failed: nat)

  /** A flow's history since it was created or reset: the numbers that arrived, in order, and the gaps registered. */
  datatype Epoch = Epoch(observed: seq<uint64>, detected: multiset<uint64>)

  datatype World = World(st: State, running: map<nat, Attempt>, contacts: map<GapId, seq<Contact>>,
                         failures: map<GapId, nat>, epochs: map<uint64, Epoch>, clock: Time)

  datatype Answer = Ack | Miss | Silence

  /**
   The steps. Arrivals read the clock under the tracker's lock, so their times
   never decrease. The other times are not tied to it: the sweeper's is the
   ticker's, taken before the lock.
   */
  datatype Step =
    | Arrive(a: Arrival, dt: nat, jitter: Jitter)
    | FillGap(hashKey: uint64, seqNum: uint64)
    | Sweep(visits: seq<Visit>, now: Time)
    | Dispatch(ticket: nat)
    | Send(ticket: nat, snapshot: seq<Endpoint>)
    | Fail(ticket: nat, now: Time)
    | Answered(ticket: nat, answer: Answer, now: Time)

  ghost function Start(clock: Time): World { World(EMPTY, map[], map[], map[], map[], clock) }

  ghost function Log(w: World, id: GapId): seq<Contact> {
    if id in w.contacts then w.contacts[id] else []
  }

  ghost function Failed(w: World, id: GapId): nat { if id in w.failures then w.failures[id] else 0 }

  /** Does this frame extend the flow's current epoch, rather than create or reset the flow? */
  ghost predicate Continues(cfg: Config, w: World, a: Arrival) {
    && a.hashKey in w.st.flows && a.hashKey in w.epochs
    && !IsRestart(cfg, w.st.flows[a.hashKey].lastSeqNum, a.seqNum)
  }

  ghost function PendingKeys(s: State, hashKey: uint64): set<uint64> {
    if hashKey in s.flows then s.flows[hashKey].pending.Keys else {}
  }

  ghost function EpochAfter(cfg: Config, w: World, a: Arrival, after: State): Epoch {
    var added := multiset(PendingKeys(after, a.hashKey) - PendingKeys(w.st, a.hashKey));
    if Continues(cfg, w, a) then
      var e := w.epochs[a.hashKey];
      Epoch(e.observed + [a.seqNum], e.detected + added)
    else
      Epoch([a.seqNum], added)
  }

  ghost function AfterArrival(cfg: Config, w: World, a: Arrival, dt: nat, jitter: Jitter): World {
    var now := Later(w.clock, dt);
    var st := Observe(cfg, w.st, a, now, jitter);
    w.(st := st, clock := now,
       epochs := if a.seqNum == 0 then w.epochs else w.epochs[a.hashKey := EpochAfter(cfg, w, a, st)])
  }

  ghost function AfterSweep(cfg: Config, w: World, visits: seq<Visit>, now: Time): World {
    var st := SweepAll(cfg, w.st, visits, now);
    w.(st := st, epochs := map hk | hk in w.epochs && hk in st.flows :: w.epochs[hk])
  }

  ghost function Finish(w: World, ticket: nat, st: State): World {
    w.(st := st, running := w.running - {ticket})
  }

  ghost predicate Holds(w: World, ticket: nat, sent: bool) {
    ticket in w.running && w.running[ticket].sentTo.Some? == sent
  }

  ghost function AfterSend(w: World, ticket: nat, snapshot: seq<Endpoint>): World
    requires Holds(w, ticket, false)
  {
    var e := w.running[ticket].gap;
    if snapshot == [] then Finish(w, ticket, w.st) else
      var c := Contact(e.endpointIdx, snapshot, snapshot[Position(e.endpointIdx, |snapshot|)], Failed(w, IdOf(e)));
      w.(running := w.running[ticket := Attempt(e, Some(snapshot))],
         contacts := w.contacts[IdOf(e) := Log(w, IdOf(e)) + [c]])
  }

  ghost function AfterAnswer(cfg: Config, w: World, ticket: nat, answer: Answer, now: Time): World
    requires Holds(w, ticket, true)
  {
    var e := w.running[ticket].gap;
    var n := |w.running[ticket].sentTo.value|;
    Finish(w, ticket, match answer
                      case Ack => CancelGap(w.st, e)
                      case Miss => AdvanceEndpoint(cfg, w.st, e, true, n, now)
                      case Silence => AdvanceEndpoint(cfg, w.st, e, false, 0, now))
  }

  /** The attempt ends before its NACK is sent: no address, or no socket. */
  ghost function AfterFail(cfg: Config, w: World, ticket: nat, now: Time): World
    requires Holds(w, ticket, false)
  {
    var e := w.running[ticket].gap;
    Finish(w, ticket, AdvanceEndpoint(cfg, w.st, e, false, 0, now))
    .(failures := w.failures[IdOf(e) := Failed(w, IdOf(e)) + 1])
  }

  /** The steps of the dispatcher's goroutines. */
  predicate IsAttemptStep(step: Step) { step.Dispatch? || step.Send? || step.Fail? || step.Answered? }

  ghost function AfterDispatch(w: World, ticket: nat): World
    requires w.st.queue != []
  {
    w.(st := w.st.(queue := w.st.queue[1..]), running := w.running[ticket := Attempt(w.st.queue[0], None)])
  }

  ghost function AttemptNext(cfg: Config, w: World, step: Step): World
    requires IsAttemptStep(step)
  {
    match step
    case Dispatch(t) => if w.st.queue == [] || t in w.running then w else AfterDispatch(w, t)
    case Send(t, snapshot) => if Holds(w, t, false) then AfterSend(w, t, snapshot) else w
    case Fail(t, now) => if Holds(w, t, false) then AfterFail(cfg, w, t, now) else w
    case Answered(t, answer, now) => if Holds(w, t, true) then AfterAnswer(cfg, w, t, answer, now) else w
  }

  ghost function Next(cfg: Config, w: World, step: Step): World {
    if IsAttemptStep(step) then AttemptNext(cfg, w, step) else
      match step
      case Arrive(a, dt, jitter) => AfterArrival(cfg, w, a, dt, jitter)
      case FillGap(hk, q) => w.(st := Fill(w.st, hk, q))
      case Sweep(visits, now) => if CompleteOrder(w.st.flows, visits) then AfterSweep(cfg, w, visits, now) else w
  }

  ghost function Exec(cfg: Config, w: World, steps: seq<Step>): World {
    if steps == [] then w else Next(cfg, Exec(cfg, w, steps[..|steps| - 1]), steps[|steps| - 1])
  }
}
