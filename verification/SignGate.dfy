/** The sign gate: a pipeline thread and a detector worker sharing one in-flight request.  The
    critical sections of both threads are methods; runs interleave them in any order. */
module SignGate {
  import opened Voxels

  type Footprint = s: set<VKey> | true witness {}

  datatype ReadSign = ReadSign(footprint: Footprint, text: string)

  /** What became of an accepted request: a text, or none. */
  datatype Outcome = Outcome(footprint: Footprint, text: string, ok: bool)

  /** State behind the bridge's lock.  asked and outcomes are history: footprints of the requests
      the detector accepted, and how the answered ones ended. */
  datatype Bridge = Bridge(inflight: int, inflightId: int, nextId: nat, pending: map<int, Footprint>,
                           resolved: seq<ReadSign>, failed: nat, dispatched: nat, dropped: nat, raced: nat,
                           asked: seq<Footprint>, outcomes: seq<Outcome>)

  const START: Bridge := Bridge(0, 0, 1, map[], [], 0, 0, 0, 0, [], [])

  /** A 64-bit counter cut to a signed 32-bit id. */
  function ToId(n: nat): int {
    var r := n % 0x1_0000_0000;
    if r < 0x8000_0000 then r else r - 0x1_0000_0000
  }

  // ---------- critical sections of the bridge ----------

  function Stashed(b: Bridge, f: Footprint): Bridge {
    var id := ToId(b.nextId);
    b.(inflight := 1, inflightId := id, nextId := b.nextId + 1,
       pending := if id in b.pending then b.pending else b.pending[id := f])
  }

  function Undone(b: Bridge, id: int): Bridge { b.(pending := b.pending - {id}, inflight := 0) }

  function Answered(b: Bridge, id: int, ok: bool, text: string): Bridge {
    if id !in b.pending then b.(inflight := 0)
    else var f, good := b.pending[id], ok && text != "";
         b.(inflight := 0, pending := b.pending - {id},
            resolved := if good then b.resolved + [ReadSign(f, text)] else b.resolved,
            failed := if good then b.failed else b.failed + 1,
            outcomes := b.outcomes + [Outcome(f, text, ok)])
  }

  class SignBridge {
    var inflight: int
    var inflightId: int
    var nextId: nat
    var pending: map<int, Footprint>
    var resolved: seq<ReadSign>
    var failed: nat
    var dispatched: nat
    var dropped: nat
    ghost var raced: nat
    ghost var asked: seq<Footprint>
    ghost var outcomes: seq<Outcome>

    ghost function B(): Bridge reads this {
      Bridge(inflight, inflightId, nextId, pending, resolved, failed, dispatched, dropped, raced, asked, outcomes)
    }

    constructor ()
      ensures B() == START
    {
      inflight, inflightId, nextId, pending, resolved, failed, dispatched, dropped := 0, 0, 1, map[], [], 0, 0, 0;
      raced, asked, outcomes := 0, [], [];
    }

    /** First look: a busy gate drops the frame. */
    method Gate() returns (free: bool)
      modifies this
      ensures free == (old(inflight) == 0)
      ensures B() == if free then old(B()) else old(B()).(dropped := old(dropped) + 1)
    {
      free := inflight == 0;
      if !free { dropped := dropped + 1; }
    }

    /** Second look: reserve an id and stash the footprint, unless someone got in between. */
    method Reserve(f: Footprint) returns (ok: bool, id: int)
      modifies this
      ensures ok == (old(inflight) == 0) && id == ToId(old(nextId))
      ensures B() == if ok then Stashed(old(B()), f) else old(B()).(raced := old(raced) + 1)
    {
      ok, id := inflight == 0, ToId(nextId);
      if !ok { raced := raced + 1; return; }
      nextId := nextId + 1;
      if id !in pending { pending := pending[id := f]; }
      inflight, inflightId := 1, id;
    }

    /** The queue was full: take the reservation back. */
    method Undo(id: int)
      modifies this
      ensures B() == Undone(old(B()), id)
    {
      pending := pending - {id};
      inflight := 0;
    }

    method CountDispatched()
      modifies this
      ensures B() == old(B()).(dispatched := old(dispatched) + 1)
    {
      dispatched := dispatched + 1;
    }

    /** The detector's answer, on its worker thread. */
    method OnResult(id: int, ok: bool, text: string)
      modifies this
      ensures B() == Answered(old(B()), id, ok, text)
    {
      if id in pending {
        outcomes := outcomes + [Outcome(pending[id], text, ok)];
        if ok && text != "" { resolved := resolved + [ReadSign(pending[id], text)]; }
        else { failed := failed + 1; }
        pending := pending - {id};
      }
      inflight := 0;
    }
  }

  class MockDetector {
    var queue: seq<int>
    const queueSize: int

    constructor (size: int)
      ensures queue == [] && queueSize == size
    {
      queue, queueSize := [], size;
    }

    method Enqueue(id: int) returns (ok: bool)
      modifies this
      ensures ok == (|old(queue)| < queueSize) && queue == if ok then old(queue) + [id] else old(queue)
    {
      if |queue| >= queueSize { return false; }
      queue := queue + [id];
      ok := true;
    }

    method Take() returns (id: int)
      requires queue != []
      modifies this
      ensures id == old(queue)[0] && queue == old(queue)[1..]
    {
      id := queue[0];
      queue := queue[1..];
    }
  }

  // ---------- the two threads ----------

  /** Where the pipeline thread is within a frame. */
  datatype Pipeline = Idle | AtGate | Open | Ready(f: Footprint) | Holding(id: int, f: Footprint) | Sent | Refused(id: int)

  /** What the worker thread is doing. */
  datatype Worker = Waiting | Reading(id: int)

  datatype State = State(b: Bridge, queue: seq<int>, queueSize: int, pc: Pipeline, worker: Worker)

  ghost predicate Initial(s: State) { s.b == START && s.queue == [] && s.pc == Idle && s.worker == Waiting }

  /** One atomic step of the pipeline thread. */
  ghost predicate PipelineStep(s: State, t: State) {
    match s.pc
    case Idle => t == s.(pc := AtGate)
    case AtGate =>
      if s.b.inflight != 0 then t == s.(b := s.b.(dropped := s.b.dropped + 1), pc := Idle) else t == s.(pc := Open)
    case Open => t == s.(pc := Idle) || exists f: Footprint :: f != {} && t == s.(pc := Ready(f))
    case Ready(f) =>
      if s.b.inflight != 0 then t == s.(b := s.b.(raced := s.b.raced + 1), pc := Idle)
      else t == s.(b := Stashed(s.b, f), pc := Holding(ToId(s.b.nextId), f))
    case Holding(id, f) =>
      if |s.queue| >= s.queueSize then t == s.(pc := Refused(id))
      else t == s.(queue := s.queue + [id], b := s.b.(asked := s.b.asked + [f]), pc := Sent)
    case Sent => t == s.(b := s.b.(dispatched := s.b.dispatched + 1), pc := Idle)
    case Refused(id) => t == s.(b := Undone(s.b, id), pc := Idle)
  }

  /** One atomic step of the worker thread; the answer is arbitrary. */
  ghost predicate WorkerStep(s: State, t: State) {
    match s.worker
    case Waiting => s.queue != [] && t == s.(queue := s.queue[1..], worker := Reading(s.queue[0]))
    case Reading(id) => exists ok: bool, text: string :: t == s.(b := Answered(s.b, id, ok, text), worker := Waiting)
  }

  ghost predicate Run(run: seq<State>) {
    && run != [] && Initial(run[0])
    && forall k | 0 < k < |run| :: PipelineStep(run[k - 1], run[k]) || WorkerStep(run[k - 1], run[k])
  }

  // ---------- the invariant ----------

  /** The requests the detector holds. */
  function Held(s: State): seq<int> { (if s.worker.Reading? then [s.worker.id] else []) + s.queue }

  predicate BeforeQueue(pc: Pipeline) { pc.Holding? || pc.Refused? }

  function Footprints(outcomes: seq<Outcome>): (r: seq<Footprint>)
    ensures |r| == |outcomes| && forall i | 0 <= i < |r| :: r[i] == outcomes[i].footprint
  {
    seq(|outcomes|, i requires 0 <= i < |outcomes| => outcomes[i].footprint)
  }

  /** The texts read, with their footprints, in order. */
  /** The detector found something to read. */
  predicate IsRead(o: Outcome) { o.ok && o.text != "" }

  function Texts(outcomes: seq<Outcome>): seq<ReadSign> {
    if outcomes == [] then []
    else var o := outcomes[|outcomes| - 1];
         Texts(outcomes[..|outcomes| - 1]) + if IsRead(o) then [ReadSign(o.footprint, o.text)] else []
  }

  /** The gate is closed exactly when pending holds the one reserved id. */
  ghost predicate GateOk(b: Bridge) {
    && (b.inflight == 0 || b.inflight == 1)
    && (b.inflight == 1 ==> b.inflightId in b.pending && forall id | id in b.pending :: id == b.inflightId)
    && (b.inflight == 0 ==> forall id :: id !in b.pending)
  }

  /** The footprint stashed under the reserved id. */
  function Stash(b: Bridge): Footprint { if b.inflightId in b.pending then b.pending[b.inflightId] else {} }

  /** The detector holds the reserved id from acceptance until the answer, and nothing else. */
  ghost predicate HeldOk(s: State) {
    Held(s) == if s.b.inflight == 1 && !BeforeQueue(s.pc) then [s.b.inflightId] else []
  }

  ghost predicate PcOk(s: State) {
    match s.pc
    case Open => s.b.inflight == 0
    case Ready(_) => s.b.inflight == 0
    case Holding(id, f) => s.b.inflight == 1 && id == s.b.inflightId && Stash(s.b) == f
    case Refused(id) => s.b.inflight == 1 && id == s.b.inflightId && s.queueSize < 1
    case _ => true
  }

  ghost predicate CountsOk(s: State) {
    && s.b.asked == Footprints(s.b.outcomes)
                    + (if s.b.inflight == 1 && !BeforeQueue(s.pc) then [Stash(s.b)] else [])
    && s.b.dispatched + (if s.pc.Sent? then 1 else 0) == |s.b.asked|
    && |s.b.resolved| + s.b.failed == |s.b.outcomes|
    && s.b.resolved == Texts(s.b.outcomes)
    && s.b.raced == 0
  }

  ghost predicate Inv(s: State) { GateOk(s.b) && PcOk(s) && HeldOk(s) && CountsOk(s) }

  lemma InitialInv(s: State)
    requires Initial(s)
    ensures Inv(s)
  {
  }

  lemma PipelineKeeps(s: State, t: State)
    requires Inv(s) && PipelineStep(s, t)
    ensures Inv(t)
  {
  }

  lemma TakeKeeps(s: State, t: State)
    requires Inv(s) && s.worker.Waiting? && s.queue != [] && t == s.(queue := s.queue[1..], worker := Reading(s.queue[0]))
    ensures Inv(t)
  {
    assert Held(t) == Held(s);
  }

  /** The answered id is the reserved one, so the answer always finds its footprint. */
  lemma AnswerIsAwaited(s: State)
    requires Inv(s) && s.worker.Reading?
    ensures s.b.inflight == 1 && !BeforeQueue(s.pc) && s.worker.id == s.b.inflightId && s.queue == []
    ensures s.worker.id in s.b.pending && forall id | id in s.b.pending :: id == s.worker.id
  {
    hide CountsOk, PcOk;
    assert Held(s)[0] == s.worker.id;
    assert |Held(s)| == 1 + |s.queue|;
  }

  lemma AnswerKeeps(s: State, t: State, ok: bool, text: string)
    requires Inv(s) && s.worker.Reading? && t == s.(b := Answered(s.b, s.worker.id, ok, text), worker := Waiting)
    ensures Inv(t)
  {
    AnswerIsAwaited(s);
    var o := Outcome(Stash(s.b), text, ok);
    assert t.b.outcomes == s.b.outcomes + [o];
    assert t.b.outcomes[..|s.b.outcomes|] == s.b.outcomes;
    assert Footprints(t.b.outcomes) == Footprints(s.b.outcomes) + [Stash(s.b)];
    assert Held(t) == [];
  }

  lemma WorkerKeeps(s: State, t: State)
    requires Inv(s) && WorkerStep(s, t)
    ensures Inv(t)
  {
    hide Inv, Answered;
    match s.worker
    case Waiting => TakeKeeps(s, t);
    case Reading(id) =>
      var ok: bool, text: string :| t == s.(b := Answered(s.b, id, ok, text), worker := Waiting);
      AnswerKeeps(s, t, ok, text);
  }

  lemma {:induction false} RunInv(run: seq<State>)
    requires Run(run)
    ensures Inv(run[|run| - 1])
    decreases |run|
  {
    hide Inv, PipelineStep, WorkerStep, Initial;
    var n := |run| - 1;
    if n == 0 {
      InitialInv(run[0]);
    } else {
      RunInv(run[..n]);
      if PipelineStep(run[n - 1], run[n]) { PipelineKeeps(run[n - 1], run[n]); } else { WorkerKeeps(run[n - 1], run[n]); }
    }
  }

  // ---------- what it means ----------

  /** In every reachable state the gate is closed exactly when one id is reserved, the detector holds
      at most that one request, no frame ever raced the gate, the queue refuses nothing it has room
      for, and an answer always finds the footprint stashed for it. */
  lemma SingleInFlight(run: seq<State>)
    requires Run(run)
    ensures var s := run[|run| - 1];
            && (s.b.inflight == 1 <==> s.b.inflightId in s.b.pending)
            && (forall id | id in s.b.pending :: s.b.inflight == 1 && id == s.b.inflightId)
            && |Held(s)| <= 1 && (forall id | id in Held(s) :: id == s.b.inflightId && id in s.b.pending)
            && s.b.raced == 0 && (s.queueSize >= 1 ==> !s.pc.Refused?)
            && (s.worker.Reading? ==> s.worker.id in s.b.pending)
  {
    hide CountsOk;
    RunInv(run);
    var s := run[|run| - 1];
    RacedNever(s);
    if s.worker.Reading? { AnswerIsAwaited(s); }
  }

  lemma RacedNever(s: State)
    requires Inv(s)
    ensures s.b.raced == 0
  {
  }

  /** Between frames, requests dispatched are those read, those failed, and the one in flight. */
  lemma DispatchedAccounted(run: seq<State>)
    requires Run(run) && run[|run| - 1].pc == Idle
    ensures var b := run[|run| - 1].b; b.dispatched == |b.resolved| + b.failed + b.inflight
  {
    RunInv(run);
  }

  /** Every text read stands with the footprint that was sent to be read: answers come in the order
      of the requests, each for its own. */
  lemma TextsMatchFootprints(run: seq<State>)
    requires Run(run)
    ensures var b := run[|run| - 1].b;
            && |b.outcomes| <= |b.asked|
            && (forall i | 0 <= i < |b.outcomes| :: b.outcomes[i].footprint == b.asked[i])
            && b.resolved == Texts(b.outcomes)
  {
    RunInv(run);
    var b := run[|run| - 1].b;
    forall i | 0 <= i < |b.outcomes| ensures b.outcomes[i].footprint == b.asked[i] {
      assert Footprints(b.outcomes)[i] == b.asked[i];
    }
  }

  /** Some answer succeeded with this text for this footprint. */
  ghost predicate Answers(outcomes: seq<Outcome>, r: ReadSign) {
    exists i :: 0 <= i < |outcomes| && outcomes[i] == Outcome(r.footprint, r.text, true)
  }

  lemma {:induction false} TextsAre(outcomes: seq<Outcome>)
    ensures forall r | r in Texts(outcomes) :: r.text != "" && Answers(outcomes, r)
    ensures forall i | 0 <= i < |outcomes| && outcomes[i].ok && outcomes[i].text != "" ::
              ReadSign(outcomes[i].footprint, outcomes[i].text) in Texts(outcomes)
    ensures |Texts(outcomes)| <= |outcomes|
    decreases |outcomes|
  {
    if outcomes != [] {
      var n := |outcomes| - 1;
      TextsAre(outcomes[..n]);
      forall r | r in Texts(outcomes) ensures r.text != "" && Answers(outcomes, r) {
        if r in Texts(outcomes[..n]) {
          var i :| 0 <= i < n && outcomes[..n][i] == Outcome(r.footprint, r.text, true);
          assert outcomes[i] == outcomes[..n][i];
        } else {
          assert outcomes[n] == Outcome(r.footprint, r.text, true);
        }
      }
      forall i | 0 <= i < |outcomes| && outcomes[i].ok && outcomes[i].text != ""
        ensures ReadSign(outcomes[i].footprint, outcomes[i].text) in Texts(outcomes)
      {
        if i < n { assert outcomes[..n][i] == outcomes[i]; }
      }
    }
  }

  /** The signs read are the successful answers that are not empty; every other answer counts as failed. */
  lemma ResolvedAre(run: seq<State>)
    requires Run(run)
    ensures var b := run[|run| - 1].b;
            && |b.resolved| + b.failed == |b.outcomes|
            && (forall r | r in b.resolved :: r.text != "" && Answers(b.outcomes, r))
            && forall i | 0 <= i < |b.outcomes| && b.outcomes[i].ok && b.outcomes[i].text != "" ::
                  ReadSign(b.outcomes[i].footprint, b.outcomes[i].text) in b.resolved
  {
    RunInv(run);
    TextsAre(run[|run| - 1].b.outcomes);
  }

  /** The frames turned away at the closed gate. */
  ghost function TurnedAway(run: seq<State>): nat {
    if |run| <= 1 then 0
    else var n := |run| - 1; TurnedAway(run[..n]) + if run[n - 1].pc.AtGate? && run[n].pc.Idle? then 1 else 0
  }

  lemma StepDrops(s: State, t: State)
    requires PipelineStep(s, t) || WorkerStep(s, t)
    ensures t.b.dropped == s.b.dropped + if s.pc.AtGate? && t.pc.Idle? then 1 else 0
    ensures s.pc.AtGate? && t.pc.Idle? ==> s.b.inflight != 0
    ensures s.pc.AtGate? && t.pc.Open? ==> s.b.inflight == 0
  {
  }

  /** Every frame turned away is counted as dropped, and only those. */
  lemma {:induction false} DroppedCounted(run: seq<State>)
    requires Run(run)
    ensures run[|run| - 1].b.dropped == TurnedAway(run)
    decreases |run|
  {
    hide PipelineStep, WorkerStep;
    var n := |run| - 1;
    if n > 0 {
      DroppedCounted(run[..n]);
      StepDrops(run[n - 1], run[n]);
    }
  }

  /** Ids are the request number as a signed 32-bit integer. */
  lemma IdIs(n: nat)
    ensures -0x8000_0000 <= ToId(n) < 0x8000_0000 && (ToId(n) - n) % 0x1_0000_0000 == 0
    ensures n < 0x8000_0000 ==> ToId(n) == n
  {
  }
}
