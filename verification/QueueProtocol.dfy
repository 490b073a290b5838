/** One user mode queue shared by any number of producers and the agent's worker, as a
    transition system. Every worker action makes at most one access to memory that a producer
    can also reach; accesses to data only the worker touches are folded into it. */
module QueueProtocol {
  import opened Modular
  import opened Packets

  /** Largest `hsa_signal_value_t`: the doorbell before its first ring. */
  const NEVER_RUNG: int := 0x7fff_ffff_ffff_ffff

  datatype QueueType = Multi | Single

  /** A slot whose header is not INVALID holds a packet; `id` records the index it was
      published under. The worker never looks at `id`. */
  datatype Slot = Invalid | Holds(id: nat, packet: Packet)

  datatype Option<T> = None | Some(value: T)

  /** The worker's local variables during a pass: its copy of the read index, the write index
      it loaded, and the last index to look at. */
  datatype Locals = Locals(read: nat, write: nat, last: int)

  /** Where the worker is in its pass over this queue. */
  datatype Pc =
    | Idle
    | AtLoadWrite(start: nat)
    | AtScan(i: nat, locals: Locals)
    | AtDeps(i: nat, locals: Locals, id: nat, packet: Packet, dep: nat)
    | AtKernel(i: nat, locals: Locals, id: nat, packet: Packet)
    | AtClear(i: nat, locals: Locals, id: nat, packet: Packet)
    | AtAdvance(i: nat, locals: Locals, id: nat, packet: Packet)
    | AtComplete(i: nat, locals: Locals, id: nat, packet: Packet)
    | Aborted
  {
    predicate Scanning() {
      !Idle? && !AtLoadWrite? && !Aborted?
    }

    /** The worker has found a packet and not yet given its slot back. */
    predicate Holding() {
      AtDeps? || AtKernel? || AtClear?
    }
  }

  /** One handled kernel dispatch: the packet id given to the kernel (or the index whose error
      is reported), the index the packet was published under, and the outcome. */
  datatype Report = Report(packetId: nat, id: nat, outcome: Outcome)

  datatype Queue = Queue(
    size: nat,
    kind: QueueType,
    slots: seq<Slot>,
    processed: seq<bool>,      // PacketIsProcessed; empty until its first use
    readIndex: nat,
    writeIndex: nat,
    doorbell: int,
    lastHandled: int,
    pc: Pc,
    // History. No branch of the protocol depends on it, except that a worker whose
    // pass was cut does not come back (see World).
    published: map<nat, Packet>,
    rung: set<nat>,
    reports: seq<Report>,
    ran: seq<nat>,             // packets whose kernel ran to its end
    retired: seq<nat>,
    stop: Option<nat>,         // the barrier at which the last pass stopped
    passStart: nat,            // |retired| when the current or last pass began
    met: map<nat, nat>,        // barriers met unsatisfied, with |retired| at the first meeting
    cut: bool)                 // a pass was left by the interruption jump

  /** `UserModeQueue`'s constructor. */
  ghost predicate Init(q: Queue) {
    && 0 < q.size < 0x8000_0000
    && |q.slots| == q.size
    && (forall s :: 0 <= s < q.size ==> q.slots[s] == Invalid)
    && q.processed == []
    && q.readIndex == 0 && q.writeIndex == 0
    && q.doorbell == NEVER_RUNG && q.lastHandled == NEVER_RUNG
    && q.pc == Idle
    && q.published == map[] && q.rung == {} && q.reports == [] && q.ran == [] && q.retired == []
    && q.stop == None && q.passStart == 0 && q.met == map[] && !q.cut
  }

  predicate WellFormed(q: Queue) {
    && 0 < q.size < 0x8000_0000
    && |q.slots| == q.size
    && (|q.processed| == 0 || |q.processed| == q.size)
  }

  predicate IsPacketProcessed(processed: seq<bool>, s: nat)
    requires |processed| == 0 || s < |processed|
  {
    |processed| != 0 && processed[s]
  }

  function SetPacketProcessed(processed: seq<bool>, size: nat, s: nat, flag: bool): (r: seq<bool>)
    requires s < size
    requires |processed| == 0 || |processed| == size
    ensures |r| == size
    ensures forall t :: 0 <= t < size ==>
              IsPacketProcessed(r, t) == if t == s then flag else IsPacketProcessed(processed, t)
  {
    var bits := if |processed| == 0 then seq(size, _ => false) else processed;
    bits[s := flag]
  }

  datatype Action =
    // Producers
    | Reserve(n: nat)
    | Publish(id: nat, packet: Packet)
    | Ring(id: nat)
    // Worker
    | Begin
    | LoadWrite
    | Visit(kernelFound: bool, groupGranted: bool)
    | ReadDep(value: int)
    | Return
    | Clear
    | Advance
    | Complete
    | Cut            // the jump of an interruption
    | CutInside      // the jump, between the two writes that move the read index
  {
    predicate IsProducer() {
      Reserve? || Publish? || Ring?
    }

    predicate IsCut() {
      Cut? || CutInside?
    }
  }

  /** A pass starts only after the doorbell left its initial value and changed since the last pass. */
  predicate DoorbellChanged(q: Queue) {
    q.doorbell != NEVER_RUNG && q.doorbell != q.lastHandled
  }

  /** The dependency signal the worker is about to load, if any. */
  function PendingDep(q: Queue): Handle {
    if q.pc.AtDeps? && q.pc.packet.IsBarrier() && q.pc.dep < 5 then q.pc.packet.deps[q.pc.dep] else 0
  }

  /** A producer publishes an index once, after reserving it and only when its slot is inside the
      window above the read index. It rings with its own index, once, after publishing; on a
      SINGLE queue the doorbell only grows, as the HSA API demands. */
  predicate Enabled(q: Queue, a: Action)
    requires WellFormed(q)
  {
    match a
    case Reserve(n) => true
    case Publish(id, p) => id < q.writeIndex && id !in q.published && id < q.readIndex + q.size
    case Ring(id) =>
      && id in q.published && id !in q.rung && id < NEVER_RUNG
      && (q.kind == Single ==> q.doorbell == NEVER_RUNG || q.doorbell < id)
    case Begin => q.pc.Idle? && !q.cut && DoorbellChanged(q)
    case LoadWrite => q.pc.AtLoadWrite?
    case Visit(_, _) => q.pc.AtScan?
    case ReadDep(_) => q.pc.AtDeps? && q.pc.packet.IsBarrier()
    case Return => q.pc.AtKernel?
    case Clear => q.pc.AtClear?
    case Advance => q.pc.AtAdvance?
    case Complete => q.pc.AtComplete?
    case Cut => !q.pc.Idle?
    case CutInside => MovesRead(q)
  }

  predicate ScanDone(pc: Pc)
    requires pc.AtScan?
  {
    pc.locals.last < pc.i || pc.locals.write <= pc.i
  }

  /** The next step stores the read index and then resets the processed bit of its slot. */
  predicate MovesRead(q: Queue)
    requires WellFormed(q)
  {
    || (q.pc.AtScan? && !ScanDone(q.pc) && q.pc.locals.read == q.pc.i
        && q.slots[Mod(q.pc.i, q.size)].Invalid? && IsPacketProcessed(q.processed, Mod(q.pc.i, q.size)))
    || (q.pc.AtAdvance? && q.pc.locals.read == q.pc.i)
  }

  /** An INVALID slot: the read index moves over it if the packet of the read index was processed. */
  function SkipSlot(q: Queue): Queue
    requires WellFormed(q) && q.pc.AtScan?
  {
    var i, l, s := q.pc.i, q.pc.locals, Mod(q.pc.i, q.size);
    if IsPacketProcessed(q.processed, s) && l.read == i then
      q.(readIndex := i + 1,
         processed := SetPacketProcessed(q.processed, q.size, s, false),
         pc := AtScan(i + 1, l.(read := i + 1)))
    else
      q.(pc := AtScan(i + 1, l))
  }

  /** A slot with a packet; `outcome` matters for a kernel dispatch only. */
  function TakePacket(q: Queue, id: nat, packet: Packet, outcome: Outcome): Queue
    requires q.pc.AtScan?
  {
    var i, l := q.pc.i, q.pc.locals;
    match packet
    case KernelDispatch(kernel, _) =>
      q.(reports := q.reports + [Report(i, id, outcome)],
         pc := if outcome == Launched then AtKernel(i, l, id, packet) else AtClear(i, l, id, packet))
    case Unsupported(_, _) => q.(pc := Aborted)
    case _ => q.(pc := AtDeps(i, l, id, packet, 0))
  }

  function OutcomeOf(packet: Packet, kernelFound: bool, groupGranted: bool): Outcome {
    if packet.KernelDispatch? then DispatchOutcome(packet.kernel, kernelFound, groupGranted) else Launched
  }

  /** One iteration's look at slot `i % size`. */
  function VisitSlot(q: Queue, kernelFound: bool, groupGranted: bool): Queue
    requires WellFormed(q) && q.pc.AtScan?
  {
    if ScanDone(q.pc) then
      q.(pc := Idle, stop := None)
    else
      match q.slots[Mod(q.pc.i, q.size)]
      case Invalid => SkipSlot(q)
      case Holds(id, packet) => TakePacket(q, id, packet, OutcomeOf(packet, kernelFound, groupGranted))
  }

  /** The pass ends at an unsatisfied barrier. */
  function StopAtBarrier(q: Queue): Queue
    requires q.pc.AtDeps?
  {
    q.(pc := Idle,
       stop := Some(q.pc.i),
       met := if q.pc.i in q.met then q.met else q.met[q.pc.i := |q.retired|])
  }

  /** One round of the loop over a barrier's dependency signals. */
  function ReadDependency(q: Queue, value: int): Queue
    requires q.pc.AtDeps? && q.pc.packet.IsBarrier()
  {
    var pc := q.pc;
    var satisfied := AtClear(pc.i, pc.locals, pc.id, pc.packet);
    if 5 <= pc.dep then
      if pc.packet.BarrierAnd? then q.(pc := satisfied) else StopAtBarrier(q)
    else if pc.packet.deps[pc.dep] == 0 then
      q.(pc := pc.(dep := pc.dep + 1))
    else if pc.packet.BarrierAnd? then
      if value != 0 then StopAtBarrier(q) else q.(pc := pc.(dep := pc.dep + 1))
    else
      if value == 0 then q.(pc := satisfied) else q.(pc := pc.(dep := pc.dep + 1))
  }

  /** A dependency read stops the pass, finds the barrier satisfied or goes on, each exactly when the
      AND or OR loop does; nothing but the worker and the record of stops changes. */
  lemma ReadDependencyCases(q: Queue, value: int)
    requires q.pc.AtDeps? && q.pc.packet.IsBarrier()
    ensures var q' := ReadDependency(q, value);
            || q' == StopAtBarrier(q)
            || q' == q.(pc := AtClear(q.pc.i, q.pc.locals, q.pc.id, q.pc.packet))
            || (q.pc.dep < 5 && q' == q.(pc := q.pc.(dep := q.pc.dep + 1)))
    ensures var q', dep := ReadDependency(q, value), PendingDep(q);
            && (q' == StopAtBarrier(q) <==>
                  if q.pc.packet.BarrierAnd? then dep != 0 && value != 0 else 5 <= q.pc.dep)
            && (q'.pc.AtClear? <==>
                  if q.pc.packet.BarrierAnd? then 5 <= q.pc.dep else dep != 0 && value == 0)
  {
  }

  function AdvanceRead(q: Queue): Queue
    requires WellFormed(q) && q.pc.AtAdvance?
  {
    var pc, s := q.pc, Mod(q.pc.i, q.size);
    if pc.locals.read == pc.i then
      q.(readIndex := pc.i + 1,
         processed := SetPacketProcessed(q.processed, q.size, s, false),
         pc := AtComplete(pc.i, pc.locals.(read := pc.i + 1), pc.id, pc.packet))
    else
      q.(processed := SetPacketProcessed(q.processed, q.size, s, true),
         pc := AtComplete(pc.i, pc.locals, pc.id, pc.packet))
  }

  /** How many packets a pass may look at, as the `int` it is stored in. */
  function PacketsToCheck(q: Queue, read: nat): int {
    ToInt32(if q.kind == Single then q.lastHandled - read else q.size)
  }

  function Next(q: Queue, a: Action): Queue
    requires WellFormed(q) && Enabled(q, a)
  {
    match a
    case Reserve(n) => q.(writeIndex := q.writeIndex + n)
    case Publish(id, p) =>
      q.(slots := q.slots[Mod(id, q.size) := Holds(id, p)], published := q.published[id := p])
    case Ring(id) => q.(doorbell := id, rung := q.rung + {id})
    case Begin =>
      q.(lastHandled := q.doorbell, pc := AtLoadWrite(q.readIndex), passStart := |q.retired|)
    case LoadWrite =>
      var r := q.pc.start;
      q.(pc := AtScan(r, Locals(r, q.writeIndex, r + PacketsToCheck(q, r))))
    case Visit(kernelFound, groupGranted) => VisitSlot(q, kernelFound, groupGranted)
    case ReadDep(value) => ReadDependency(q, value)
    case Return => q.(ran := q.ran + [q.pc.id], pc := AtClear(q.pc.i, q.pc.locals, q.pc.id, q.pc.packet))
    case Clear =>
      q.(slots := q.slots[Mod(q.pc.i, q.size) := Invalid],
         retired := q.retired + [q.pc.id],
         pc := AtAdvance(q.pc.i, q.pc.locals, q.pc.id, q.pc.packet))
    case Advance => AdvanceRead(q)
    case Complete => q.(pc := AtScan(q.pc.i + 1, q.pc.locals))
    case Cut => q.(pc := Idle, cut := true)
    case CutInside => q.(readIndex := q.pc.i + 1, pc := Idle, cut := true)
  }

  ghost predicate Step(q: Queue, q': Queue) {
    WellFormed(q) && exists a :: Enabled(q, a) && q' == Next(q, a)
  }

  /** An interleaving of producers and worker, from a new queue on. Between two states the rest
      of the system may have acted without touching this queue. */
  ghost predicate Run(tr: seq<Queue>) {
    && 0 < |tr| && Init(tr[0])
    && forall t :: 0 < t < |tr| ==> StepAt(tr, t)
  }

  ghost predicate StepAt(tr: seq<Queue>, t: nat)
    requires 0 < t < |tr|
  {
    tr[t] == tr[t - 1] || Step(tr[t - 1], tr[t])
  }

  /** Induction over a run whose states all satisfy `d`. */
  lemma {:induction false} RunInduction(tr: seq<Queue>, d: Queue -> bool, p: Queue -> bool, t: nat)
    requires Run(tr) && t < |tr|
    requires forall u :: 0 <= u < |tr| ==> d(tr[u])
    requires forall q :: Init(q) ==> p(q)
    requires forall q, q' :: p(q) && d(q) && d(q') && Step(q, q') ==> p(q')
    ensures p(tr[t])
  {
    if t > 0 {
      RunInduction(tr, d, p, t - 1);
      assert StepAt(tr, t);
    }
  }

  /** A reflexive and transitive relation kept by every step relates any two states of a run. */
  lemma {:induction false} RunRelation(tr: seq<Queue>, rel: (Queue, Queue) -> bool, t: nat, u: nat)
    requires Run(tr) && t <= u < |tr|
    requires forall q :: rel(q, q)
    requires forall q, q', q'' :: rel(q, q') && rel(q', q'') ==> rel(q, q'')
    requires forall v :: 0 < v < |tr| && Step(tr[v - 1], tr[v]) ==> rel(tr[v - 1], tr[v])
    ensures rel(tr[t], tr[u])
    decreases u
  {
    if t < u {
      RunRelation(tr, rel, t, u - 1);
      assert StepAt(tr, u);
      assert rel(tr[u - 1], tr[u]);
    }
  }

  // Disciplines of the producers, as properties of every state of a run.

  /** Producers reserve only when the ring has room. */
  predicate RoomChecked(q: Queue) {
    q.writeIndex <= q.readIndex + q.size
  }

  /** Packets are published in index order. */
  ghost predicate InOrder(q: Queue) {
    forall i: nat, j :: j in q.published && i < j ==> i in q.published
  }
}
