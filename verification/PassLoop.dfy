/** The worker's pass as the loop that executes it. Before every access of the worker to shared memory the
    programs that use the queue may do anything the protocol allows, and the jump of an interruption may
    end the pass; so every pass is a run of the queue protocol, whatever the interleaving. */
module PassLoop {
  import opened Modular
  import opened Packets
  import opened QueueProtocol
  import opened UserModeQueues
  import opened FixedRegion
  import opened ObjectRegistry
  import W = World
  import I = QueueInvariant
  import P = QueueProgress
  import R = QueueReports

  /** What a pass reads and writes. */
  datatype Cell = Cell(queue: Queue, signals: map<Handle, int>)

  predicate CellAction(c: Cell, a: Action)
    requires WellFormed(c.queue)
  {
    Enabled(c.queue, a) && W.ReadsSignal(c.queue, c.signals, a)
  }

  function CellNext(c: Cell, a: Action): Cell
    requires WellFormed(c.queue) && CellAction(c, a)
  {
    Cell(QueueProtocol.Next(c.queue, a), W.SignalsAfter(c.queue, c.signals, a))
  }

  /** A step of the worker or of a producer, or stores to signals by anybody. */
  ghost predicate CellStep(c: Cell, c': Cell) {
    || (WellFormed(c.queue) && exists a :: CellAction(c, a) && c' == CellNext(c, a))
    || (c'.queue == c.queue && c'.signals.Keys == c.signals.Keys)
  }

  ghost predicate Path(cells: seq<Cell>) {
    0 < |cells| && forall i :: 0 < i < |cells| ==> CellStep(cells[i - 1], cells[i])
  }

  ghost predicate Connects(cells: seq<Cell>, c: Cell, c': Cell) {
    Path(cells) && cells[0] == c && cells[|cells| - 1] == c'
  }

  /** Some interleaving takes the queue and the signals from c to c'. */
  ghost predicate Reaches(c: Cell, c': Cell) {
    exists cells :: Connects(cells, c, c')
  }

  lemma Stay(c: Cell)
    ensures Reaches(c, c)
  {
    assert Connects([c], c, c);
  }

  lemma Extend(c: Cell, c': Cell, c'': Cell)
    requires Reaches(c, c') && CellStep(c', c'')
    ensures Reaches(c, c'')
  {
    var cells :| Connects(cells, c, c');
    var longer := cells + [c''];
    forall i | 0 < i < |longer| ensures CellStep(longer[i - 1], longer[i]) {
    }
    assert Connects(longer, c, c'');
  }

  lemma Then(c: Cell, c': Cell, a: Action)
    requires Reaches(c, c') && WellFormed(c'.queue) && CellAction(c', a)
    ensures Reaches(c, CellNext(c', a))
  {
    Extend(c, c', CellNext(c', a));
  }

  /** What every step of worker and producers keeps, a whole pass keeps. */
  lemma {:induction false} PathInvariant(cells: seq<Cell>, p: Queue -> bool)
    requires Path(cells) && p(cells[0].queue)
    requires forall q, a :: p(q) && WellFormed(q) && Enabled(q, a) ==> p(QueueProtocol.Next(q, a))
    ensures p(cells[|cells| - 1].queue)
    decreases |cells|
  {
    if |cells| > 1 {
      PathInvariant(cells[..|cells| - 1], p);
      assert CellStep(cells[|cells| - 2], cells[|cells| - 1]);
    }
  }

  lemma ReachesInv(c: Cell, c': Cell)
    requires Reaches(c, c') && I.Inv(c.queue)
    ensures I.Inv(c'.queue)
  {
    var cells :| Connects(cells, c, c');
    var p := q => I.Inv(q);
    forall q, a | p(q) && WellFormed(q) && Enabled(q, a) ensures p(QueueProtocol.Next(q, a)) {
      I.StepKeepsInv(q, a);
    }
    PathInvariant(cells, p);
  }

  /** The worker's copy of the read index is the read index. */
  lemma LocalReadIndex(c: Cell, c': Cell)
    requires Reaches(c, c') && I.Inv(c.queue) && c'.queue.pc.Scanning()
    ensures c'.queue.pc.locals.read == c'.queue.readIndex
  {
    ReachesInv(c, c');
  }

  /** The slot the worker looks at holds a published packet. */
  lemma PacketInHand(c: Cell, c': Cell)
    requires Reaches(c, c') && I.Inv(c.queue) && WellFormed(c'.queue)
    requires c'.queue.pc.AtScan? && c'.queue.slots[Mod(c'.queue.pc.i, c'.queue.size)].Holds?
    ensures var slot := c'.queue.slots[Mod(c'.queue.pc.i, c'.queue.size)];
            slot.id in c'.queue.published && c'.queue.published[slot.id] == slot.packet
  {
    ReachesInv(c, c');
  }

  /** Outside a pass, with no ring outstanding, every rung index is retired or waits at or after the
      barrier the last pass stopped at. A pass that was cut promises nothing. */
  ghost predicate NothingLost(q: Queue) {
    q.pc.Idle? && !q.cut && !DoorbellChanged(q) ==>
      forall id :: id in q.rung ==> id in q.retired || (q.stop.Some? && q.stop.value <= id)
  }

  /** Whatever producers did meanwhile: after a pass with no ring outstanding, every index rung so far is
      retired, or waits at or after the barrier the pass stopped at. */
  lemma {:induction false} PassLosesNothing(c: Cell, c': Cell)
    requires Reaches(c, c') && P.ProgressInv(c.queue)
    ensures P.ProgressInv(c'.queue) && NothingLost(c'.queue)
  {
    var cells :| Connects(cells, c, c');
    var p := q => P.ProgressInv(q);
    forall q, a | p(q) && WellFormed(q) && Enabled(q, a) ensures p(QueueProtocol.Next(q, a)) {
      assert Step(q, QueueProtocol.Next(q, a));
      P.StepKeepsProgress(q, QueueProtocol.Next(q, a));
    }
    PathInvariant(cells, p);
  }

  lemma AfterPass(c: Cell, c': Cell)
    requires Reaches(c, c') && I.Inv(c.queue)
    ensures I.Inv(c'.queue)
    ensures P.ProgressInv(c.queue) ==> P.ProgressInv(c'.queue) && NothingLost(c'.queue)
    ensures R.KernelInv(c.queue) ==> R.KernelInv(c'.queue)
  {
    ReachesInv(c, c');
    if P.ProgressInv(c.queue) {
      PassLosesNothing(c, c');
    }
    if R.KernelInv(c.queue) {
      PassRunsKernelsRight(c, c');
    }
  }

  /** A pass keeps what KernelsRunExactly says about reports and kernels. */
  lemma {:induction false} PassRunsKernelsRight(c: Cell, c': Cell)
    requires Reaches(c, c') && R.KernelInv(c.queue)
    ensures R.KernelInv(c'.queue)
  {
    var cells :| Connects(cells, c, c');
    var p := q => R.KernelInv(q);
    forall q, a | p(q) && WellFormed(q) && Enabled(q, a) ensures p(QueueProtocol.Next(q, a)) {
      assert Step(q, QueueProtocol.Next(q, a));
      R.StepKeepsKernels(q, QueueProtocol.Next(q, a));
    }
    PathInvariant(cells, p);
  }

  predicate DepsKnown(p: Packet, signals: map<Handle, int>) {
    p.IsBarrier() ==> forall j :: 0 <= j < 5 && p.deps[j] != 0 ==> p.deps[j] in signals
  }

  ghost predicate DepsRegistered(slots: seq<Slot>, signals: map<Handle, int>) {
    forall s :: 0 <= s < |slots| && slots[s].Holds? ==> DepsKnown(slots[s].packet, signals)
  }

  ghost predicate AndSatisfied(deps: DepList, from: nat, signals: map<Handle, int>) {
    forall j :: from <= j < 5 && deps[j] != 0 ==> deps[j] in signals && signals[deps[j]] == 0
  }

  ghost predicate OrSatisfied(deps: DepList, from: nat, signals: map<Handle, int>) {
    exists j :: from <= j < 5 && deps[j] != 0 && deps[j] in signals && signals[deps[j]] == 0
  }

  ghost predicate BarrierSatisfied(p: Packet, from: nat, signals: map<Handle, int>)
    requires p.IsBarrier()
  {
    if p.BarrierAnd? then AndSatisfied(p.deps, from, signals) else OrSatisfied(p.deps, from, signals)
  }

  /** The worker reads the dependencies of a barrier, one at a time, while producers act but no signal
      changes and no jump comes. */
  ghost predicate QuietReads(cells: seq<Cell>) {
    && Path(cells)
    && (forall i :: 0 <= i < |cells| ==> cells[i].signals == cells[0].signals && !cells[i].queue.cut)
    && (forall i :: 0 <= i < |cells| - 1 ==> cells[i].queue.pc.AtDeps?)
    && cells[0].queue.pc.AtDeps? && cells[0].queue.pc.packet.IsBarrier() && cells[0].queue.pc.dep <= 5
    && DepsKnown(cells[0].queue.pc.packet, cells[0].signals)
  }

  /** At another dependency, with the verdict still the same. */
  ghost predicate SameVerdict(pc: Pc, pc': Pc, signals: map<Handle, int>) {
    && pc.AtDeps? && pc'.AtDeps? && pc'.dep <= 5 && pc' == pc.(dep := pc'.dep) && pc.packet.IsBarrier()
    && (BarrierSatisfied(pc.packet, pc.dep, signals) <==> BarrierSatisfied(pc.packet, pc'.dep, signals))
  }

  /** The verdict on a barrier: it is passed if its condition holds of the signals, and else the pass ends. */
  ghost predicate Verdict(pc: Pc, q: Queue, signals: map<Handle, int>)
    requires pc.AtDeps? && pc.packet.IsBarrier()
  {
    if BarrierSatisfied(pc.packet, pc.dep, signals) then q.pc == AtClear(pc.i, pc.locals, pc.id, pc.packet)
    else q.pc.Idle? && q.stop == Some(pc.i)
  }

  /** Either the reads go on with the verdict still open, or they ended with it. */
  ghost predicate DecidedSoFar(pc: Pc, q: Queue, signals: map<Handle, int>) {
    pc.AtDeps? && pc.packet.IsBarrier() && (SameVerdict(pc, q.pc, signals) || (!q.pc.AtDeps? && Verdict(pc, q, signals)))
  }

  lemma ReadKeepsVerdict(q: Queue, signals: map<Handle, int>, value: int)
    requires q.pc.AtDeps? && q.pc.packet.IsBarrier() && q.pc.dep <= 5 && DepsKnown(q.pc.packet, signals)
    requires PendingDep(q) != 0 ==> value == signals[PendingDep(q)]
    ensures DecidedSoFar(q.pc, ReadDependency(q, value), signals)
  {
    ReadDependencyCases(q, value);
  }

  lemma QuietStep(c: Cell, c': Cell)
    requires CellStep(c, c') && c'.signals == c.signals && !c'.queue.cut
    requires c.queue.pc.AtDeps? && c.queue.pc.packet.IsBarrier() && c.queue.pc.dep <= 5
    requires DepsKnown(c.queue.pc.packet, c.signals)
    ensures DecidedSoFar(c.queue.pc, c'.queue, c.signals)
  {
    if c'.queue != c.queue {
      var a :| CellAction(c, a) && c' == CellNext(c, a);
      if a.ReadDep? {
        ReadKeepsVerdict(c.queue, c.signals, a.value);
      } else {
        assert a.IsProducer();
      }
    }
  }

  /** However many producers act in between: every sequence of reads during which no signal changes ends
      with the verdict of the AND or OR condition on those signals. */
  lemma {:induction false} QuietReadsDecide(cells: seq<Cell>, n: nat)
    requires QuietReads(cells) && n < |cells|
    ensures DecidedSoFar(cells[0].queue.pc, cells[n].queue, cells[0].signals)
  {
    if n > 0 {
      QuietReadsDecide(cells, n - 1);
      assert CellStep(cells[n - 1], cells[n]);
      assert cells[n - 1].queue.pc.AtDeps?;
      QuietStep(cells[n - 1], cells[n]);
      VerdictsCompose(cells[0].queue.pc, cells[n - 1].queue.pc, cells[n].queue, cells[0].signals);
    }
  }

  lemma VerdictsCompose(pc: Pc, pc': Pc, q: Queue, signals: map<Handle, int>)
    requires SameVerdict(pc, pc', signals) && DecidedSoFar(pc', q, signals)
    ensures DecidedSoFar(pc, q, signals)
  {
  }

  /** What producers and stores to signals leave alone between two steps of the worker. */
  ghost predicate Untouched(q: Queue, q': Queue) {
    && q'.size == q.size && q'.kind == q.kind && q'.pc == q.pc && q'.cut == q.cut
    && q'.readIndex == q.readIndex && q'.processed == q.processed && q'.lastHandled == q.lastHandled
    && q'.reports == q.reports && q'.ran == q.ran && q'.retired == q.retired
    && |q'.slots| == |q.slots| && (forall s :: 0 <= s < |q.slots| && q.slots[s].Holds? ==> q'.slots[s] == q.slots[s])
  }

  ghost predicate PublishedKept(q: Queue, q': Queue) {
    forall id :: id in q.published ==> id in q'.published && q'.published[id] == q.published[id]
  }

  /** The doorbell changes only if something is rung, and the worker records it only when a pass begins. */
  ghost predicate Rings(q: Queue, q': Queue) {
    && |q.rung| <= |q'.rung| && (|q'.rung| == |q.rung| ==> q'.doorbell == q.doorbell)
    && q'.lastHandled == q.lastHandled && PublishedKept(q, q')
  }

  /** If nothing was rung, no ring is outstanding. */
  ghost predicate HandledUnlessRung(q: Queue, q': Queue) {
    |q.rung| <= |q'.rung| && (|q'.rung| == |q.rung| ==> q'.doorbell == q'.lastHandled)
  }

  lemma ProducerStep(q: Queue, a: Action)
    requires I.Inv(q) && Enabled(q, a) && a.IsProducer()
    ensures I.Inv(QueueProtocol.Next(q, a)) && Untouched(q, QueueProtocol.Next(q, a)) && Rings(q, QueueProtocol.Next(q, a))
  {
    I.StepKeepsInv(q, a);
    if a.Publish? {
      I.PublishTakesFreeSlot(q, a.id, a.packet);
    }
    if a.Ring? {
      assert a.id in QueueProtocol.Next(q, a).rung;
    }
  }

  /** The pass is at a barrier packet and has read none of its dependencies. */
  ghost predicate AtBarrier(q: Queue) {
    q.pc.AtDeps? && q.pc.dep == 0 && q.pc.packet.IsBarrier()
  }

  /** The barrier is passed, or the pass ends at it. */
  ghost predicate Decided(q: Queue, q': Queue, ok: bool)
    requires q.pc.AtDeps?
  {
    if ok then q'.pc == AtClear(q.pc.i, q.pc.locals, q.pc.id, q.pc.packet)
    else q'.pc.Idle? && q'.stop == Some(q.pc.i)
  }

  /** The packet the scan found is ready to be retired. */
  ghost predicate ToClear(q: Queue, q': Queue, id: nat, packet: Packet)
    requires q.pc.AtScan?
  {
    q'.pc.AtClear? && q'.pc.i == q.pc.i && q'.pc.locals == q.pc.locals && q'.pc.id == id && q'.pc.packet == packet
  }

  predicate OnlyReads(q: Queue, a: Action)
    requires WellFormed(q) && Enabled(q, a)
  {
    a.LoadWrite? || a.ReadDep? || a.Return? || (a.Visit? && (ScanDone(q.pc) || q.slots[Mod(q.pc.i, q.size)].Holds?))
  }

  lemma ReadingKeepsMemory(q: Queue, a: Action)
    requires WellFormed(q) && Enabled(q, a) && OnlyReads(q, a)
    ensures var q' := QueueProtocol.Next(q, a);
            && q'.size == q.size && q'.kind == q.kind && q'.slots == q.slots && q'.processed == q.processed
            && q'.readIndex == q.readIndex && q'.writeIndex == q.writeIndex
            && q'.doorbell == q.doorbell && q'.published == q.published && Rings(q, q')
  {
    if a.ReadDep? {
      ReadDependencyCases(q, a.value);
    }
  }

  /** A region with one live block more than those given. */
  ghost predicate HoldsOneMore(r: Region, chunks: seq<Chunk>) {
    exists p :: Live(r, p) && FreeIn(r, p).chunks == chunks
  }

  /** The live blocks are as before, but for one if the jump came. */
  ghost predicate KeepsBlocks(r: Region, r': Region, jumped: bool) {
    r'.chunks == r.chunks || (jumped && HoldsOneMore(r', r.chunks))
  }

  lemma AllocationIsOneMore(r: Region, size: nat, align: nat)
    requires FixedRegion.Valid(r) && 0 < size && 0 < align && AllocateIn(r, size, align).1 != 0
    ensures var (r', a) := AllocateIn(r, size, align);
            FixedRegion.Valid(r') && Live(r', a) && FreeIn(r', a).chunks == r.chunks && HoldsOneMore(r', r.chunks)
  {
    var (r', a) := AllocateIn(r, size, align);
    AllocateKeepsValid(r, size, align);
    FreeUndoesAllocate(r, size, align);
    assert Chunk(a, size, align) in r'.chunks;
    var i :| 0 <= i < |r'.chunks| && r'.chunks[i] == Chunk(a, size, align);
    assert r'.chunks[i].start == a;
  }

  /** Nothing was reported, run or retired. */
  ghost predicate SameLogs(q: Queue, q': Queue) {
    q'.reports == q.reports && q'.ran == q.ran && q'.retired == q.retired
  }

  /** One more report: about the packet published under `id`, with the packet id `packetId`. Its kernel ran
      if and only if it was launched. */
  ghost predicate Reports(q: Queue, q': Queue, packetId: nat, id: nat, outcome: Outcome) {
    && q'.reports == q.reports + [Report(packetId, id, outcome)]
    && q'.ran == q.ran + (if outcome == Launched then [id] else [])
  }

  /** The programs that use a queue, and what they have done to it so far. */
  class Clients {
    var published: map<nat, Packet>
    var rung: set<nat>

    ghost predicate Match(q: UserModeQueue)
      reads this, q
    {
      published == q.state.published && rung == q.state.rung
    }

    constructor ()
      ensures published == map[] && rung == {}
    {
      published, rung := map[], {};
    }

    /** One action, chosen arbitrarily among those the protocol allows, or none. */
    method Act(q: UserModeQueue, signals: map<Handle, int>, choice: Action) returns (ghost acted: bool)
      requires q.Valid() && Match(q)
      modifies this, q`writeIndex, q`doorbell, q`state, q.slots
      ensures q.Valid() && Match(q)
      ensures acted ==>
                && Enabled(old(q.state), choice) && choice.IsProducer()
                && q.state == QueueProtocol.Next(old(q.state), choice)
                && (choice.Publish? ==> DepsKnown(choice.packet, signals))
      ensures !acted ==> q.state == old(q.state)
    {
      acted := true;
      if choice.Reserve? {
        var was := q.AddWriteIndex(choice.n);
      } else if choice.Publish? && choice.id < q.writeIndex && choice.id !in published
                && choice.id < q.readIndex + q.slots.Length && DepsKnown(choice.packet, signals)
      {
        q.slots[Mod(choice.id, q.slots.Length)] := Holds(choice.id, choice.packet);
        published := published[choice.id := choice.packet];
        q.state := QueueProtocol.Next(q.state, choice);
      } else if choice.Ring? && choice.id in published && choice.id !in rung && choice.id < NEVER_RUNG
                && (q.kind == Single ==> q.doorbell == NEVER_RUNG || q.doorbell < choice.id)
      {
        q.doorbell := choice.id;
        rung := rung + {choice.id};
        q.state := QueueProtocol.Next(q.state, choice);
      } else {
        acted := false;
      }
    }
  }

  class KernelAgent {
    var signals: map<Handle, int>
    const symbols: HSAObjectMapping
    const kernels: set<Object>       // the symbols that are kernels
    const groupMemoryRegion: FixedMemoryRegion
    var interrupted: bool            // the jump came: the worker is back at its landing spot

    constructor (signals: map<Handle, int>, symbols: HSAObjectMapping, kernels: set<Object>, region: FixedMemoryRegion)
      ensures this.signals == signals && this.symbols == symbols && this.kernels == kernels && groupMemoryRegion == region
      ensures !interrupted
    {
      this.signals, this.symbols, this.kernels, groupMemoryRegion := signals, symbols, kernels, region;
      interrupted := false;
    }

    /** Whether a handle finds a kernel. */
    ghost predicate KernelFound(registry: map<nat, Object>, handle: Handle) {
      handle in registry && registry[handle] != NULL && registry[handle] in kernels
    }

    /** A report is about a published dispatch packet and tells what has to be told about it. */
    ghost predicate ReportOk(q: Queue, r: Report, registry: map<nat, Object>) {
      && r.id in q.published && q.published[r.id].KernelDispatch?
      && OutcomePossible(q.published[r.id].kernel, KernelFound(registry, q.published[r.id].kernel.kernelObject), r.outcome)
    }

    /** The outcome is right, with group memory granted or not; none is granted if none is asked for. */
    ghost predicate OutcomePossible(p: KernelPacket, found: bool, outcome: Outcome) {
      || OutcomeIs(p, found, false, outcome)
      || (p.groupSegmentSize != 0 && OutcomeIs(p, found, true, outcome))
    }

    /** All reports from the n-th on are right. */
    ghost predicate ReportsOkFrom(q: Queue, n: nat, registry: map<nat, Object>) {
      n <= |q.reports| && forall r :: n <= r < |q.reports| ==> ReportOk(q, q.reports[r], registry)
    }

    /** What handling a packet adds to the reports is right. */
    lemma HandledReportOk(q: Queue, q': Queue, i: nat, id: nat, packet: Packet, registry: map<nat, Object>, r: Region,
                          outcome: Outcome)
      requires id in q.published && q.published[id] == packet && PublishedKept(q, q')
      requires !packet.KernelDispatch? ==> q'.reports == q.reports
      requires packet.KernelDispatch? ==>
                 && OutcomeIs(packet.kernel, KernelFound(registry, packet.kernel.kernelObject),
                              Granted(r, packet.kernel.groupSegmentSize), outcome)
                 && (q'.reports == q.reports + [Report(i, id, outcome)] || q'.reports == q.reports)
      ensures q.reports <= q'.reports && ReportsOkFrom(q', |q.reports|, registry)
    {
    }

    /** They stay right while packets are published and lookups do not change. */
    lemma ReportsStayOk(q: Queue, q': Queue, n: nat, registry: map<nat, Object>, registry': map<nat, Object>)
      requires ReportsOkFrom(q, n, registry) && q.reports <= q'.reports && PublishedKept(q, q')
      requires forall h :: Lookup(registry, h) == Lookup(registry', h)
      requires ReportsOkFrom(q', |q.reports|, registry')
      ensures ReportsOkFrom(q', n, registry)
    {
      forall r | n <= r < |q'.reports| ensures ReportOk(q', q'.reports[r], registry) {
        var report := q'.reports[r];
        if r < |q.reports| {
          assert report == q.reports[r] && ReportOk(q, report, registry);
          assert q'.published[report.id] == q.published[report.id];
        } else {
          assert ReportOk(q', report, registry');
          var handle := q'.published[report.id].kernel.kernelObject;
          assert Lookup(registry, handle) == Lookup(registry', handle);
        }
      }
    }

    ghost function CellOf(q: UserModeQueue): Cell
      reads this, q
    {
      Cell(q.state, signals)
    }

    /** The queue and the signals got where they are by an interleaving that began at `start`. */
    ghost predicate Linked(q: UserModeQueue, clients: Clients, start: Cell)
      reads this, q, q.slots, clients
    {
      && q.Valid() && clients.Match(q) && DepsRegistered(q.slots[..], signals)
      && I.Inv(start.queue) && Reaches(start, CellOf(q))
      && interrupted == q.state.cut && (interrupted ==> q.state.pc.Idle?)
    }

    /** Others act: any number of actions of clients and stores to signals. */
    method Interfere(q: UserModeQueue, clients: Clients, ghost start: Cell)
      requires Linked(q, clients, start)
      modifies this`signals, q`writeIndex, q`doorbell, q`state, q.slots, clients
      ensures Linked(q, clients, start) && signals.Keys == old(signals.Keys)
      ensures Untouched(old(q.state), q.state) && Rings(old(q.state), q.state)
    {
      var n: nat := *;
      while n > 0
        invariant Linked(q, clients, start) && signals.Keys == old(signals.Keys)
        invariant Untouched(old(q.state), q.state) && Rings(old(q.state), q.state)
      {
        var store: bool := *;
        if store {
          InterfereWithSignal(q, clients, start);
        } else {
          InterfereWithQueue(q, clients, start);
        }
        n := n - 1;
      }
    }

    method InterfereWithSignal(q: UserModeQueue, clients: Clients, ghost start: Cell)
      requires Linked(q, clients, start)
      modifies this`signals
      ensures Linked(q, clients, start) && signals.Keys == old(signals.Keys)
    {
      var signal: Handle := *;
      var value: int := *;
      if signal in signals {
        ghost var was := CellOf(q);
        signals := signals[signal := value];
        Extend(start, was, CellOf(q));
      }
    }

    method InterfereWithQueue(q: UserModeQueue, clients: Clients, ghost start: Cell)
      requires Linked(q, clients, start)
      modifies q`writeIndex, q`doorbell, q`state, q.slots, clients
      ensures Linked(q, clients, start) && Untouched(old(q.state), q.state) && Rings(old(q.state), q.state)
    {
      ghost var was := q.state;
      ReachesInv(start, CellOf(q));
      var choice: Action := *;
      ghost var acted := clients.Act(q, signals, choice);
      if acted {
        ProducerStep(was, choice);
        Then(start, Cell(was, signals), choice);
      }
    }

    /** Others act while the worker is in its pass, and the jump may come. */
    method Disturb(q: UserModeQueue, clients: Clients, ghost start: Cell)
      requires Linked(q, clients, start) && !q.state.pc.Idle?
      modifies this`signals, this`interrupted, q`writeIndex, q`doorbell, q`state, q.slots, clients
      ensures Linked(q, clients, start) && signals.Keys == old(signals.Keys) && Rings(old(q.state), q.state)
      ensures SameLogs(old(q.state), q.state)
      ensures !interrupted ==> Untouched(old(q.state), q.state)
    {
      Interfere(q, clients, start);
      var jump: bool := *;
      if jump {
        Then(start, CellOf(q), Cut);
        q.state := QueueProtocol.Next(q.state, Cut);
        interrupted := true;
      }
    }

    /** The scan found a packet in the slot it looks at. */
    ghost predicate AtPacket(q: UserModeQueue, i: nat, packet: Packet)
      reads q, q.slots
    {
      && q.Valid() && q.state.pc.AtScan? && q.state.pc.i == i && !ScanDone(q.state.pc)
      && q.slots[Mod(i, q.slots.Length)].Holds? && q.slots[Mod(i, q.slots.Length)].packet == packet
    }

    /** One round of the two loops below. */
    method LoadDependency(q: UserModeQueue, clients: Clients, dep: Handle, ghost start: Cell) returns (value: int)
      requires Linked(q, clients, start) && q.state.pc.AtDeps? && q.state.pc.packet.IsBarrier() && q.state.pc.dep < 5
      requires q.state.pc.packet.deps[q.state.pc.dep] == dep && (dep != 0 ==> dep in signals)
      modifies this`signals, this`interrupted, q`writeIndex, q`doorbell, q`state, q.slots, clients
      ensures Linked(q, clients, start) && signals.Keys == old(signals.Keys) && Rings(old(q.state), q.state)
      ensures SameLogs(old(q.state), q.state)
      ensures dep != 0 && !interrupted ==> value == signals[dep]
      ensures !interrupted ==>
                var pc, and := old(q.state.pc), old(q.state.pc.packet.BarrierAnd?);
                if dep != 0 && and && value != 0 then q.state.pc.Idle? && q.state.stop == Some(pc.i)
                else if dep != 0 && !and && value == 0 then q.state.pc == AtClear(pc.i, pc.locals, pc.id, pc.packet)
                else q.state.pc == pc.(dep := pc.dep + 1)
    {
      Disturb(q, clients, start);
      value := 0;
      if interrupted {
        return;
      }
      if dep != 0 {
        value := signals[dep];
      }
      TakeStep(q, clients, ReadDep(value), start);
    }

    /** The loop over the dependencies of a barrier-AND packet. If no signal changed meanwhile, it tells
        whether all of them are 0. */
    method BarrierAndReady(q: UserModeQueue, clients: Clients, deps: DepList, ghost start: Cell)
        returns (ok: bool, ghost calm: bool)
      requires Linked(q, clients, start) && AtBarrier(q.state) && q.state.pc.packet.BarrierAnd? && q.state.pc.packet.deps == deps
      requires forall j :: 0 <= j < 5 && deps[j] != 0 ==> deps[j] in signals
      modifies this`signals, this`interrupted, q`writeIndex, q`doorbell, q`state, q.slots, clients
      ensures Linked(q, clients, start) && signals.Keys == old(signals.Keys) && Rings(old(q.state), q.state)
      ensures SameLogs(old(q.state), q.state)
      ensures calm && !interrupted ==> (ok <==> AndSatisfied(deps, 0, old(signals)))
      ensures !interrupted ==> Decided(old(q.state), q.state, ok)
    {
      ok, calm := true, true;
      ghost var before, was := q.state, signals;
      var i := 0;
      while i < 5
        invariant 0 <= i <= 5 && ok && !interrupted && Linked(q, clients, start) && signals.Keys == was.Keys
        invariant q.state.pc == before.pc.(dep := i) && Rings(before, q.state) && SameLogs(before, q.state)
        invariant calm ==> signals == was
        invariant calm ==> forall j :: 0 <= j < i && deps[j] != 0 ==> was[deps[j]] == 0
      {
        var value := LoadDependency(q, clients, deps[i], start);
        calm := calm && signals == was;
        if interrupted {
          return;
        }
        if deps[i] != 0 && value != 0 {
          ok := false;
          return;
        }
        i := i + 1;
      }
      TakeStep(q, clients, ReadDep(0), start);
    }

    /** The same for a barrier-OR packet: whether one of them is 0. */
    method BarrierOrReady(q: UserModeQueue, clients: Clients, deps: DepList, ghost start: Cell)
        returns (ok: bool, ghost calm: bool)
      requires Linked(q, clients, start) && AtBarrier(q.state) && q.state.pc.packet.BarrierOr? && q.state.pc.packet.deps == deps
      requires forall j :: 0 <= j < 5 && deps[j] != 0 ==> deps[j] in signals
      modifies this`signals, this`interrupted, q`writeIndex, q`doorbell, q`state, q.slots, clients
      ensures Linked(q, clients, start) && signals.Keys == old(signals.Keys) && Rings(old(q.state), q.state)
      ensures SameLogs(old(q.state), q.state)
      ensures calm && !interrupted ==> (ok <==> OrSatisfied(deps, 0, old(signals)))
      ensures !interrupted ==> Decided(old(q.state), q.state, ok)
    {
      ok, calm := false, true;
      ghost var before, was := q.state, signals;
      var i := 0;
      while i < 5
        invariant 0 <= i <= 5 && !ok && !interrupted && Linked(q, clients, start) && signals.Keys == was.Keys
        invariant q.state.pc == before.pc.(dep := i) && Rings(before, q.state) && SameLogs(before, q.state)
        invariant calm ==> signals == was
        invariant calm ==> forall j :: 0 <= j < i && deps[j] != 0 ==> was[deps[j]] != 0
      {
        var value := LoadDependency(q, clients, deps[i], start);
        calm := calm && signals == was;
        if interrupted {
          return;
        }
        if deps[i] != 0 && value == 0 {
          ok := true;
          return;
        }
        i := i + 1;
      }
      TakeStep(q, clients, ReadDep(0), start);
    }

    /** A step of the worker that reads memory but writes none. */
    method TakeStep(q: UserModeQueue, clients: Clients, ghost a: Action, ghost start: Cell)
      requires Linked(q, clients, start) && !interrupted && CellAction(CellOf(q), a) && OnlyReads(q.state, a)
      modifies q`state
      ensures Linked(q, clients, start) && q.state == QueueProtocol.Next(old(q.state), a) && Rings(old(q.state), q.state)
    {
      Then(start, CellOf(q), a);
      ReadingKeepsMemory(q.state, a);
      q.state := QueueProtocol.Next(q.state, a);
    }

    /** Allocates the kernel's group memory and decides what becomes of the packet. */
    method Dispatch(k: DispatchPacket) returns (outcome: Outcome, groupMemory: nat)
      requires FixedRegion.Valid(groupMemoryRegion.View())
      modifies groupMemoryRegion, symbols
      ensures FixedRegion.Valid(groupMemoryRegion.View())
      ensures if groupMemory == 0 then groupMemoryRegion.View().chunks == old(groupMemoryRegion.View().chunks)
              else && HoldsOneMore(groupMemoryRegion.View(), old(groupMemoryRegion.View().chunks))
                   && FreeIn(groupMemoryRegion.View(), groupMemory).chunks == old(groupMemoryRegion.View().chunks)
      ensures forall h :: Lookup(symbols.registry, h) == Lookup(old(symbols.registry), h)
      ensures var found := Lookup(old(symbols.registry), k.kernelObject);
              OutcomeIs(k, found != NULL && found in kernels, groupMemory != 0, outcome)
      ensures groupMemory != 0 <==> Granted(old(groupMemoryRegion.View()), k.groupSegmentSize)
      ensures Mod(groupMemory, 16) == 0
    {
      groupMemory := 0;
      if k.groupSegmentSize != 0 {
        ghost var r := groupMemoryRegion.View();
        ValidHasNoNull(r);
        AllocateKeepsValid(r, k.groupSegmentSize, 16);
        groupMemory := groupMemoryRegion.Allocate(k.groupSegmentSize, 16);
        if groupMemory != 0 {
          AllocationIsOneMore(r, k.groupSegmentSize, 16);
          PlacementIsFirstFit(r, k.groupSegmentSize, 16);
        }
      }
      var kernel := symbols.FromHandle(k.kernelObject);
      outcome := DispatchOutcome(k, kernel != NULL && kernel in kernels, groupMemory != 0);
      DispatchOutcomeMeaning(k, kernel != NULL && kernel in kernels, groupMemory != 0);
    }

    method HandleBarrier(q: UserModeQueue, clients: Clients, i: nat, packet: Packet, ghost start: Cell)
        returns (ok: bool, ghost calm: bool)
      requires Linked(q, clients, start) && AtPacket(q, i, packet) && packet.IsBarrier()
      modifies this`signals, this`interrupted, q`writeIndex, q`doorbell, q`state, q.slots, clients
      ensures Linked(q, clients, start) && signals.Keys == old(signals.Keys) && Rings(old(q.state), q.state)
      ensures SameLogs(old(q.state), q.state)
      ensures calm && !interrupted ==> (ok <==> BarrierSatisfied(packet, 0, old(signals)))
      ensures !interrupted && ok ==> ToClear(old(q.state), q.state, old(q.slots[Mod(i, q.slots.Length)].id), packet)
      ensures !interrupted && !ok ==> q.state.pc.Idle? && q.state.stop == Some(i)
    {
      TakeStep(q, clients, Visit(false, false), start);
      if packet.BarrierAnd? {
        ok, calm := BarrierAndReady(q, clients, packet.deps, start);
      } else {
        ok, calm := BarrierOrReady(q, clients, packet.deps, start);
      }
    }

    /** One report, and the kernel runs if and only if it says so. The group memory is given back unless the
        jump comes first. */
    method HandleKernel(q: UserModeQueue, clients: Clients, i: nat, packet: Packet, ghost start: Cell)
        returns (ghost outcome: Outcome)
      requires Linked(q, clients, start) && AtPacket(q, i, packet) && packet.KernelDispatch?
      requires FixedRegion.Valid(groupMemoryRegion.View())
      modifies this`signals, this`interrupted, q`writeIndex, q`doorbell, q`state, q.slots, clients, groupMemoryRegion, symbols
      ensures Linked(q, clients, start) && signals.Keys == old(signals.Keys) && Rings(old(q.state), q.state)
      ensures FixedRegion.Valid(groupMemoryRegion.View())
      ensures KeepsBlocks(old(groupMemoryRegion.View()), groupMemoryRegion.View(), interrupted)
      ensures forall h :: Lookup(symbols.registry, h) == Lookup(old(symbols.registry), h)
      ensures OutcomeIs(packet.kernel, KernelFound(old(symbols.registry), packet.kernel.kernelObject),
                        Granted(old(groupMemoryRegion.View()), packet.kernel.groupSegmentSize), outcome)
      ensures var id := old(q.slots[Mod(i, q.slots.Length)].id);
              if interrupted then q.state.reports == old(q.state.reports) + [Report(i, id, outcome)] ||
                                  q.state.reports == old(q.state.reports)
              else ToClear(old(q.state), q.state, id, packet) && Reports(old(q.state), q.state, i, id, outcome)
      ensures q.state.retired == old(q.state.retired)
    {
      var o, groupMemory := Dispatch(packet.kernel);
      outcome := o;
      RunKernel(q, clients, i, packet, o, groupMemory, start);
      if !interrupted && groupMemory != 0 {
        GiveBack(groupMemory, old(groupMemoryRegion.View().chunks));
      }
    }

    /** Group memory of some size is asked for and available. */
    ghost predicate Granted(r: Region, size: nat) {
      size != 0 && AllocateIn(r, size, 16).1 != 0
    }

    method GiveBack(groupMemory: nat, ghost chunks: seq<Chunk>)
      requires FixedRegion.Valid(groupMemoryRegion.View()) && FreeIn(groupMemoryRegion.View(), groupMemory).chunks == chunks
      modifies groupMemoryRegion
      ensures FixedRegion.Valid(groupMemoryRegion.View()) && groupMemoryRegion.View().chunks == chunks
    {
      FreeKeepsValid(groupMemoryRegion.View(), groupMemory);
      var freed := groupMemoryRegion.Free(groupMemory);
    }

    /** The kernel runs, with packet id i, or the queue's error callback does. Others act meanwhile. */
    method RunKernel(q: UserModeQueue, clients: Clients, i: nat, packet: Packet, outcome: Outcome, groupMemory: nat,
                     ghost start: Cell)
      requires Linked(q, clients, start) && AtPacket(q, i, packet) && packet.KernelDispatch?
      requires OutcomeIs(packet.kernel, KernelFound(symbols.registry, packet.kernel.kernelObject), groupMemory != 0, outcome)
      modifies this`signals, this`interrupted, q`writeIndex, q`doorbell, q`state, q.slots, clients
      ensures Linked(q, clients, start) && signals.Keys == old(signals.Keys) && Rings(old(q.state), q.state)
      ensures var id := old(q.slots[Mod(i, q.slots.Length)].id);
              if interrupted then q.state.reports == old(q.state.reports) + [Report(i, id, outcome)] ||
                                  q.state.reports == old(q.state.reports)
              else ToClear(old(q.state), q.state, id, packet) && Reports(old(q.state), q.state, i, id, outcome)
      ensures q.state.retired == old(q.state.retired)
    {
      Disturb(q, clients, start);
      if interrupted {
        return;
      }
      ghost var found := KernelFound(symbols.registry, packet.kernel.kernelObject);
      DispatchOutcomeMeaning(packet.kernel, found, groupMemory != 0);
      OutcomeIsUnique(packet.kernel, found, groupMemory != 0, outcome);
      TakeStep(q, clients, Visit(found, groupMemory != 0), start);
      Disturb(q, clients, start);
      if !interrupted && outcome == Launched {
        TakeStep(q, clients, Return, start);
      }
    }

    lemma OutcomeIsUnique(p: DispatchPacket, found: bool, granted: bool, outcome: Outcome)
      requires OutcomeIs(p, found, granted, outcome)
      ensures outcome == DispatchOutcome(p, found, granted)
    {
      DispatchOutcomeMeaning(p, found, granted);
    }

    /** Gives the slot back, moves the read index or sets the processed bit, and completes. */
    method Retire(q: UserModeQueue, clients: Clients, i: nat, completion: Handle, ghost start: Cell) returns (read: nat)
      requires Linked(q, clients, start) && q.state.pc.AtClear? && q.state.pc.i == i
      requires q.state.pc.packet.completion == completion
      modifies this`signals, this`interrupted, q`writeIndex, q`doorbell, q`readIndex, q`packetIsProcessed, q`state,
        q.slots, clients
      ensures Linked(q, clients, start) && signals.Keys == old(signals.Keys) && Rings(old(q.state), q.state)
      ensures q.state.reports == old(q.state.reports) && q.state.ran == old(q.state.ran)
      ensures !interrupted ==>
                && q.state.pc == AtScan(i + 1, old(q.state.pc.locals).(read := read))
                && read == q.readIndex == (if old(q.readIndex) == i then i + 1 else old(q.readIndex))
                && q.state.retired == old(q.state.retired) + [old(q.state.pc.id)]
                && (completion != 0 && completion in signals ==> signals[completion] == 0)
    {
      read := RetireSlot(q, clients, i, start);
      if interrupted {
        return;
      }
      Disturb(q, clients, start);
      if !interrupted {
        CompletePacket(q, clients, completion, start);
      }
    }

    method RetireSlot(q: UserModeQueue, clients: Clients, i: nat, ghost start: Cell) returns (read: nat)
      requires Linked(q, clients, start) && q.state.pc.AtClear? && q.state.pc.i == i
      modifies this`signals, this`interrupted, q`writeIndex, q`doorbell, q`readIndex, q`packetIsProcessed, q`state,
        q.slots, clients
      ensures Linked(q, clients, start) && signals.Keys == old(signals.Keys) && Rings(old(q.state), q.state)
      ensures q.state.reports == old(q.state.reports) && q.state.ran == old(q.state.ran)
      ensures !interrupted ==>
                var pc := old(q.state.pc);
                && q.state.pc == AtComplete(i, pc.locals.(read := read), pc.id, pc.packet)
                && read == q.readIndex == (if old(q.readIndex) == i then i + 1 else old(q.readIndex))
                && q.state.retired == old(q.state.retired) + [pc.id]
    {
      read := q.readIndex;
      Disturb(q, clients, start);
      if interrupted {
        return;
      }
      ClearSlot(q, clients, i, start);
      Disturb(q, clients, start);
      if interrupted {
        return;
      }
      read := RecordProcessed(q, clients, i, start);
    }

    method ClearSlot(q: UserModeQueue, clients: Clients, i: nat, ghost start: Cell)
      requires Linked(q, clients, start) && q.state.pc.AtClear? && q.state.pc.i == i
      modifies q`state, q.slots
      ensures Linked(q, clients, start) && Rings(old(q.state), q.state)
      ensures q.state == QueueProtocol.Next(old(q.state), Clear)
      ensures q.slots[..] == old(q.slots[..])[Mod(i, q.slots.Length) := Invalid]
    {
      Then(start, CellOf(q), Clear);
      q.slots[Mod(i, q.slots.Length)] := Invalid;
      q.state := QueueProtocol.Next(q.state, Clear);
    }

    method RecordProcessed(q: UserModeQueue, clients: Clients, i: nat, ghost start: Cell) returns (read: nat)
      requires Linked(q, clients, start) && q.state.pc.AtAdvance? && q.state.pc.i == i
      modifies this`interrupted, q`readIndex, q`packetIsProcessed, q`state
      ensures Linked(q, clients, start) && Rings(old(q.state), q.state)
      ensures read == q.readIndex == (if old(q.readIndex) == i then i + 1 else old(q.readIndex))
      ensures !interrupted ==>
                && q.state == QueueProtocol.Next(old(q.state), Advance) && q.state.pc.locals.read == read
                && q.packetIsProcessed == SetPacketProcessed(old(q.packetIsProcessed), q.slots.Length,
                                                             Mod(i, q.slots.Length), old(q.readIndex) != i)
      ensures interrupted ==>
                && MovesRead(old(q.state)) && q.state == QueueProtocol.Next(old(q.state), CutInside)
                && q.packetIsProcessed == old(q.packetIsProcessed)
    {
      read := q.readIndex;
      LocalReadIndex(start, CellOf(q));
      if read == i {
        read := i + 1;
        MoveReadIndex(q, clients, i, Advance, start);
      } else {
        Then(start, CellOf(q), Advance);
        q.MarkProcessed(Mod(i, q.slots.Length), true);
        q.state := QueueProtocol.Next(q.state, Advance);
      }
    }

    /** The two writes that move the read index over index i. The jump may come between them. */
    method MoveReadIndex(q: UserModeQueue, clients: Clients, i: nat, ghost a: Action, ghost start: Cell)
      requires Linked(q, clients, start) && MovesRead(q.state) && q.state.pc.i == i
      requires a == if q.state.pc.AtScan? then Visit(false, false) else Advance
      modifies this`interrupted, q`readIndex, q`packetIsProcessed, q`state
      ensures Linked(q, clients, start) && Rings(old(q.state), q.state) && q.readIndex == i + 1
      ensures q.state == QueueProtocol.Next(old(q.state), if interrupted then CutInside else a)
      ensures q.packetIsProcessed == if interrupted then old(q.packetIsProcessed)
                                     else SetPacketProcessed(old(q.packetIsProcessed), q.slots.Length, Mod(i, q.slots.Length), false)
    {
      q.readIndex := i + 1;
      var jump: bool := *;
      if jump {
        Then(start, CellOf(q), CutInside);
        q.state := QueueProtocol.Next(q.state, CutInside);
        interrupted := true;
        return;
      }
      Then(start, CellOf(q), a);
      q.MarkProcessed(Mod(i, q.slots.Length), false);
      q.state := QueueProtocol.Next(q.state, a);
    }

    /** Stores 0 to the packet's own signal and to no other. */
    method CompletePacket(q: UserModeQueue, clients: Clients, completion: Handle, ghost start: Cell)
      requires Linked(q, clients, start) && q.state.pc.AtComplete? && q.state.pc.packet.completion == completion
      modifies this`signals, q`state
      ensures Linked(q, clients, start) && Rings(old(q.state), q.state)
      ensures q.state == QueueProtocol.Next(old(q.state), Complete)
      ensures signals == if completion != 0 && completion in old(signals) then old(signals)[completion := 0] else old(signals)
    {
      Then(start, CellOf(q), Complete);
      if completion != 0 && completion in signals {
        signals := signals[completion := 0];
      }
      q.state := QueueProtocol.Next(q.state, Complete);
    }

    /** A slot with a packet; not ok if the pass (or the process) ends here. A packet that the worker goes on
        from is retired and its completion signal is 0; a kernel dispatch got its one report. */
    method HandlePacket(q: UserModeQueue, clients: Clients, i: nat, packet: Packet, ghost start: Cell)
        returns (ok: bool, read: nat, ghost outcome: Outcome)
      requires Linked(q, clients, start) && AtPacket(q, i, packet)
      requires FixedRegion.Valid(groupMemoryRegion.View())
      modifies this`signals, this`interrupted, q`writeIndex, q`doorbell, q`readIndex, q`packetIsProcessed, q`state,
        q.slots, clients, groupMemoryRegion, symbols
      ensures Linked(q, clients, start) && signals.Keys == old(signals.Keys) && Rings(old(q.state), q.state)
      ensures FixedRegion.Valid(groupMemoryRegion.View())
      ensures KeepsBlocks(old(groupMemoryRegion.View()), groupMemoryRegion.View(), interrupted)
      ensures forall h :: Lookup(symbols.registry, h) == Lookup(old(symbols.registry), h)
      ensures ok ==> !interrupted && q.state.pc == AtScan(i + 1, old(q.state.pc.locals).(read := read)) && read == q.readIndex
      ensures !ok ==> q.state.pc.Idle? || q.state.pc.Aborted?
      ensures packet.Unsupported? ==> !ok && q.state.retired == old(q.state.retired)
      ensures !packet.KernelDispatch? ==> q.state.reports == old(q.state.reports) && q.state.ran == old(q.state.ran)
      ensures var id := old(q.slots[Mod(i, q.slots.Length)].id);
              && (ok ==> q.state.retired == old(q.state.retired) + [id])
              && (ok && packet.completion != 0 && packet.completion in signals ==> signals[packet.completion] == 0)
              && (packet.KernelDispatch? ==>
                    && OutcomeIs(packet.kernel, KernelFound(old(symbols.registry), packet.kernel.kernelObject),
                                 Granted(old(groupMemoryRegion.View()), packet.kernel.groupSegmentSize), outcome)
                    && (if ok then Reports(old(q.state), q.state, i, id, outcome)
                        else q.state.reports == old(q.state.reports) + [Report(i, id, outcome)] ||
                             q.state.reports == old(q.state.reports)))
    {
      ok, read, outcome := true, q.readIndex, Launched;
      if packet.IsBarrier() {
        ghost var calm;
        ok, calm := HandleBarrier(q, clients, i, packet, start);
      } else if packet.KernelDispatch? {
        outcome := HandleKernel(q, clients, i, packet, start);
      } else {
        TakeStep(q, clients, Visit(false, false), start);
        ok := false;
      }
      if ok && !interrupted {
        read := Retire(q, clients, i, packet.completion, start);
      }
      ok := ok && !interrupted;
    }

    /** One iteration of the pass; not ok if the pass ends here. */
    method VisitPacket(q: UserModeQueue, clients: Clients, i: nat, ghost start: Cell) returns (ok: bool, read: nat)
      requires Linked(q, clients, start) && q.state.pc.AtScan? && q.state.pc.i == i && !ScanDone(q.state.pc)
      requires FixedRegion.Valid(groupMemoryRegion.View())
      modifies this`signals, this`interrupted, q`writeIndex, q`doorbell, q`readIndex, q`packetIsProcessed, q`state,
        q.slots, clients, groupMemoryRegion, symbols
      ensures Linked(q, clients, start) && signals.Keys == old(signals.Keys) && Rings(old(q.state), q.state)
      ensures FixedRegion.Valid(groupMemoryRegion.View())
      ensures KeepsBlocks(old(groupMemoryRegion.View()), groupMemoryRegion.View(), interrupted)
      ensures forall h :: Lookup(symbols.registry, h) == Lookup(old(symbols.registry), h)
      ensures old(q.state.reports) <= q.state.reports
      ensures ReportsOkFrom(q.state, |old(q.state.reports)|, old(symbols.registry))
      ensures ok ==> !interrupted && q.state.pc == AtScan(i + 1, old(q.state.pc.locals).(read := read)) && read == q.readIndex
      ensures !ok ==> q.state.pc.Idle? || q.state.pc.Aborted?
    {
      Disturb(q, clients, start);
      ok, read := false, q.readIndex;
      if !interrupted {
        ok, read := LookAtSlot(q, clients, i, start);
      }
    }

    method LookAtSlot(q: UserModeQueue, clients: Clients, i: nat, ghost start: Cell) returns (ok: bool, read: nat)
      requires Linked(q, clients, start) && q.state.pc.AtScan? && q.state.pc.i == i && !ScanDone(q.state.pc)
      requires FixedRegion.Valid(groupMemoryRegion.View())
      modifies this`signals, this`interrupted, q`writeIndex, q`doorbell, q`readIndex, q`packetIsProcessed, q`state,
        q.slots, clients, groupMemoryRegion, symbols
      ensures Linked(q, clients, start) && signals.Keys == old(signals.Keys) && Rings(old(q.state), q.state)
      ensures FixedRegion.Valid(groupMemoryRegion.View())
      ensures KeepsBlocks(old(groupMemoryRegion.View()), groupMemoryRegion.View(), interrupted)
      ensures forall h :: Lookup(symbols.registry, h) == Lookup(old(symbols.registry), h)
      ensures old(q.state.reports) <= q.state.reports
      ensures ReportsOkFrom(q.state, |old(q.state.reports)|, old(symbols.registry))
      ensures ok ==> !interrupted && q.state.pc == AtScan(i + 1, old(q.state.pc.locals).(read := read)) && read == q.readIndex
      ensures !ok ==> q.state.pc.Idle? || q.state.pc.Aborted?
    {
      if q.slots[Mod(i, q.slots.Length)].Invalid? {
        read := SkipInvalid(q, clients, i, start);
        ok := !interrupted;
      } else {
        PacketInHand(start, CellOf(q));
        ghost var before, registry := q.state, symbols.registry;
        ghost var granting := groupMemoryRegion.View();
        var slot := q.slots[Mod(i, q.slots.Length)];
        ghost var outcome;
        ok, read, outcome := HandlePacket(q, clients, i, slot.packet, start);
        HandledReportOk(before, q.state, i, slot.id, slot.packet, registry, granting, outcome);
      }
    }

    /** The same, seen from the whole pass: the reports since its beginning stay right. */
    method VisitNext(q: UserModeQueue, clients: Clients, i: nat, ghost n: nat, ghost registry: map<nat, Object>, ghost start: Cell)
        returns (ok: bool, read: nat)
      requires Linked(q, clients, start) && q.state.pc.AtScan? && q.state.pc.i == i && !ScanDone(q.state.pc)
      requires FixedRegion.Valid(groupMemoryRegion.View())
      requires ReportsOkFrom(q.state, n, registry) && forall h :: Lookup(symbols.registry, h) == Lookup(registry, h)
      modifies this`signals, this`interrupted, q`writeIndex, q`doorbell, q`readIndex, q`packetIsProcessed, q`state,
        q.slots, clients, groupMemoryRegion, symbols
      ensures Linked(q, clients, start) && Rings(old(q.state), q.state)
      ensures FixedRegion.Valid(groupMemoryRegion.View())
      ensures KeepsBlocks(old(groupMemoryRegion.View()), groupMemoryRegion.View(), interrupted)
      ensures ReportsOkFrom(q.state, n, registry) && forall h :: Lookup(symbols.registry, h) == Lookup(registry, h)
      ensures ok ==> !interrupted && q.state.pc == AtScan(i + 1, old(q.state.pc.locals).(read := read)) && read == q.readIndex
      ensures !ok ==> q.state.pc.Idle? || q.state.pc.Aborted?
    {
      ghost var before, was := q.state, symbols.registry;
      ok, read := VisitPacket(q, clients, i, start);
      ReportsStayOk(before, q.state, n, registry, was);
    }

    /** An INVALID slot. */
    method SkipInvalid(q: UserModeQueue, clients: Clients, i: nat, ghost start: Cell) returns (read: nat)
      requires Linked(q, clients, start) && q.state.pc.AtScan? && q.state.pc.i == i && !ScanDone(q.state.pc)
      requires q.slots[Mod(i, q.slots.Length)].Invalid?
      modifies this`interrupted, q`readIndex, q`packetIsProcessed, q`state
      ensures Linked(q, clients, start) && Rings(old(q.state), q.state) && read == q.readIndex
      ensures interrupted ==> MovesRead(old(q.state)) && q.state == QueueProtocol.Next(old(q.state), CutInside)
      ensures !interrupted ==> q.state == SkipSlot(old(q.state)) && q.state.pc.locals.read == read
      ensures q.state.reports == old(q.state.reports)
    {
      LocalReadIndex(start, CellOf(q));
      read := q.readIndex;
      if IsPacketProcessed(q.packetIsProcessed, Mod(i, q.slots.Length)) && read == i {
        read := i + 1;
        MoveReadIndex(q, clients, i, Visit(false, false), start);
      } else {
        Then(start, CellOf(q), Visit(false, false));
        q.state := SkipSlot(q.state);
      }
    }

    /** One visit of the worker to a queue. Others act between any two of its steps, and the jump may end
        it. Without a jump, no ring is outstanding afterwards if nobody rang meanwhile, and all group memory
        is given back; a jump keeps at most one block of it. */
    method ProcessQueue(q: UserModeQueue, clients: Clients)
      requires q.Valid() && clients.Match(q) && I.Inv(q.state) && q.state.pc.Idle? && !q.state.cut && !interrupted
      requires DepsRegistered(q.slots[..], signals) && FixedRegion.Valid(groupMemoryRegion.View())
      modifies this`signals, this`interrupted, q`writeIndex, q`doorbell, q`lastHandledDoorBell, q`readIndex,
        q`packetIsProcessed, q`state, q.slots, clients, groupMemoryRegion, symbols
      ensures q.Valid() && clients.Match(q) && I.Inv(q.state) && Reaches(old(CellOf(q)), CellOf(q))
      ensures (q.state.pc.Idle? || q.state.pc.Aborted?) && interrupted == q.state.cut
      ensures q.state.rung == old(q.state.rung) && !interrupted ==> !DoorbellChanged(q.state)
      ensures P.ProgressInv(old(q.state)) ==> P.ProgressInv(q.state) && NothingLost(q.state)
      ensures R.KernelInv(old(q.state)) ==> R.KernelInv(q.state)
      ensures ReportsOkFrom(q.state, |old(q.state.reports)|, old(symbols.registry))
      ensures KeepsBlocks(old(groupMemoryRegion.View()), groupMemoryRegion.View(), interrupted)
      ensures forall h :: Lookup(symbols.registry, h) == Lookup(old(symbols.registry), h)
    {
      ghost var start := CellOf(q);
      Stay(start);
      Interfere(q, clients, start);
      var doorBell := q.doorbell;
      if doorBell != NEVER_RUNG && doorBell != q.lastHandledDoorBell {
        Pass(q, clients, doorBell, start);
      }
      AfterPass(start, CellOf(q));
    }

    /** The pass, from the recording of the doorbell value on. */
    method Pass(q: UserModeQueue, clients: Clients, doorBell: int, ghost start: Cell)
      requires Linked(q, clients, start) && FixedRegion.Valid(groupMemoryRegion.View())
      requires q.state.pc.Idle? && !interrupted && doorBell == q.doorbell && DoorbellChanged(q.state)
      modifies this`signals, this`interrupted, q`writeIndex, q`doorbell, q`lastHandledDoorBell, q`readIndex,
        q`packetIsProcessed, q`state, q.slots, clients, groupMemoryRegion, symbols
      ensures Linked(q, clients, start) && (q.state.pc.Idle? || q.state.pc.Aborted?)
      ensures HandledUnlessRung(old(q.state), q.state)
      ensures ReportsOkFrom(q.state, |old(q.state.reports)|, old(symbols.registry))
      ensures KeepsBlocks(old(groupMemoryRegion.View()), groupMemoryRegion.View(), interrupted)
      ensures forall h :: Lookup(symbols.registry, h) == Lookup(old(symbols.registry), h)
    {
      var currentReadIndex: nat, currentWriteIndex, lastIndex := OpenPass(q, clients, doorBell, start);
      if interrupted {
        return;
      }
      var currentIndex := currentReadIndex;
      ghost var begun := q.state;
      while currentIndex <= lastIndex
        invariant Linked(q, clients, start) && !interrupted && Rings(begun, q.state)
        invariant q.state.pc == AtScan(currentIndex, Locals(currentReadIndex, currentWriteIndex, lastIndex))
        invariant currentReadIndex == q.readIndex && FixedRegion.Valid(groupMemoryRegion.View())
        invariant ReportsOkFrom(q.state, |old(q.state.reports)|, old(symbols.registry))
        invariant groupMemoryRegion.View().chunks == old(groupMemoryRegion.View().chunks)
        invariant forall h :: Lookup(symbols.registry, h) == Lookup(old(symbols.registry), h)
        decreases lastIndex - currentIndex
      {
        if currentIndex >= currentWriteIndex {
          break;
        }
        var ok;
        ok, currentReadIndex := VisitNext(q, clients, currentIndex, |old(q.state.reports)|, old(symbols.registry), start);
        if !ok {
          return;
        }
        currentIndex := currentIndex + 1;
      }
      TakeStep(q, clients, Visit(false, false), start);
    }

    /** Records the doorbell and loads the bounds of the pass. */
    method OpenPass(q: UserModeQueue, clients: Clients, doorBell: int, ghost start: Cell)
        returns (read: nat, write: nat, last: int)
      requires Linked(q, clients, start)
      requires q.state.pc.Idle? && !interrupted && doorBell == q.doorbell && DoorbellChanged(q.state)
      modifies this`signals, this`interrupted, q`writeIndex, q`doorbell, q`lastHandledDoorBell, q`state, q.slots, clients
      ensures Linked(q, clients, start)
      ensures !interrupted ==> q.state.pc == AtScan(read, Locals(read, write, last))
      ensures !interrupted ==> read == q.readIndex && write == q.writeIndex
      ensures q.lastHandledDoorBell == doorBell
      ensures SameLogs(old(q.state), q.state)
      ensures HandledUnlessRung(old(q.state), q.state)
    {
      Then(start, CellOf(q), Begin);
      q.lastHandledDoorBell := doorBell;
      q.state := QueueProtocol.Next(q.state, Begin);
      read := q.readIndex;
      Disturb(q, clients, start);
      write := q.writeIndex;
      var packetsToCheck := ToInt32(if q.kind == Single then q.lastHandledDoorBell - read else q.slots.Length);
      last := read + packetsToCheck;
      if interrupted {
        return;
      }
      TakeStep(q, clients, LoadWrite, start);
    }
  }
}
