/** What every step of the queue protocol keeps, whatever the producers' discipline. */
module QueueInvariant {
  import opened Modular
  import opened Packets
  import opened QueueProtocol

  ghost predicate InWindow(q: Queue, id: nat) {
    q.readIndex <= id < q.readIndex + q.size
  }

  ghost predicate NoDuplicates(s: seq<nat>) {
    forall i, j :: 0 <= i < j < |s| ==> s[i] != s[j]
  }

  /** A slot that is not INVALID holds the unretired packet of its own index. */
  ghost predicate SlotsOk(q: Queue)
    requires WellFormed(q)
  {
    forall s :: 0 <= s < q.size && q.slots[s].Holds? ==>
      && Mod(q.slots[s].id, q.size) == s
      && q.slots[s].id in q.published && q.published[q.slots[s].id] == q.slots[s].packet
      && q.slots[s].id !in q.retired
      && InWindow(q, q.slots[s].id)
  }

  /** A published packet stays in its slot until it is retired. */
  ghost predicate PublishedOk(q: Queue)
    requires WellFormed(q)
  {
    forall id :: id in q.published ==>
      && id < q.writeIndex
      && id < q.readIndex + q.size
      && (id in q.retired || q.slots[Mod(id, q.size)] == Holds(id, q.published[id]))
  }

  ghost predicate RetiredOk(q: Queue) {
    && NoDuplicates(q.retired)
    && (forall id :: id in q.retired ==> id in q.published)
    && (forall id: nat :: id < q.readIndex ==> id in q.retired)
  }

  ghost predicate PcOk(q: Queue)
    requires WellFormed(q)
  {
    match q.pc
    case Idle => true
    case Aborted => true
    case AtLoadWrite(start) => start == q.readIndex
    case AtScan(i, l) => l.read == q.readIndex <= i
    case AtAdvance(i, l, id, p) =>
      && l.read == q.readIndex <= i
      && Mod(id, q.size) == Mod(i, q.size) && InWindow(q, id)
      && id in q.retired && id in q.published && q.published[id] == p
    case AtComplete(i, l, id, p) =>
      && l.read == q.readIndex <= i + 1
      && id in q.retired && id in q.published && q.published[id] == p
    case _ =>
      && q.pc.locals.read == q.readIndex <= q.pc.i
      && q.slots[Mod(q.pc.i, q.size)] == Holds(q.pc.id, q.pc.packet)
      && (q.pc.AtDeps? ==> q.pc.packet.IsBarrier() && q.pc.dep <= 5)
      && (q.pc.AtKernel? ==> q.pc.packet.KernelDispatch?)
      && !q.pc.packet.Unsupported?
  }

  /** The processed bits say which indices of the window are retired, but for the one the worker
      is about to record. */
  ghost predicate BitsOk(q: Queue)
    requires WellFormed(q)
  {
    !q.cut ==> forall id: nat :: InWindow(q, id) ==>
      (IsPacketProcessed(q.processed, Mod(id, q.size)) <==>
       id in q.retired && !(q.pc.AtAdvance? && q.pc.id == id))
  }

  ghost predicate Inv(q: Queue) {
    WellFormed(q) && SlotsOk(q) && PublishedOk(q) && RetiredOk(q) && PcOk(q) && BitsOk(q)
    && (q.cut ==> q.pc.Idle?)
  }

  lemma InitInv(q: Queue)
    requires Init(q)
    ensures Inv(q)
  {
  }

  /** When a producer publishes, the slot it writes is INVALID. */
  lemma PublishTakesFreeSlot(q: Queue, id: nat, p: Packet)
    requires Inv(q) && Enabled(q, Publish(id, p))
    ensures InWindow(q, id) && q.slots[Mod(id, q.size)] == Invalid
  {
    if id < q.readIndex {
      assert false;
    }
    var slot := q.slots[Mod(id, q.size)];
    if slot.Holds? {
      ModUnique(id, slot.id, q.size);
    }
  }

  lemma ProducerKeepsInv(q: Queue, a: Action)
    requires Inv(q) && Enabled(q, a) && a.IsProducer()
    ensures Inv(Next(q, a))
  {
    if a.Publish? {
      PublishKeepsInv(q, a.id, a.packet);
    }
  }

  lemma PublishKeepsInv(q: Queue, id: nat, p: Packet)
    requires Inv(q) && Enabled(q, Publish(id, p))
    ensures Inv(Next(q, Publish(id, p)))
  {
    var q' := Next(q, Publish(id, p));
    PublishTakesFreeSlot(q, id, p);
    PublishKeepsPublished(q, q', id, p);
    assert SlotsOk(q');
    assert RetiredOk(q');
  }

  lemma PublishKeepsPublished(q: Queue, q': Queue, id: nat, p: Packet)
    requires WellFormed(q) && PublishedOk(q) && Enabled(q, Publish(id, p))
    requires q.slots[Mod(id, q.size)] == Invalid && q' == Next(q, Publish(id, p))
    ensures PublishedOk(q')
  {
    forall other | other in q'.published
      ensures other in q'.retired || q'.slots[Mod(other, q.size)] == Holds(other, q'.published[other])
    {
      if other != id && other !in q.retired {
        assert q.slots[Mod(other, q.size)].Holds?;
      }
    }
  }

  /** The steps that move only the worker, the doorbell or the history. */
  ghost predicate SameMemory(q: Queue, q': Queue) {
    && q'.size == q.size && q'.slots == q.slots && q'.processed == q.processed
    && q'.readIndex == q.readIndex && q'.writeIndex == q.writeIndex
    && q'.published == q.published && q'.retired == q.retired
  }

  lemma SameMemoryKeepsInv(q: Queue, q': Queue)
    requires Inv(q) && SameMemory(q, q')
    requires PcOk(q') && !q'.pc.AtAdvance?
    requires q'.cut || (!q.cut && !q.pc.AtAdvance?)
    requires q'.cut ==> q'.pc.Idle?
    ensures Inv(q')
  {
    assert SlotsOk(q');
    assert PublishedOk(q');
    assert RetiredOk(q');
    assert BitsOk(q');
  }

  lemma SkipKeepsInv(q: Queue)
    requires Inv(q) && q.pc.AtScan?
    ensures Inv(SkipSlot(q))
  {
    var q' := SkipSlot(q);
    if q'.readIndex == q.readIndex {
      SameMemoryKeepsInv(q, q');
    } else {
      assert q.readIndex in q.retired by {
        assert InWindow(q, q.readIndex);
      }
      WindowMoves(q, q');
      ReadMoves(q, q');
    }
  }

  lemma TakeKeepsInv(q: Queue, id: nat, packet: Packet, outcome: Outcome)
    requires Inv(q) && q.pc.AtScan?
    requires q.slots[Mod(q.pc.i, q.size)] == Holds(id, packet)
    ensures Inv(TakePacket(q, id, packet, outcome))
  {
    SameMemoryKeepsInv(q, TakePacket(q, id, packet, outcome));
  }

  lemma VisitKeepsInv(q: Queue, kernelFound: bool, groupGranted: bool)
    requires Inv(q) && q.pc.AtScan?
    ensures Inv(VisitSlot(q, kernelFound, groupGranted))
  {
    if ScanDone(q.pc) {
      SameMemoryKeepsInv(q, VisitSlot(q, kernelFound, groupGranted));
    } else {
      match q.slots[Mod(q.pc.i, q.size)]
      case Invalid => SkipKeepsInv(q);
      case Holds(id, packet) => TakeKeepsInv(q, id, packet, OutcomeOf(packet, kernelFound, groupGranted));
    }
  }

  /** Moving the read index over its retired slot keeps the bits exact. */
  lemma WindowMoves(q: Queue, q': Queue)
    requires WellFormed(q) && WellFormed(q') && SlotsOk(q) && PublishedOk(q) && RetiredOk(q)
    requires q.readIndex in q.retired
    requires !q.cut && !q'.cut && q'.size == q.size && q'.retired == q.retired && q'.readIndex == q.readIndex + 1
    requires q'.processed == SetPacketProcessed(q.processed, q.size, Mod(q.readIndex, q.size), false)
    requires !q'.pc.AtAdvance?
    requires forall id: nat :: q.readIndex < id < q.readIndex + q.size ==>
               (IsPacketProcessed(q.processed, Mod(id, q.size)) <==> id in q.retired)
    ensures BitsOk(q')
  {
    forall id: nat | InWindow(q', id)
      ensures IsPacketProcessed(q'.processed, Mod(id, q.size)) <==> id in q.retired
    {
      if id == q.readIndex + q.size {
        ModShift(q.readIndex, q.size);
        assert id !in q.published;
      } else if Mod(id, q.size) == Mod(q.readIndex, q.size) {
        ModUnique(id, q.readIndex, q.size);
      }
    }
  }

  lemma ReadMoves(q: Queue, q': Queue)
    requires WellFormed(q) && WellFormed(q') && SlotsOk(q) && PublishedOk(q) && RetiredOk(q)
    requires q.readIndex in q.retired
    requires q'.size == q.size && q'.slots == q.slots && q'.published == q.published
    requires q'.retired == q.retired && q'.writeIndex == q.writeIndex && q'.readIndex == q.readIndex + 1
    ensures SlotsOk(q') && PublishedOk(q') && RetiredOk(q')
  {
  }

  lemma ClearKeepsInv(q: Queue)
    requires Inv(q) && q.pc.AtClear?
    ensures Inv(Next(q, Clear))
  {
    var q' := Next(q, Clear);
    assert q.slots[Mod(q.pc.i, q.size)] == Holds(q.pc.id, q.pc.packet);
    RetiredGains(q, q', q.pc.id);
    ClearKeepsPublished(q, q');
    assert SlotsOk(q');
    assert RetiredOk(q');
    assert BitsOk(q');
  }

  lemma RetiredGains(q: Queue, q': Queue, id: nat)
    requires q'.retired == q.retired + [id]
    ensures forall other :: other in q'.retired <==> other in q.retired || other == id
  {
    assert q'.retired[|q.retired|] == id;
  }

  lemma ClearKeepsPublished(q: Queue, q': Queue)
    requires WellFormed(q) && PublishedOk(q) && q.pc.AtClear? && q' == Next(q, Clear)
    requires q.slots[Mod(q.pc.i, q.size)] == Holds(q.pc.id, q.pc.packet)
    requires forall other :: other in q'.retired <==> other in q.retired || other == q.pc.id
    ensures PublishedOk(q')
  {
    forall id | id in q'.published
      ensures id in q'.retired || q'.slots[Mod(id, q.size)] == Holds(id, q'.published[id])
    {
      if id !in q.retired && Mod(id, q.size) == Mod(q.pc.i, q.size) {
        assert id == q.pc.id;
      }
    }
  }

  lemma AdvanceKeepsInv(q: Queue)
    requires Inv(q) && q.pc.AtAdvance?
    ensures Inv(AdvanceRead(q))
  {
    var q', s := AdvanceRead(q), Mod(q.pc.i, q.size);
    if q.pc.i == q.readIndex {
      ModUnique(q.pc.i, q.pc.id, q.size);
      WindowMoves(q, q');
    } else {
      forall id: nat | InWindow(q, id)
        ensures IsPacketProcessed(q'.processed, Mod(id, q.size)) <==> id in q.retired
      {
        if Mod(id, q.size) == s {
          ModUnique(id, q.pc.id, q.size);
        }
      }
    }
  }

  /** The steps that only move the worker. */
  lemma QuietStep(q: Queue, a: Action)
    requires WellFormed(q) && PcOk(q) && Enabled(q, a)
    requires a.Begin? || a.LoadWrite? || a.ReadDep? || a.Return? || a.Complete? || a.Cut?
    ensures var q' := Next(q, a);
            SameMemory(q, q') && WellFormed(q') && PcOk(q') && !q'.pc.AtAdvance? && q'.cut == (q.cut || a.Cut?)
  {
    if a.ReadDep? {
      ReadDependencyCases(q, a.value);
      assert q.pc.AtDeps? && Next(q, a) == ReadDependency(q, a.value);
    }
  }

  lemma CutInsideKeepsInv(q: Queue)
    requires Inv(q) && MovesRead(q)
    ensures Inv(Next(q, CutInside))
  {
    assert q.readIndex in q.retired by {
      assert InWindow(q, q.readIndex);
      if q.pc.AtAdvance? {
        ModUnique(q.pc.i, q.pc.id, q.size);
      }
    }
    ReadMoves(q, Next(q, CutInside));
  }

  /** Main induction step of the safety properties. */
  lemma StepKeepsInv(q: Queue, a: Action)
    requires Inv(q) && Enabled(q, a)
    ensures Inv(Next(q, a))
  {
    match a
    case Reserve(_) => ProducerKeepsInv(q, a);
    case Publish(_, _) => ProducerKeepsInv(q, a);
    case Ring(_) => ProducerKeepsInv(q, a);
    case Visit(f, g) => VisitKeepsInv(q, f, g);
    case Clear => ClearKeepsInv(q);
    case Advance => AdvanceKeepsInv(q);
    case CutInside => CutInsideKeepsInv(q);
    case _ =>
      QuietStep(q, a);
      SameMemoryKeepsInv(q, Next(q, a));
  }

  // Handled exactly once.

  ghost predicate Reported(q: Queue, id: nat) {
    exists r :: 0 <= r < |q.reports| && q.reports[r].id == id
  }

  /** Every kernel dispatch has been handled once when it is retired, and none before its turn.
      Only a cut pass can leave a packet handled but unretired. */
  ghost predicate ReportsOk(q: Queue) {
    && (forall r, r' :: 0 <= r < r' < |q.reports| ==> q.reports[r].id != q.reports[r'].id)
    && (forall r :: 0 <= r < |q.reports| ==>
          || q.reports[r].id in q.retired
          || ((q.pc.AtKernel? || q.pc.AtClear?) && q.pc.id == q.reports[r].id)
          || q.cut)
    && (forall id :: id in q.retired && id in q.published && q.published[id].KernelDispatch? ==> Reported(q, id))
    && ((q.pc.AtKernel? || q.pc.AtClear?) && q.pc.packet.KernelDispatch? ==> Reported(q, q.pc.id))
  }

  lemma ReportsKept(q: Queue, q': Queue)
    requires q.reports <= q'.reports
    ensures forall id :: Reported(q, id) ==> Reported(q', id)
  {
    forall id | Reported(q, id) ensures Reported(q', id) {
      var r :| 0 <= r < |q.reports| && q.reports[r].id == id;
      assert q'.reports[r].id == id;
    }
  }

  lemma TakeKeepsReports(q: Queue, id: nat, packet: Packet, outcome: Outcome)
    requires WellFormed(q) && SlotsOk(q) && RetiredOk(q) && ReportsOk(q) && q.pc.AtScan? && !q.cut
    requires q.slots[Mod(q.pc.i, q.size)] == Holds(id, packet)
    ensures ReportsOk(TakePacket(q, id, packet, outcome))
  {
    var q' := TakePacket(q, id, packet, outcome);
    ReportsKept(q, q');
    if q'.reports != q.reports {
      assert q'.reports[|q.reports|].id == q'.pc.id;
    }
  }

  lemma VisitKeepsReports(q: Queue, f: bool, g: bool)
    requires WellFormed(q) && SlotsOk(q) && RetiredOk(q) && ReportsOk(q) && q.pc.AtScan? && !q.cut
    ensures ReportsOk(VisitSlot(q, f, g))
  {
    var slot := q.slots[Mod(q.pc.i, q.size)];
    if !ScanDone(q.pc) && slot.Holds? {
      TakeKeepsReports(q, slot.id, slot.packet, OutcomeOf(slot.packet, f, g));
    } else {
      ReportsKept(q, VisitSlot(q, f, g));
    }
  }

  lemma ClearKeepsReports(q: Queue)
    requires Inv(q) && ReportsOk(q) && q.pc.AtClear?
    ensures ReportsOk(Next(q, Clear))
  {
    var q' := Next(q, Clear);
    ReportsKept(q, q');
    assert q'.retired == q.retired + [q.pc.id];
    assert q.published[q.pc.id] == q.pc.packet;
  }

  /** Steps that handle and retire nothing. */
  lemma SameLogsKeepReports(q: Queue, q': Queue)
    requires ReportsOk(q) && q'.reports == q.reports && q'.retired == q.retired
    requires forall id :: id in q.retired ==> id in q.published
    requires forall id :: id in q.published ==> id in q'.published && q'.published[id] == q.published[id]
    requires q.cut ==> q'.cut
    requires !q'.cut && (q.pc.AtKernel? || q.pc.AtClear?) ==> (q'.pc.AtKernel? || q'.pc.AtClear?) && q'.pc.id == q.pc.id
    requires (q'.pc.AtKernel? || q'.pc.AtClear?) && q'.pc.packet.KernelDispatch? ==>
               (q.pc.AtKernel? || q.pc.AtClear?) && q.pc.id == q'.pc.id && q.pc.packet == q'.pc.packet
    ensures ReportsOk(q')
  {
    ReportsKept(q, q');
  }

  lemma ReadDepKeepsReports(q: Queue, v: int)
    requires RetiredOk(q) && ReportsOk(q) && q.pc.AtDeps? && q.pc.packet.IsBarrier()
    ensures ReportsOk(ReadDependency(q, v))
  {
    ReadDependencyCases(q, v);
    SameLogsKeepReports(q, ReadDependency(q, v));
  }

  lemma StepKeepsReports(q: Queue, a: Action)
    requires Inv(q) && ReportsOk(q) && Enabled(q, a)
    ensures ReportsOk(Next(q, a))
  {
    match a
    case Visit(f, g) => VisitKeepsReports(q, f, g);
    case Clear => ClearKeepsReports(q);
    case ReadDep(v) => ReadDepKeepsReports(q, v);
    case Publish(_, _) => SameLogsKeepReports(q, Next(q, a));
    case _ => SameLogsKeepReports(q, Next(q, a));
  }

  ghost predicate SafetyInv(q: Queue) {
    Inv(q) && ReportsOk(q)
  }

  lemma StepKeepsSafety(q: Queue, q': Queue)
    requires SafetyInv(q) && Step(q, q')
    ensures SafetyInv(q')
  {
    var a :| Enabled(q, a) && q' == Next(q, a);
    StepKeepsInv(q, a);
    StepKeepsReports(q, a);
  }

  /** All safety facts hold in every state of every run. */
  lemma RunInv(tr: seq<Queue>, t: nat)
    requires Run(tr) && t < |tr|
    ensures Inv(tr[t]) && ReportsOk(tr[t])
  {
    forall q | Init(q) ensures SafetyInv(q) {
      InitInv(q);
    }
    forall q, q' | SafetyInv(q) && Step(q, q') ensures SafetyInv(q') {
      StepKeepsSafety(q, q');
    }
    RunInduction(tr, q => true, q => SafetyInv(q), t);
  }

  /** Exactly-once retirement. In every state of every interleaving no packet is retired twice,
      every index below the read index is retired, each retired kernel dispatch was handled
      exactly once, and a published packet that is not retired is still in its slot. */
  lemma {:induction false} ExactlyOnce(tr: seq<Queue>, t: nat)
    requires Run(tr) && t < |tr|
    ensures WellFormed(tr[t]) && NoDuplicates(tr[t].retired)
    ensures forall id: nat :: id < tr[t].readIndex ==> id in tr[t].retired
    ensures forall id :: id in tr[t].retired ==> id in tr[t].published
    ensures forall id :: id in tr[t].published && id !in tr[t].retired ==>
              tr[t].slots[Mod(id, tr[t].size)] == Holds(id, tr[t].published[id])
    ensures forall id :: id in tr[t].retired && tr[t].published[id].KernelDispatch? ==>
              exists r :: 0 <= r < |tr[t].reports| && tr[t].reports[r].id == id
    ensures forall r, r' :: 0 <= r < r' < |tr[t].reports| ==> tr[t].reports[r].id != tr[t].reports[r'].id
  {
    RunInv(tr, t);
    var q := tr[t];
    forall id | id in q.retired && q.published[id].KernelDispatch?
      ensures exists r :: 0 <= r < |q.reports| && q.reports[r].id == id
    {
      assert Reported(q, id);
    }
  }

  /** The processed bits are exact whatever the producers' discipline: except while the worker records a
      retirement, the bit of a slot is set if and only if the index of the window that owns the slot is
      retired. So the read index lags behind its retired packet exactly while the bit of its slot is set. */
  lemma {:induction false} ProcessedBitsExact(tr: seq<Queue>, t: nat)
    requires Run(tr) && t < |tr| && !tr[t].pc.AtAdvance? && !tr[t].cut
    ensures var q := tr[t];
            && WellFormed(q)
            && (forall id: nat :: q.readIndex <= id < q.readIndex + q.size ==>
                  (IsPacketProcessed(q.processed, Mod(id, q.size)) <==> id in q.retired))
            && (q.readIndex in q.retired <==> IsPacketProcessed(q.processed, Mod(q.readIndex, q.size)))
  {
    RunInv(tr, t);
    var q := tr[t];
    forall id: nat | q.readIndex <= id < q.readIndex + q.size
      ensures IsPacketProcessed(q.processed, Mod(id, q.size)) <==> id in q.retired
    {
      assert InWindow(q, id);
    }
  }

  /** What no step takes back. */
  ghost predicate Grows(q: Queue, q': Queue) {
    && q.readIndex <= q'.readIndex && q.writeIndex <= q'.writeIndex
    && q.retired <= q'.retired && q.reports <= q'.reports && q.ran <= q'.ran
    && q.size == q'.size && q.kind == q'.kind
    && (forall id :: id in q.published ==> id in q'.published && q'.published[id] == q.published[id])
  }

  lemma VisitGrows(q: Queue, f: bool, g: bool)
    requires WellFormed(q) && PcOk(q) && q.pc.AtScan?
    ensures Grows(q, VisitSlot(q, f, g))
  {
    var slot := q.slots[Mod(q.pc.i, q.size)];
    if !ScanDone(q.pc) && slot.Holds? {
      assert Grows(q, TakePacket(q, slot.id, slot.packet, OutcomeOf(slot.packet, f, g)));
    } else if !ScanDone(q.pc) {
      assert Grows(q, SkipSlot(q));
    }
  }

  lemma StepGrows(q: Queue, a: Action)
    requires WellFormed(q) && PcOk(q) && Enabled(q, a)
    ensures Grows(q, Next(q, a))
  {
    match a
    case Visit(f, g) => VisitGrows(q, f, g);
    case ReadDep(v) => ReadDependencyCases(q, v);
    case _ =>
  }

  lemma GrowsTransitive(q: Queue, q': Queue, q'': Queue)
    requires Grows(q, q') && Grows(q', q'')
    ensures Grows(q, q'')
  {
  }

  lemma SafeStepGrows(q: Queue, q': Queue)
    requires Inv(q) && Step(q, q')
    ensures Grows(q, q')
  {
    var a :| Enabled(q, a) && q' == Next(q, a);
    StepGrows(q, a);
  }

  /** Over time the read index, the retirement log and the published packets only grow. */
  lemma Monotone(tr: seq<Queue>, t: nat, u: nat)
    requires Run(tr) && t <= u < |tr|
    ensures Grows(tr[t], tr[u])
  {
    var rel := (q, q') => Grows(q, q');
    forall v | 0 < v < |tr| && Step(tr[v - 1], tr[v]) ensures rel(tr[v - 1], tr[v]) {
      RunInv(tr, v - 1);
      SafeStepGrows(tr[v - 1], tr[v]);
    }
    forall q, q', q'' | rel(q, q') && rel(q', q'') ensures rel(q, q'') {
      GrowsTransitive(q, q', q'');
    }
    RunRelation(tr, rel, t, u);
  }
}
