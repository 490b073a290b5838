/** What the doorbell filter, the scan bounds and the room check give: no rung packet is lost,
    every packet is handled under its own index, and the read index is as large as it can be. */
module QueueProgress {
  import opened Modular
  import opened Packets
  import opened QueueProtocol
  import opened QueueInvariant

  /** Each index is rung at most once, so the doorbell equals the last handled value only while
      nothing was rung since. */
  ghost predicate RungOk(q: Queue) {
    && (forall id :: id in q.rung ==> id in q.published && id < NEVER_RUNG)
    && (q.doorbell == NEVER_RUNG <==> q.rung == {})
    && (q.doorbell != NEVER_RUNG ==> 0 <= q.doorbell && q.doorbell in q.rung)
    && (q.lastHandled != NEVER_RUNG ==> 0 <= q.lastHandled && q.lastHandled in q.rung)
    && (q.kind == Single && q.doorbell != NEVER_RUNG ==> forall id :: id in q.rung ==> id <= q.doorbell)
  }

  /** The bounds of a pass. */
  ghost predicate BoundsOk(q: Queue) {
    && (q.pc.AtLoadWrite? ==> q.lastHandled != NEVER_RUNG)
    && (q.pc.Scanning() ==>
          && q.lastHandled != NEVER_RUNG
          && q.pc.locals.write <= q.writeIndex
          && (q.kind == Single ==> q.pc.locals.last == q.lastHandled)
          && (q.kind == Multi ==> q.pc.locals.last <= q.readIndex + q.size)
          && (q.pc.AtScan? || (q.pc.i <= q.pc.locals.last && q.pc.i < q.pc.locals.write)))
    && (q.kind == Single ==>
          (forall id :: id in q.retired ==> q.lastHandled != NEVER_RUNG && id <= q.lastHandled))
  }

  /** Every rung index before the scan position is retired, if nothing was rung since the pass began. */
  ghost predicate CoveredOk(q: Queue) {
    q.doorbell == q.lastHandled && !q.cut ==>
      forall id :: id in q.rung ==>
        && (q.pc.Idle? ==> id in q.retired || (q.stop.Some? && q.stop.value <= id))
        && (q.pc.Scanning() ==>
              && id < q.pc.locals.write && id <= q.pc.locals.last
              && (id < q.pc.i || (id == q.pc.i && (q.pc.AtAdvance? || q.pc.AtComplete?)) ==> id in q.retired))
  }

  ghost predicate ProgressInv(q: Queue) {
    Inv(q) && RungOk(q) && BoundsOk(q) && CoveredOk(q)
  }

  /** An index that is published but not retired lies in the window. */
  lemma UnretiredInWindow(q: Queue, id: nat)
    requires Inv(q) && id in q.published && id !in q.retired
    ensures InWindow(q, id) && q.slots[Mod(id, q.size)] == Holds(id, q.published[id])
  {
  }

  /** Slot identity, exactly: a visited index finds its own packet if and only if it lies below
      read index + size. The one other case is the index one ring length above the read index,
      which finds the packet of the read index. */
  lemma SlotIdentity(q: Queue)
    requires Inv(q) && RungOk(q) && BoundsOk(q) && q.pc.AtScan?
    requires q.pc.i <= q.pc.locals.last && q.pc.i < q.pc.locals.write
    requires q.slots[Mod(q.pc.i, q.size)].Holds?
    ensures var id := q.slots[Mod(q.pc.i, q.size)].id;
            && (id == q.pc.i <==> q.pc.i < q.readIndex + q.size)
            && (id != q.pc.i ==> q.kind == Multi && id == q.readIndex && q.pc.i == q.readIndex + q.size)
  {
    var i, id := q.pc.i, q.slots[Mod(q.pc.i, q.size)].id;
    if i < q.readIndex + q.size {
      ModUnique(i, id, q.size);
    } else {
      assert q.kind == Multi && i == q.readIndex + q.size;
      ModShift(q.readIndex, q.size);
      ModUnique(id, q.readIndex, q.size);
    }
  }

  lemma PacketsToCheckExact(q: Queue)
    requires Inv(q) && RungOk(q) && BoundsOk(q) && q.pc.AtLoadWrite?
    ensures PacketsToCheck(q, q.readIndex) == if q.kind == Single then q.lastHandled - q.readIndex else q.size
  {
    if q.kind == Single {
      assert q.lastHandled < q.readIndex + q.size;
      if q.readIndex > 0 {
        assert q.readIndex - 1 in q.retired;
      }
    }
  }

  lemma InitProgress(q: Queue)
    requires Init(q)
    ensures ProgressInv(q)
  {
    InitInv(q);
  }

  lemma DoorbellFrame(q: Queue, a: Action)
    requires WellFormed(q) && Enabled(q, a) && !a.Ring?
    ensures var q' := Next(q, a);
            && q'.rung == q.rung && q'.doorbell == q.doorbell && q'.kind == q.kind
            && (q'.lastHandled == q.lastHandled || q'.lastHandled == q.doorbell)
            && forall id :: id in q.published ==> id in q'.published
  {
    match a
    case Visit(f, g) => VisitFrame(q, f, g);
    case ReadDep(v) => ReadDependencyCases(q, v);
    case _ =>
  }

  lemma StepKeepsRung(q: Queue, a: Action)
    requires WellFormed(q) && RungOk(q) && Enabled(q, a)
    ensures RungOk(Next(q, a))
  {
    if a.Ring? {
      assert a.id in Next(q, a).rung;
    } else {
      DoorbellFrame(q, a);
    }
  }

  /** What a step of the worker leaves alone during the scan. */
  ghost predicate ScanFrame(q: Queue, q': Queue) {
    && q'.size == q.size && q'.kind == q.kind && q'.writeIndex == q.writeIndex
    && q'.published == q.published && q'.rung == q.rung
    && q'.doorbell == q.doorbell && q'.lastHandled == q.lastHandled
    && (q'.pc.Scanning() ==>
          && q.pc.Scanning()
          && q'.pc.locals.write == q.pc.locals.write && q'.pc.locals.last == q.pc.locals.last
          && q'.pc.i == (if q'.pc.AtScan? then q.pc.i + 1 else q.pc.i))
  }

  lemma VisitFrame(q: Queue, f: bool, g: bool)
    requires WellFormed(q) && q.pc.AtScan?
    ensures ScanFrame(q, VisitSlot(q, f, g))
    ensures VisitSlot(q, f, g).retired == q.retired
    ensures VisitSlot(q, f, g).pc.Scanning() ==> q.pc.i <= q.pc.locals.last && q.pc.i < q.pc.locals.write
  {
    var slot := q.slots[Mod(q.pc.i, q.size)];
    if !ScanDone(q.pc) && slot.Holds? {
      TakeFrame(q, slot.id, slot.packet, OutcomeOf(slot.packet, f, g));
    } else if !ScanDone(q.pc) {
      SkipFrame(q);
    }
  }

  lemma SkipFrame(q: Queue)
    requires WellFormed(q) && q.pc.AtScan? && !ScanDone(q.pc)
    ensures ScanFrame(q, SkipSlot(q))
    ensures SkipSlot(q).retired == q.retired
  {
  }

  lemma TakeFrame(q: Queue, id: nat, packet: Packet, outcome: Outcome)
    requires q.pc.AtScan? && !ScanDone(q.pc)
    ensures ScanFrame(q, TakePacket(q, id, packet, outcome))
    ensures TakePacket(q, id, packet, outcome).retired == q.retired
  {
  }

  lemma WorkFrame(q: Queue, a: Action)
    requires WellFormed(q) && Enabled(q, a) && q.pc.Scanning() && !q.pc.AtScan? && !a.IsProducer()
    ensures ScanFrame(q, Next(q, a))
    ensures !a.Clear? ==> Next(q, a).retired == q.retired
  {
    if a.ReadDep? {
      ReadDependencyCases(q, a.value);
    }
  }

  lemma StepKeepsBounds(q: Queue, a: Action)
    requires Inv(q) && RungOk(q) && BoundsOk(q) && Enabled(q, a)
    ensures BoundsOk(Next(q, a))
  {
    StepGrows(q, a);
    if a.LoadWrite? {
      PacketsToCheckExact(q);
    } else if a.Clear? {
      ClearKeepsBounds(q);
    } else if a.Visit? {
      VisitFrame(q, a.kernelFound, a.groupGranted);
    } else if q.pc.Scanning() && !q.pc.AtScan? && !a.IsProducer() {
      WorkFrame(q, a);
    }
  }

  lemma ClearKeepsBounds(q: Queue)
    requires Inv(q) && RungOk(q) && BoundsOk(q) && q.pc.AtClear?
    ensures BoundsOk(Next(q, Clear))
  {
    if q.kind == Single {
      assert q.lastHandled < q.readIndex + q.size;
      ModUnique(q.pc.i, q.pc.id, q.size);
    }
  }

  lemma StepKeepsCovered(q: Queue, a: Action)
    requires ProgressInv(q) && Enabled(q, a)
    ensures CoveredOk(Next(q, a))
  {
    if a.LoadWrite? {
      PacketsToCheckExact(q);
    } else if a.Visit? {
      VisitKeepsCovered(q, a.kernelFound, a.groupGranted);
    } else if a.Clear? {
      ClearKeepsCovered(q);
    } else {
      OtherKeepsCovered(q, a);
    }
  }

  lemma OtherKeepsCovered(q: Queue, a: Action)
    requires WellFormed(q) && RungOk(q) && CoveredOk(q) && Enabled(q, a)
    requires !a.LoadWrite? && !a.Visit? && !a.Clear?
    requires q.cut ==> q.pc.Idle?
    ensures CoveredOk(Next(q, a))
  {
    if a.ReadDep? {
      ReadDependencyCases(q, a.value);
    }
  }

  lemma ClearKeepsCovered(q: Queue)
    requires ProgressInv(q) && q.pc.AtClear?
    ensures CoveredOk(Next(q, Clear))
  {
    var q', i := Next(q, Clear), q.pc.i;
    assert q'.retired == q.retired + [q.pc.id];
    if i in q.rung && i !in q.retired {
      UnretiredInWindow(q, i);
    }
  }

  lemma VisitKeepsCovered(q: Queue, f: bool, g: bool)
    requires ProgressInv(q) && q.pc.AtScan?
    ensures CoveredOk(VisitSlot(q, f, g))
  {
    var q', i := VisitSlot(q, f, g), q.pc.i;
    VisitFrame(q, f, g);
    if q'.pc.AtScan? {
      VisitPasses(q, f, g);
    }
  }

  /** The scan goes on from an INVALID slot, so its index is retired or was never rung. */
  lemma VisitPasses(q: Queue, f: bool, g: bool)
    requires Inv(q) && RungOk(q) && q.pc.AtScan? && VisitSlot(q, f, g).pc.AtScan?
    ensures q.pc.i in q.rung ==> q.pc.i in q.retired
  {
    assert q.slots[Mod(q.pc.i, q.size)] == Invalid;
  }

  lemma StepKeepsProgress(q: Queue, q': Queue)
    requires ProgressInv(q) && Step(q, q')
    ensures ProgressInv(q')
  {
    var a :| Enabled(q, a) && q' == Next(q, a);
    StepKeepsInv(q, a);
    StepKeepsRung(q, a);
    StepKeepsBounds(q, a);
    StepKeepsCovered(q, a);
  }

  lemma RunProgress(tr: seq<Queue>, t: nat)
    requires Run(tr) && t < |tr|
    ensures ProgressInv(tr[t])
  {
    forall q | Init(q) ensures ProgressInv(q) {
      InitProgress(q);
    }
    forall q, q' | ProgressInv(q) && Step(q, q') ensures ProgressInv(q') {
      StepKeepsProgress(q, q');
    }
    RunInduction(tr, q => true, q => ProgressInv(q), t);
  }

  /** No lost packet. Whenever the worker is outside a pass and the doorbell equals the last
      handled value, every rung index is retired or lies at or after the barrier at which the
      last pass stopped. No room check is needed. */
  lemma {:induction false} NoLostPacket(tr: seq<Queue>, t: nat, id: nat)
    requires Run(tr) && t < |tr|
    requires tr[t].pc.Idle? && !tr[t].cut && tr[t].doorbell == tr[t].lastHandled
    requires id in tr[t].rung
    ensures id in tr[t].retired || (tr[t].stop.Some? && tr[t].stop.value <= id)
  {
    RunProgress(tr, t);
  }

  /** What the worker has done and where it is. */
  ghost predicate SameWork(q: Queue, q': Queue) {
    && q'.pc == q.pc && q'.reports == q.reports && q'.retired == q.retired && q'.readIndex == q.readIndex
    && q'.lastHandled == q.lastHandled && q'.stop == q.stop
  }

  lemma QuietWorker(q: Queue, a: Action)
    requires WellFormed(q) && Enabled(q, a) && q.pc.Idle? && !DoorbellChanged(q) && Next(q, a).rung == q.rung
    ensures SameWork(q, Next(q, a)) && Next(q, a).doorbell == q.doorbell
  {
  }

  lemma RungKept(tr: seq<Queue>, t: nat, u: nat)
    requires Run(tr) && t <= u < |tr|
    ensures tr[t].rung <= tr[u].rung
    decreases u
  {
    if t < u {
      RungKept(tr, t, u - 1);
      assert StepAt(tr, u);
      if tr[u] != tr[u - 1] {
        var a :| Enabled(tr[u - 1], a) && tr[u] == Next(tr[u - 1], a);
        if !a.Ring? {
          DoorbellFrame(tr[u - 1], a);
        }
      }
    }
  }

  /** A pass is made only after a ring. Outside a pass and with no ring outstanding, the worker does nothing
      at the queue until something else is rung; in particular a pass that stopped at a barrier is not
      repeated when the barrier's signals change. */
  lemma {:induction false} NothingWithoutRing(tr: seq<Queue>, t: nat, u: nat)
    requires Run(tr) && t <= u < |tr| && tr[t].pc.Idle? && tr[t].doorbell == tr[t].lastHandled
    requires tr[u].rung == tr[t].rung
    ensures SameWork(tr[t], tr[u]) && tr[u].doorbell == tr[t].doorbell
    decreases u
  {
    if t < u {
      RungKept(tr, t, u - 1);
      RungKept(tr, u - 1, u);
      NothingWithoutRing(tr, t, u - 1);
      assert StepAt(tr, u);
      if tr[u] != tr[u - 1] {
        var a :| Enabled(tr[u - 1], a) && tr[u] == Next(tr[u - 1], a);
        QuietWorker(tr[u - 1], a);
      }
    }
  }
}
