/** What the producers' discipline adds: the packet id given to a kernel is the producer's index,
    the read index is maximal, and an unsatisfied barrier holds back everything behind it. */
module QueueOrder {
  import opened Modular
  import opened Packets
  import opened QueueProtocol
  import opened QueueInvariant
  import opened QueueProgress

  ghost predicate Disciplined(q: Queue) {
    q.kind == Single || RoomChecked(q)
  }

  ghost predicate DisciplinedRun(tr: seq<Queue>) {
    Run(tr) && forall t :: 0 <= t < |tr| ==> Disciplined(tr[t])
  }

  // Slot identity.

  ghost predicate IdentityOk(q: Queue) {
    && (q.pc.Scanning() && !q.pc.AtScan? ==> q.pc.id == q.pc.i)
    && (forall r :: 0 <= r < |q.reports| ==> q.reports[r].packetId == q.reports[r].id)
  }

  /** An index the pass looks at lies in the window. */
  lemma VisitedInWindow(q: Queue)
    requires ProgressInv(q) && Disciplined(q)
    requires q.pc.Scanning() && (q.pc.AtScan? ==> !ScanDone(q.pc))
    ensures q.pc.i < q.readIndex + q.size
  {
    if q.kind == Single {
      assert q.lastHandled in q.published;
    }
  }

  lemma VisitKeepsIdentity(q: Queue, f: bool, g: bool)
    requires ProgressInv(q) && Disciplined(q) && IdentityOk(q) && q.pc.AtScan?
    ensures IdentityOk(VisitSlot(q, f, g))
  {
    var slot := q.slots[Mod(q.pc.i, q.size)];
    if !ScanDone(q.pc) && slot.Holds? {
      VisitedInWindow(q);
      SlotIdentity(q);
      TakeKeepsIdentity(q, slot.id, slot.packet, OutcomeOf(slot.packet, f, g));
    }
  }

  lemma StepKeepsIdentity(q: Queue, a: Action)
    requires ProgressInv(q) && Disciplined(q) && IdentityOk(q) && Enabled(q, a)
    ensures IdentityOk(Next(q, a))
  {
    match a
    case Visit(f, g) => VisitKeepsIdentity(q, f, g);
    case ReadDep(v) => ReadDependencyCases(q, v);
    case _ =>
  }

  lemma TakeKeepsIdentity(q: Queue, id: nat, packet: Packet, outcome: Outcome)
    requires IdentityOk(q) && q.pc.AtScan? && id == q.pc.i
    ensures IdentityOk(TakePacket(q, id, packet, outcome))
  {
  }

  // The read index is maximal.

  ghost predicate MaximalOk(q: Queue) {
    && (!q.cut ==>
          && (q.pc.Idle? || q.pc.AtLoadWrite? ==> q.readIndex !in q.retired)
          && (q.pc.Scanning() && q.readIndex < q.pc.i ==> q.readIndex !in q.retired))
    && (q.pc.Scanning() ==>
          && (forall id :: id in q.retired ==> id < q.pc.locals.write)
          && (q.kind == Multi ==> q.pc.locals.write <= q.pc.locals.last)
          && (q.pc.AtComplete? ==> q.readIndex != q.pc.i))
  }

  lemma VisitKeepsMaximal(q: Queue, f: bool, g: bool)
    requires ProgressInv(q) && Disciplined(q) && MaximalOk(q) && q.pc.AtScan? && !q.cut
    ensures MaximalOk(VisitSlot(q, f, g))
  {
    VisitFrame(q, f, g);
    var slot := q.slots[Mod(q.pc.i, q.size)];
    if ScanDone(q.pc) {
      if q.pc.i == q.readIndex && q.readIndex in q.retired {
        assert false;
      }
    } else if slot.Holds? {
      VisitedInWindow(q);
      SlotIdentity(q);
    } else {
      SkipKeepsMaximal(q);
    }
  }

  lemma SkipKeepsMaximal(q: Queue)
    requires ProgressInv(q) && MaximalOk(q) && q.pc.AtScan? && !q.cut
    ensures MaximalOk(SkipSlot(q))
  {
    assert InWindow(q, q.readIndex);
  }

  lemma ClearKeepsMaximal(q: Queue)
    requires ProgressInv(q) && IdentityOk(q) && MaximalOk(q) && q.pc.AtClear?
    ensures MaximalOk(Next(q, Clear))
  {
    assert Next(q, Clear).retired == q.retired + [q.pc.i];
  }

  lemma ReadDepKeepsMaximal(q: Queue, v: int)
    requires ProgressInv(q) && IdentityOk(q) && MaximalOk(q) && q.pc.AtDeps?
    ensures MaximalOk(ReadDependency(q, v))
  {
    assert q.slots[Mod(q.pc.i, q.size)].Holds?;
    assert q.pc.i !in q.retired;
  }

  lemma StepKeepsMaximal(q: Queue, a: Action)
    requires ProgressInv(q) && Disciplined(q) && IdentityOk(q) && MaximalOk(q) && Enabled(q, a)
    ensures MaximalOk(Next(q, a))
  {
    match a
    case LoadWrite => PacketsToCheckExact(q);
    case Visit(f, g) => VisitKeepsMaximal(q, f, g);
    case ReadDep(v) => ReadDepKeepsMaximal(q, v);
    case Clear => ClearKeepsMaximal(q);
    case _ =>
  }

  // Barriers.

  /** After log position `from`, whatever lies above `b` comes after `b`. */
  ghost predicate Fenced(retired: seq<nat>, b: nat, from: nat) {
    forall k :: from <= k < |retired| && b < retired[k] ==> b in retired[from..k]
  }

  /** What the current pass retired lies below its position. */
  ghost predicate PassOk(q: Queue) {
    && q.passStart <= |q.retired|
    && (q.pc.AtLoadWrite? ==> q.passStart == |q.retired|)
    && (q.pc.Scanning() ==> forall k :: q.passStart <= k < |q.retired| ==>
          q.retired[k] < q.pc.i || (q.retired[k] == q.pc.i && (q.pc.AtAdvance? || q.pc.AtComplete?)))
  }

  ghost predicate MetOk(q: Queue) {
    MetBefore(q) && NotPassed(q)
  }

  ghost predicate MetBefore(q: Queue) {
    forall b :: b in q.met ==>
      && q.met[b] <= |q.retired|
      && b in q.published && q.published[b].IsBarrier()
      && b !in q.retired[..q.met[b]]
      && Fenced(q.retired, b, q.met[b])
  }

  ghost predicate NotPassed(q: Queue) {
    q.pc.Scanning() ==> forall b :: b in q.met && b !in q.retired ==> q.pc.i <= b
  }

  ghost predicate StopOk(q: Queue) {
    q.pc.Idle? && !q.cut && q.stop.Some? ==>
      && q.stop.value in q.met
      && q.stop.value !in q.retired
      && q.readIndex <= q.stop.value
      && forall k :: q.passStart <= k < |q.retired| ==> q.retired[k] < q.stop.value
  }

  ghost predicate BarrierOk(q: Queue) {
    PassOk(q) && MetOk(q) && StopOk(q)
  }

  lemma StopKeepsBarrier(q: Queue)
    requires ProgressInv(q) && IdentityOk(q) && BarrierOk(q) && q.pc.AtDeps?
    ensures BarrierOk(StopAtBarrier(q))
  {
    BarrierHeld(q);
    StopKeepsMet(q);
  }

  lemma BarrierHeld(q: Queue)
    requires Inv(q) && IdentityOk(q) && q.pc.AtDeps?
    ensures q.pc.i in q.published && q.published[q.pc.i].IsBarrier()
    ensures q.pc.i !in q.retired && q.readIndex <= q.pc.i
  {
    assert q.slots[Mod(q.pc.i, q.size)] == Holds(q.pc.i, q.pc.packet);
  }

  lemma StopKeepsMet(q: Queue)
    requires MetOk(q) && q.pc.AtDeps?
    requires q.pc.i in q.published && q.published[q.pc.i].IsBarrier() && q.pc.i !in q.retired
    ensures MetOk(StopAtBarrier(q))
  {
    assert q.retired[..|q.retired|] == q.retired;
  }

  /** Steps that leave the log and the barriers met alone and do not move the position. */
  lemma SamePositionKeepsBarrier(q: Queue, q': Queue)
    requires BarrierOk(q)
    requires q'.retired == q.retired && q'.met == q.met && q'.passStart == q.passStart
    requires forall b :: b in q.published ==> b in q'.published && q'.published[b] == q.published[b]
    requires q'.pc.Scanning() ==>
               && q.pc.Scanning() && q'.pc.i == q.pc.i
               && (q.pc.AtAdvance? || q.pc.AtComplete? ==> q'.pc.AtAdvance? || q'.pc.AtComplete?)
    requires q'.pc.AtLoadWrite? ==> q.pc.AtLoadWrite?
    requires q'.pc.Idle? && !q'.cut && q'.stop.Some? ==>
               q.pc.Idle? && !q.cut && q'.stop == q.stop && q'.readIndex == q.readIndex
    ensures BarrierOk(q')
  {
  }

  lemma ReadDepKeepsBarrier(q: Queue, v: int)
    requires ProgressInv(q) && IdentityOk(q) && BarrierOk(q) && q.pc.AtDeps?
    ensures BarrierOk(ReadDependency(q, v))
  {
    var q' := ReadDependency(q, v);
    ReadDependencyCases(q, v);
    if q' == StopAtBarrier(q) {
      StopKeepsBarrier(q);
    } else {
      SamePositionKeepsBarrier(q, q');
    }
  }

  /** Retiring the packet at the scan position respects every barrier met before. */
  lemma FenceExtends(retired: seq<nat>, b: nat, from: nat, id: nat)
    requires from <= |retired| && b !in retired[..from] && Fenced(retired, b, from)
    requires b in retired || id <= b
    ensures Fenced(retired + [id], b, from)
    ensures b !in (retired + [id])[..from]
  {
    var longer := retired + [id];
    assert longer[..from] == retired[..from];
    forall k | from <= k < |longer| && b < longer[k]
      ensures b in longer[from..k]
    {
      assert longer[from..k] == retired[from..k];
      if k == |retired| {
        assert retired == retired[..from] + retired[from..];
      }
    }
  }

  lemma ClearKeepsBarrier(q: Queue)
    requires ProgressInv(q) && IdentityOk(q) && BarrierOk(q) && q.pc.AtClear?
    ensures BarrierOk(Next(q, Clear))
  {
    var q' := Next(q, Clear);
    assert q'.retired == q.retired + [q.pc.i];
    forall b | b in q.met
      ensures b !in q'.retired[..q.met[b]] && Fenced(q'.retired, b, q.met[b])
    {
      FenceExtends(q.retired, b, q.met[b], q.pc.i);
    }
    assert forall b :: b !in q'.retired ==> b !in q.retired && b != q'.retired[|q.retired|];
  }

  lemma VisitKeepsBarrier(q: Queue, f: bool, g: bool)
    requires ProgressInv(q) && BarrierOk(q) && q.pc.AtScan?
    ensures BarrierOk(VisitSlot(q, f, g))
  {
    var q' := VisitSlot(q, f, g);
    VisitFrame(q, f, g);
    VisitKeepsHistory(q, f, g);
    if q'.pc.AtScan? {
      var i := q.pc.i;
      assert i in q.published ==> i in q.retired by {
        if i in q.published && i !in q.retired {
          UnretiredInWindow(q, i);
        }
      }
      PositionMoves(q, q');
    } else {
      SamePositionKeepsBarrier(q, q');
    }
  }

  /** The scan moves past an index that is retired or was never published. */
  lemma PositionMoves(q: Queue, q': Queue)
    requires BarrierOk(q) && q.pc.Scanning()
    requires q.pc.i in q.published ==> q.pc.i in q.retired
    requires q'.retired == q.retired && q'.met == q.met && q'.passStart == q.passStart && q'.published == q.published
    requires q'.pc.AtScan? && q'.pc.i == q.pc.i + 1
    ensures BarrierOk(q')
  {
    PassAfterMove(q, q');
    MetAfterMove(q, q');
  }

  lemma PassAfterMove(q: Queue, q': Queue)
    requires PassOk(q) && q.pc.Scanning() && q'.retired == q.retired && q'.passStart == q.passStart
    requires q'.pc.AtScan? && q'.pc.i == q.pc.i + 1
    ensures PassOk(q')
  {
  }

  lemma MetAfterMove(q: Queue, q': Queue)
    requires MetOk(q) && q.pc.Scanning() && (q.pc.i in q.published ==> q.pc.i in q.retired)
    requires q'.retired == q.retired && q'.met == q.met && q'.published == q.published
    requires q'.pc.AtScan? && q'.pc.i == q.pc.i + 1
    ensures MetOk(q')
  {
    assert MetBefore(q');
    forall b | b in q'.met && b !in q'.retired ensures q'.pc.i <= b {
      assert b in q.met && b in q.published;
    }
  }

  lemma VisitKeepsHistory(q: Queue, f: bool, g: bool)
    requires WellFormed(q) && q.pc.AtScan?
    ensures var q' := VisitSlot(q, f, g);
            && q'.met == q.met && q'.passStart == q.passStart && q'.cut == q.cut
            && (q'.pc.Idle? ==> q'.stop == None)
            && !q'.pc.AtLoadWrite? && !q'.pc.AtAdvance? && !q'.pc.AtComplete?
            && (q'.pc.AtScan? ==> q.slots[Mod(q.pc.i, q.size)] == Invalid)
  {
  }

  lemma StepKeepsBarrier(q: Queue, a: Action)
    requires ProgressInv(q) && IdentityOk(q) && BarrierOk(q) && Enabled(q, a)
    ensures BarrierOk(Next(q, a))
  {
    match a
    case Visit(f, g) => VisitKeepsBarrier(q, f, g);
    case ReadDep(v) => ReadDepKeepsBarrier(q, v);
    case Clear => ClearKeepsBarrier(q);
    case LoadWrite => LoadWriteKeepsBarrier(q);
    case Complete =>
      assert q.pc.id in q.retired;
      PositionMoves(q, Next(q, a));
    case Begin => BeginKeepsBarrier(q);
    case _ => SamePositionKeepsBarrier(q, Next(q, a));
  }

  lemma BeginKeepsBarrier(q: Queue)
    requires BarrierOk(q) && WellFormed(q) && Enabled(q, Begin)
    ensures BarrierOk(Next(q, Begin))
  {
  }

  lemma LoadWriteKeepsBarrier(q: Queue)
    requires ProgressInv(q) && BarrierOk(q) && q.pc.AtLoadWrite?
    ensures BarrierOk(Next(q, LoadWrite))
  {
    forall b | b in q.met && b !in q.retired ensures q.readIndex <= b {
      UnretiredInWindow(q, b);
    }
  }

  // Runs.

  ghost predicate OrderInv(q: Queue) {
    ProgressInv(q) && IdentityOk(q) && MaximalOk(q) && BarrierOk(q)
  }

  lemma StepKeepsOrder(q: Queue, a: Action)
    requires OrderInv(q) && Disciplined(q) && Enabled(q, a)
    ensures OrderInv(Next(q, a))
  {
    StepKeepsProgress(q, Next(q, a));
    StepKeepsIdentity(q, a);
    StepKeepsMaximal(q, a);
    StepKeepsBarrier(q, a);
  }

  lemma InitOrder(q: Queue)
    requires Init(q)
    ensures OrderInv(q)
  {
    InitProgress(q);
  }

  lemma RunOrder(tr: seq<Queue>, t: nat)
    requires DisciplinedRun(tr) && t < |tr|
    ensures OrderInv(tr[t])
  {
    forall q | Init(q) ensures OrderInv(q) {
      InitOrder(q);
    }
    forall q, q' | OrderInv(q) && Disciplined(q) && Step(q, q') ensures OrderInv(q') {
      var a :| Enabled(q, a) && q' == Next(q, a);
      StepKeepsOrder(q, a);
    }
    RunInduction(tr, q => Disciplined(q), q => OrderInv(q), t);
  }

  /** With room-checked reservation (or on a SINGLE queue) the packet id given to every kernel is
      the index its producer reserved, and the slot the worker is busy with holds that packet. */
  lemma {:induction false} PacketIdIsIndex(tr: seq<Queue>, t: nat)
    requires DisciplinedRun(tr) && t < |tr|
    ensures forall r :: 0 <= r < |tr[t].reports| ==> tr[t].reports[r].packetId == tr[t].reports[r].id
    ensures var q := tr[t];
            q.pc.Holding() ==>
              && q.pc.i in q.published && q.published[q.pc.i] == q.pc.packet
              && WellFormed(q) && q.slots[Mod(q.pc.i, q.size)] == Holds(q.pc.i, q.pc.packet)
              && q.readIndex <= q.pc.i < q.readIndex + q.size
  {
    RunOrder(tr, t);
    if tr[t].pc.Holding() {
      VisitedInWindow(tr[t]);
    }
  }

  /** Outside a pass the read index is the least unretired index, and a processed bit is set
      exactly when the index of the window that owns the slot is retired. */
  lemma {:induction false} ReadIndexMaximal(tr: seq<Queue>, t: nat)
    requires DisciplinedRun(tr) && t < |tr|
    requires tr[t].pc.Idle? && !tr[t].cut
    ensures var q := tr[t];
            && WellFormed(q)
            && q.readIndex !in q.retired
            && (forall id: nat :: id < q.readIndex ==> id in q.retired)
            && (forall id: nat :: q.readIndex <= id < q.readIndex + q.size ==>
                  (IsPacketProcessed(q.processed, Mod(id, q.size)) <==> id in q.retired))
  {
    RunOrder(tr, t);
    ProcessedBitsExact(tr, t);
  }

  /** A pass that met an unsatisfied barrier at index b retired nothing above b, left the read
      index at most b, and left the barrier in its slot. */
  lemma {:induction false} BarrierBlocksPass(tr: seq<Queue>, t: nat)
    requires DisciplinedRun(tr) && t < |tr|
    requires tr[t].pc.Idle? && !tr[t].cut && tr[t].stop.Some?
    ensures var q, b := tr[t], tr[t].stop.value;
            && b in q.published && q.published[b].IsBarrier()
            && WellFormed(q) && q.slots[Mod(b, q.size)] == Holds(b, q.published[b])
            && q.readIndex <= b
            && q.passStart <= |q.retired|
            && forall k :: q.passStart <= k < |q.retired| ==> q.retired[k] < b
  {
    RunOrder(tr, t);
  }

  /** A barrier keeps holding. Once some pass met it unsatisfied, in every later state of the run
      each index above it that was retired since comes after the barrier's own retirement. */
  lemma {:induction false} BarrierFences(tr: seq<Queue>, t: nat, u: nat, k: nat)
    requires DisciplinedRun(tr) && t <= u < |tr|
    requires tr[t].pc.Idle? && !tr[t].cut && tr[t].stop.Some?
    requires |tr[t].retired| <= k < |tr[u].retired|
    requires tr[t].stop.value < tr[u].retired[k]
    ensures exists j :: |tr[t].retired| <= j < k && tr[u].retired[j] == tr[t].stop.value
  {
    StoppedBarrierIsMet(tr, t);
    Monotone(tr, t, u);
    MetKept(tr, t, u);
    var j := MetBarrierFences(tr, u, tr[t].stop.value, k);
    if j < |tr[t].retired| {
      assert false;
    }
  }

  lemma StoppedBarrierIsMet(tr: seq<Queue>, t: nat)
    requires DisciplinedRun(tr) && t < |tr|
    requires tr[t].pc.Idle? && !tr[t].cut && tr[t].stop.Some?
    ensures var q, b := tr[t], tr[t].stop.value; b in q.met && q.met[b] <= |q.retired| && b !in q.retired
  {
    RunOrder(tr, t);
  }

  lemma MetBarrierFences(tr: seq<Queue>, u: nat, b: nat, k: nat) returns (j: nat)
    requires DisciplinedRun(tr) && u < |tr| && b in tr[u].met && tr[u].met[b] <= k < |tr[u].retired| && b < tr[u].retired[k]
    ensures j < k && tr[u].retired[j] == b
  {
    RunOrder(tr, u);
    assert b in tr[u].retired[tr[u].met[b]..k];
    j :| tr[u].met[b] <= j < k && tr[u].retired[j] == b;
  }

  ghost predicate KeepsMet(q: Queue, q': Queue) {
    forall b :: b in q.met ==> b in q'.met && q'.met[b] == q.met[b]
  }

  lemma StepKeepsMet(q: Queue, a: Action)
    requires WellFormed(q) && Enabled(q, a)
    ensures KeepsMet(q, Next(q, a))
  {
  }

  lemma MetKept(tr: seq<Queue>, t: nat, u: nat)
    requires Run(tr) && t <= u < |tr|
    ensures KeepsMet(tr[t], tr[u])
  {
    forall v | 0 < v < |tr| && Step(tr[v - 1], tr[v]) ensures KeepsMet(tr[v - 1], tr[v]) {
      var a :| Enabled(tr[v - 1], a) && tr[v] == Next(tr[v - 1], a);
      StepKeepsMet(tr[v - 1], a);
    }
    RunRelation(tr, (q, q') => KeepsMet(q, q'), t, u);
  }
}
