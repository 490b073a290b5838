/** What kernels and error callbacks are told about, over whole runs. */
module QueueReports {
  import opened Modular
  import opened Packets
  import opened QueueProtocol
  import opened QueueInvariant
  import opened QueueProgress

  /** The outcome is what the checks say of the published packet, for some answer of the kernel
      registry and of the group memory region. */
  ghost predicate Justified(q: Queue, r: Report) {
    && r.id in q.published && q.published[r.id].KernelDispatch?
    && exists found, granted :: r.outcome == DispatchOutcome(q.published[r.id].kernel, found, granted)
  }

  ghost predicate JustifiedInv(q: Queue) {
    Inv(q) && forall r :: 0 <= r < |q.reports| ==> Justified(q, q.reports[r])
  }

  lemma VisitReports(q: Queue, f: bool, g: bool)
    requires Inv(q) && q.pc.AtScan?
    ensures var q' := VisitSlot(q, f, g);
            || q'.reports == q.reports
            || exists r :: Justified(q, r) && q'.reports == q.reports + [r]
  {
    var slot := q.slots[Mod(q.pc.i, q.size)];
    if !ScanDone(q.pc) && slot.Holds? && slot.packet.KernelDispatch? {
      var outcome := OutcomeOf(slot.packet, f, g);
      assert q.published[slot.id] == slot.packet;
      assert Justified(q, Report(q.pc.i, slot.id, outcome));
    }
  }

  lemma StepReports(q: Queue, a: Action)
    requires Inv(q) && Enabled(q, a)
    ensures var q' := Next(q, a);
            || q'.reports == q.reports
            || exists r :: Justified(q, r) && q'.reports == q.reports + [r]
  {
    match a
    case Visit(f, g) => VisitReports(q, f, g);
    case ReadDep(v) => ReadDependencyCases(q, v);
    case _ =>
  }

  lemma StepKeepsJustified(q: Queue, q': Queue)
    requires JustifiedInv(q) && Step(q, q')
    ensures JustifiedInv(q')
  {
    var a :| Enabled(q, a) && q' == Next(q, a);
    StepKeepsInv(q, a);
    SafeStepGrows(q, q');
    StepReports(q, a);
    forall r | 0 <= r < |q'.reports| ensures Justified(q', q'.reports[r]) {
      assert Justified(q, q'.reports[r]);
    }
  }

  /** In every interleaving each report is about a published dispatch packet and tells what the checks
      say of that packet: it never is INVALID_PACKET_FORMAT, it is INCOMPATIBLE_ARGUMENTS exactly for
      invalid dimensions, and only a packet with valid dimensions and a nonempty work-group is
      launched. */
  lemma {:induction false} ReportsAreJustified(tr: seq<Queue>, t: nat, r: nat)
    requires Run(tr) && t < |tr| && r < |tr[t].reports|
    ensures var q, report := tr[t], tr[t].reports[r];
            && report.id in q.published && q.published[report.id].KernelDispatch?
            && var p := q.published[report.id].kernel;
            && report.outcome != Callback(InvalidPacketFormat)
            && (report.outcome == Callback(IncompatibleArguments) <==> !AreDimensionsValid(p))
            && (report.outcome == Callback(InvalidAllocation) ==> p.groupSegmentSize != 0)
            && (report.outcome == Launched ==>
                  AreDimensionsValid(p) && p.workgroupSizeX > 0 && p.workgroupSizeY > 0 && p.workgroupSizeZ > 0)
  {
    forall q | Init(q) ensures JustifiedInv(q) {
      InitInv(q);
    }
    forall q, q' | JustifiedInv(q) && Step(q, q') ensures JustifiedInv(q') {
      StepKeepsJustified(q, q');
    }
    RunInduction(tr, q => true, q => JustifiedInv(q), t);
    var q := tr[t];
    assert Justified(q, q.reports[r]);
    var found, granted :| q.reports[r].outcome == DispatchOutcome(q.published[q.reports[r].id].kernel, found, granted);
    var p := q.published[q.reports[r].id].kernel;
    DispatchOutcomeMeaning(p, found, granted);
    assert WorkgroupSize(p, 0) == p.workgroupSizeX && WorkgroupSize(p, 1) == p.workgroupSizeY &&
           WorkgroupSize(p, 2) == p.workgroupSizeZ;
  }

  // Which kernels run.

  ghost predicate LastReportIs(q: Queue, id: nat, packetId: nat) {
    0 < |q.reports| && q.reports[|q.reports| - 1].id == id && q.reports[|q.reports| - 1].packetId == packetId
  }

  /** The kernel of the packet in hand runs if and only if the packet was reported as launched. */
  ghost predicate HandOk(q: Queue) {
    && (q.pc.AtKernel? ==>
          LastReportIs(q, q.pc.id, q.pc.i) && q.reports[|q.reports| - 1].outcome == Launched && q.pc.id !in q.ran)
    && (q.pc.AtClear? && q.pc.packet.KernelDispatch? ==>
          LastReportIs(q, q.pc.id, q.pc.i) && (q.reports[|q.reports| - 1].outcome == Launched <==> q.pc.id in q.ran))
  }

  ghost predicate RanOk(q: Queue) {
    && NoDuplicates(q.ran)
    && (forall id :: id in q.ran ==> Reported(q, id))
    && (forall r :: 0 <= r < |q.reports| ==>
          && (q.reports[r].outcome != Launched ==> q.reports[r].id !in q.ran)
          && (q.reports[r].id in q.retired && q.reports[r].outcome == Launched ==> q.reports[r].id in q.ran))
  }

  ghost predicate KernelInv(q: Queue) {
    JustifiedInv(q) && ReportsOk(q) && HandOk(q) && RanOk(q)
  }

  lemma TakeKeepsKernels(q: Queue, id: nat, packet: Packet, outcome: Outcome)
    requires KernelInv(q) && q.pc.AtScan? && q.slots[Mod(q.pc.i, q.size)] == Holds(id, packet)
    ensures var q' := TakePacket(q, id, packet, outcome); HandOk(q') && RanOk(q')
  {
    var q' := TakePacket(q, id, packet, outcome);
    ReportsKept(q, q');
    assert id !in q.retired;
    assert !Reported(q, id);
  }

  lemma ReturnKeepsKernels(q: Queue)
    requires KernelInv(q) && q.pc.AtKernel?
    ensures HandOk(Next(q, Return)) && RanOk(Next(q, Return))
  {
    var q' := Next(q, Return);
    RanGains(q, q', q.pc.id);
    assert HandOk(q');
  }

  lemma RanGains(q: Queue, q': Queue, id: nat)
    requires RanOk(q) && ReportsOk(q) && q'.reports == q.reports && q'.retired == q.retired
    requires id !in q.ran && q'.ran == q.ran + [id] && 0 < |q.reports|
    requires q.reports[|q.reports| - 1].id == id && q.reports[|q.reports| - 1].outcome == Launched
    ensures RanOk(q') && id in q'.ran
  {
    assert q'.ran[|q.ran|] == id;
    forall other | other in q'.ran ensures Reported(q', other) {
      if other == id {
        assert q'.reports[|q.reports| - 1].id == id;
      } else {
        assert other in q.ran && Reported(q, other);
        ReportsKept(q, q');
      }
    }
    forall n | 0 <= n < |q'.reports| && q'.reports[n].outcome != Launched ensures q'.reports[n].id !in q'.ran {
      assert q'.reports[n].id == id ==> n == |q.reports| - 1;
    }
  }

  lemma ClearKeepsKernels(q: Queue)
    requires KernelInv(q) && q.pc.AtClear?
    ensures RanOk(Next(q, Clear))
  {
    var q' := Next(q, Clear);
    ReportsKept(q, q');
    RetiredGains(q, q', q.pc.id);
    forall r | 0 <= r < |q'.reports| && q'.reports[r].id == q.pc.id && q'.reports[r].outcome == Launched
      ensures q.pc.id in q'.ran
    {
      assert Justified(q, q.reports[r]);
      assert q.published[q.pc.id] == q.pc.packet;
    }
  }

  /** Steps that start and end no kernel and retire nothing. */
  lemma OtherKeepsKernels(q: Queue, q': Queue)
    requires HandOk(q) && RanOk(q) && q'.reports == q.reports && q'.ran == q.ran && q'.retired == q.retired
    requires q'.pc == q.pc || !(q'.pc.AtKernel? || (q'.pc.AtClear? && q'.pc.packet.KernelDispatch?))
    ensures HandOk(q') && RanOk(q')
  {
    ReportsKept(q, q');
  }

  lemma VisitKeepsKernels(q: Queue, f: bool, g: bool)
    requires KernelInv(q) && q.pc.AtScan?
    ensures var q' := VisitSlot(q, f, g); HandOk(q') && RanOk(q')
  {
    var slot := q.slots[Mod(q.pc.i, q.size)];
    if !ScanDone(q.pc) && slot.Holds? {
      TakeKeepsKernels(q, slot.id, slot.packet, OutcomeOf(slot.packet, f, g));
    } else {
      OtherKeepsKernels(q, VisitSlot(q, f, g));
    }
  }

  lemma ReadDepKeepsKernels(q: Queue, v: int)
    requires KernelInv(q) && q.pc.AtDeps? && q.pc.packet.IsBarrier()
    ensures var q' := ReadDependency(q, v); HandOk(q') && RanOk(q')
  {
    ReadDependencyCases(q, v);
    OtherKeepsKernels(q, ReadDependency(q, v));
  }

  lemma ActionKeepsKernels(q: Queue, a: Action)
    requires KernelInv(q) && Enabled(q, a)
    ensures HandOk(Next(q, a)) && RanOk(Next(q, a))
  {
    match a
    case Visit(f, g) => VisitKeepsKernels(q, f, g);
    case ReadDep(v) => ReadDepKeepsKernels(q, v);
    case Return => ReturnKeepsKernels(q);
    case Clear => ClearKeepsKernels(q);
    case _ => OtherKeepsKernels(q, Next(q, a));
  }

  lemma StepKeepsKernels(q: Queue, q': Queue)
    requires KernelInv(q) && Step(q, q')
    ensures KernelInv(q')
  {
    var a :| Enabled(q, a) && q' == Next(q, a);
    ActionKeepsKernels(q, a);
    StepKeepsReports(q, a);
    StepKeepsJustified(q, q');
  }

  lemma RunKernels(tr: seq<Queue>, t: nat)
    requires Run(tr) && t < |tr|
    ensures KernelInv(tr[t])
  {
    forall q | Init(q) ensures KernelInv(q) {
      InitInv(q);
    }
    forall q, q' | KernelInv(q) && Step(q, q') ensures KernelInv(q') {
      StepKeepsKernels(q, q');
    }
    RunInduction(tr, q => true, q => KernelInv(q), t);
  }

  /** Which kernels run. In every interleaving, while the worker is inside a kernel the last report is that
      this packet was launched, under the packet id the scan gave it. The kernel of a retired packet
      ran, once, if and only if the packet's report is Launched; the kernel of a packet reported with an
      error never runs; and no other kernel runs. */
  lemma {:induction false} KernelsRunExactly(tr: seq<Queue>, t: nat)
    requires Run(tr) && t < |tr|
    ensures var q := tr[t];
            && (q.pc.AtKernel? ==>
                  && q.pc.id in q.published && q.published[q.pc.id] == q.pc.packet && q.pc.packet.KernelDispatch?
                  && 0 < |q.reports| && q.reports[|q.reports| - 1] == Report(q.pc.i, q.pc.id, Launched))
            && NoDuplicates(q.ran)
            && (forall r :: 0 <= r < |q.reports| && q.reports[r].id in q.retired ==>
                  (q.reports[r].outcome == Launched <==> q.reports[r].id in q.ran))
            && (forall r :: 0 <= r < |q.reports| && q.reports[r].outcome != Launched ==> q.reports[r].id !in q.ran)
            && (forall id :: id in q.ran ==>
                  exists r :: 0 <= r < |q.reports| && q.reports[r].id == id && q.reports[r].outcome == Launched)
  {
    RunKernels(tr, t);
    var q := tr[t];
    if q.pc.AtKernel? {
      assert q.slots[Mod(q.pc.i, q.size)] == Holds(q.pc.id, q.pc.packet);
    }
    forall id | id in q.ran
      ensures exists r :: 0 <= r < |q.reports| && q.reports[r].id == id && q.reports[r].outcome == Launched
    {
      assert Reported(q, id);
    }
  }

  // Packets of unsupported types.

  ghost predicate SupportedInv(q: Queue) {
    Inv(q) && forall id :: id in q.retired && id in q.published ==> !q.published[id].Unsupported?
  }

  lemma StepKeepsSupported(q: Queue, q': Queue)
    requires SupportedInv(q) && Step(q, q')
    ensures SupportedInv(q')
  {
    var a :| Enabled(q, a) && q' == Next(q, a);
    StepKeepsInv(q, a);
    SafeStepGrows(q, q');
    if a.Clear? {
      RetiredGains(q, q', q.pc.id);
      assert q.published[q.pc.id] == q.pc.packet;
    } else {
      OnlyClearRetires(q, a);
    }
  }

  lemma OnlyClearRetires(q: Queue, a: Action)
    requires WellFormed(q) && Enabled(q, a) && !a.Clear?
    ensures Next(q, a).retired == q.retired
  {
    match a
    case Visit(f, g) => VisitFrame(q, f, g);
    case ReadDep(v) => ReadDependencyCases(q, v);
    case _ =>
  }

  /** A packet of an unsupported type is never retired: the worker aborts when it meets one. */
  lemma {:induction false} UnsupportedIsNeverRetired(tr: seq<Queue>, t: nat, id: nat)
    requires Run(tr) && t < |tr| && id in tr[t].published && tr[t].published[id].Unsupported?
    ensures id !in tr[t].retired
  {
    forall q | Init(q) ensures SupportedInv(q) {
      InitInv(q);
    }
    forall q, q' | SupportedInv(q) && Step(q, q') ensures SupportedInv(q') {
      StepKeepsSupported(q, q');
    }
    RunInduction(tr, q => true, q => SupportedInv(q), t);
  }
}
