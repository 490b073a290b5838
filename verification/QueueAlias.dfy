/** Without room-checked reservation a MULTI queue of any size can hand a kernel the wrong packet id and
    leave the read index behind. */
module QueueAlias {
  import opened Modular
  import opened Packets
  import opened QueueProtocol
  import opened QueueInvariant
  import opened QueueSchedules

  const FREELY: Rules := Rules(false, false)

  /** A first pass handles index 0 and, published during the pass, index 1. Index 1 is rung after it was
      retired, which starts another pass although the ring is empty. */
  lemma LateRing(size: nat) returns (tr: seq<Queue>)
    requires 0 < size < 0x8000_0000
    ensures RunBy(tr, FREELY) && Emptied(tr[|tr| - 1], size, 2, {})
    ensures tr[|tr| - 1].pc == AtScan(2, Locals(2, size + 3, size + 2)) && tr[|tr| - 1].writeIndex == size + 3
  {
    tr := FirstPass(size);
    tr := HandleNext(tr, size, 1, {}, FREELY);
    tr := SkipTo(tr, 2, size + 1, FREELY);
    tr := EndPass(tr, FREELY);
    tr := RingAndStart(tr, 1, FREELY);
  }

  lemma FirstPass(size: nat) returns (tr: seq<Queue>)
    requires 0 < size < 0x8000_0000
    ensures RunBy(tr, FREELY) && Emptied(tr[|tr| - 1], size, 1, {})
    ensures tr[|tr| - 1].pc == AtScan(1, Locals(1, size + 3, size)) && tr[|tr| - 1].writeIndex == size + 3
    ensures tr[|tr| - 1].rung == {0} && tr[|tr| - 1].doorbell == tr[|tr| - 1].lastHandled == 0
  {
    tr := Then([NewQueue(size, Multi)], Reserve(size + 3), FREELY);
    tr := Then(tr, Publish(0, ANY_KERNEL), FREELY);
    tr := RingAndStart(tr, 0, FREELY);
    HandledEmpties(tr[|tr| - 1], size, 0, {});
    tr := HandleKernel(tr, 0, FREELY);
  }

  /** The pass sees the slot of its read index 2 empty. Then the packet of index 2 is published. The scan
      meets it at index size + 2, which shares the slot. */
  lemma MeetAgain(tr: seq<Queue>, size: nat) returns (r: seq<Queue>)
    requires RunBy(tr, FREELY) && Emptied(tr[|tr| - 1], size, 2, {})
    requires tr[|tr| - 1].pc == AtScan(2, Locals(2, size + 3, size + 2)) && tr[|tr| - 1].writeIndex == size + 3
    ensures RunBy(r, FREELY) && Waiting(r[|r| - 1], 2) && !r[|r| - 1].cut
    ensures r[|r| - 1].size == size && r[|r| - 1].kind == Multi
    ensures r[|r| - 1].pc == AtScan(size + 2, Locals(2, size + 3, size + 2)) && r[|r| - 1].readIndex == 2
  {
    r := SkipTo(tr, 2, 3, FREELY);
    r := Then(r, Publish(2, ANY_KERNEL), FREELY);
    forall j: nat | 3 <= j < size + 2 ensures r[|r| - 1].slots[Mod(j, size)] == Invalid {
      if Mod(j, size) == Mod(2, size) {
        ModUnique(j, 2, size);
      }
    }
    r := SkipTo(r, 3, size + 2, FREELY);
    ModShift(2, size);
  }

  /** For every ring size there is a run without room checks in which the kernel of index 2 runs with
      packet id size + 2, and the pass ends with index 2 retired while the read index is still 2. */
  lemma {:induction false} AliasWithoutRoomCheck(size: nat) returns (tr: seq<Queue>)
    requires 0 < size < 0x8000_0000
    ensures Run(tr) && tr[0].size == size && tr[0].kind == Multi
    ensures var q := tr[|tr| - 1];
            && q.pc.Idle? && !q.cut
            && Report(size + 2, 2, Launched) in q.reports
            && q.readIndex == 2 && 2 in q.retired
  {
    tr := LateRing(size);
    tr := MeetAgain(tr, size);
    tr := HandleKernel(tr, 2, FREELY);
    var q := tr[|tr| - 1];
    assert q.reports[|q.reports| - 1] == Report(size + 2, 2, Launched) && q.retired[|q.retired| - 1] == 2;
    tr := EndPass(tr, FREELY);
    RunByIsRun(tr, FREELY);
    Monotone(tr, 0, |tr| - 1);
  }
}
