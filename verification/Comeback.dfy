/** What the worker can do to a queue when it comes back to it after its pass was cut by a jump that was
    meant for another queue. Nothing of the kind happens before it comes back: see ExactlyOnce, and the
    theorems on the whole agent. */
module Comeback {
  import opened Modular
  import opened Packets
  import opened QueueProtocol
  import opened QueueSchedules

  const AGAIN: Rules := Rules(true, true)

  /** Index 1 is handled out of turn, so its bit is set, and then index 0. */
  lemma OutOfTurn(size: nat) returns (tr: seq<Queue>)
    requires 2 <= size < 0x8000_0000
    ensures RunBy(tr, AGAIN) && Emptied(tr[|tr| - 1].(readIndex := 2, pc := Idle), size, 2, {1}) && tr[0].size == size
    ensures var q := tr[|tr| - 1];
            && q.pc == AtScan(1, Locals(1, size, size)) && q.readIndex == 1 && q.writeIndex == size
            && q.rung == {0, 1} && q.lastHandled == 0 && MovesRead(q)
  {
    tr := FirstOutOfTurn(size);
    tr := Then(tr, Publish(0, ANY_KERNEL), AGAIN);
    tr := RingAndStart(tr, 0, AGAIN);
    ghost var q := tr[|tr| - 1];
    tr := HandleKernel(tr, 0, AGAIN);
    assert q.retired == [1] && tr[|tr| - 1].retired == [1, 0];
    assert AllInvalid(tr[|tr| - 1]);
  }

  lemma FirstOutOfTurn(size: nat) returns (tr: seq<Queue>)
    requires 2 <= size < 0x8000_0000
    ensures RunBy(tr, AGAIN) && tr[0].size == size
    ensures var q := tr[|tr| - 1];
            && WellFormed(q) && q.size == size && q.kind == Multi && !q.cut && q.pc == Idle
            && AllInvalid(q) && BitsAre(q, {1}) && q.readIndex == 0 && q.writeIndex == size
            && q.published == map[1 := ANY_KERNEL] && q.retired == [1] && q.rung == {1} && q.lastHandled == 1
  {
    tr := Then([NewQueue(size, Multi)], Reserve(size), AGAIN);
    tr := Then(tr, Publish(1, ANY_KERNEL), AGAIN);
    tr := RingAndStart(tr, 1, AGAIN);
    tr := SkipTo(tr, 0, 1, AGAIN);
    tr := HandleKernel(tr, 1, AGAIN);
    assert AllInvalid(tr[|tr| - 1]) && BitsAre(tr[|tr| - 1], {1});
    tr := SkipTo(tr, 2, size, AGAIN);
    tr := EndPass(tr, AGAIN);
  }

  /** The jump comes between the store of the read index and the reset of the bit, and the worker comes
      back: the ring is empty, but slot 1 still has the bit. */
  lemma CutAndBack(size: nat) returns (tr: seq<Queue>)
    requires 2 <= size < 0x8000_0000
    ensures RunBy(tr, AGAIN) && Emptied(tr[|tr| - 1], size, 2, {1}) && tr[0].size == size
    ensures tr[|tr| - 1].pc == Idle && tr[|tr| - 1].writeIndex == size
    ensures tr[|tr| - 1].rung == {0, 1} && tr[|tr| - 1].lastHandled == 0
  {
    tr := OutOfTurn(size);
    ghost var q := tr[|tr| - 1];
    tr := Then(tr, CutInside, AGAIN);
    tr := Append(tr, tr[|tr| - 1].(cut := false), AGAIN);
    assert tr[|tr| - 1] == q.(readIndex := 2, pc := Idle);
  }

  /** The packets up to index size are handled in turn. */
  lemma {:induction false} HandleUpTo(tr: seq<Queue>, size: nat, n: nat) returns (r: seq<Queue>)
    requires 2 <= n <= size + 1 && RunBy(tr, AGAIN) && Emptied(tr[|tr| - 1], size, n, {1}) && tr[|tr| - 1].writeIndex == size + 2
    requires tr[|tr| - 1].pc == AtScan(n, Locals(n, size + 2, size + 2))
    ensures RunBy(r, AGAIN) && Emptied(r[|r| - 1], size, size + 1, {1}) && r[0] == tr[0]
    ensures r[|r| - 1].writeIndex == size + 2 && r[|r| - 1].pc == AtScan(size + 1, Locals(size + 1, size + 2, size + 2))
    decreases size + 1 - n
  {
    r := tr;
    if n <= size {
      if n == size {
        assert Mod(size, size) == 0;
      }
      r := HandleNext(tr, size, n, {1}, AGAIN);
      r := HandleUpTo(r, size, n + 1);
    }
  }

  /** The slot of index size + 1 is empty and has the bit: the read index moves over it, although the
      index was never published. */
  lemma ReadIndexRunsAhead(size: nat) returns (tr: seq<Queue>)
    requires 2 <= size < 0x8000_0000
    ensures RunBy(tr, AGAIN) && tr[0].size == size
    ensures var q := tr[|tr| - 1];
            && WellFormed(q) && q.size == size && q.readIndex == q.writeIndex == size + 2 && q.pc.Idle?
            && (forall id :: id in q.published <==> 0 <= id < size + 1)
            && (forall id :: id in q.retired <==> 0 <= id < size + 1)
  {
    tr := CutAndBack(size);
    tr := Then(tr, Reserve(2), AGAIN);
    tr := FirstAfterReturn(tr, size);
    tr := HandleUpTo(tr, size, 3);
    ModShift(1, size);
    ghost var q := tr[|tr| - 1];
    tr := Then(tr, Visit(true, true), AGAIN);
    assert tr[|tr| - 1].readIndex == size + 2;
    tr := EndPass(tr, AGAIN);
  }

  lemma FirstAfterReturn(tr: seq<Queue>, size: nat) returns (r: seq<Queue>)
    requires 2 <= size && RunBy(tr, AGAIN) && Emptied(tr[|tr| - 1], size, 2, {1}) && tr[|tr| - 1].writeIndex == size + 2
    requires tr[|tr| - 1].pc == Idle && tr[|tr| - 1].rung == {0, 1} && tr[|tr| - 1].lastHandled == 0
    requires RoomChecked(tr[|tr| - 1])
    ensures RunBy(r, AGAIN) && Emptied(r[|r| - 1], size, 3, {1}) && r[0] == tr[0]
    ensures r[|r| - 1].writeIndex == size + 2 && r[|r| - 1].pc == AtScan(3, Locals(3, size + 2, size + 2))
  {
    if size == 2 {
      assert Mod(2, 2) == 0;
    }
    r := Then(tr, Publish(2, ANY_KERNEL), AGAIN);
    r := RingAndStart(r, 2, AGAIN);
    HandledEmpties(r[|r| - 1], size, 2, {1});
    r := HandleKernel(r, 2, AGAIN);
  }

  /** For every ring of two slots or more there is a run in which a packet is lost after the worker came
      back, although all producers check for room: the jump falls between the two writes that move the
      read index over index 1, the bit left behind makes a later pass move the read index over the
      unpublished index size + 1, and the packet published there is overwritten before it is handled. */
  lemma {:induction false} ComebackLosesPacket(size: nat) returns (tr: seq<Queue>)
    requires 2 <= size < 0x8000_0000
    ensures RunBy(tr, AGAIN) && tr[0].size == size
    ensures var q, lost := tr[|tr| - 1], size + 1;
            && lost in q.published && lost !in q.retired && lost < q.readIndex
            && WellFormed(q) && q.slots[Mod(lost, q.size)] == Holds(2 * size + 1, ANY_KERNEL)
  {
    tr := ReadIndexRunsAhead(size);
    tr := Then(tr, Publish(size + 1, ANY_KERNEL), AGAIN);
    tr := Then(tr, Reserve(size), AGAIN);
    ModShift(size + 1, size);
    tr := Then(tr, Publish(2 * size + 1, ANY_KERNEL), AGAIN);
  }

  /** A kernel that was running when the jump came is started again, since its packet is still in its slot. */
  lemma {:induction false} ComebackStartsKernelTwice(size: nat) returns (tr: seq<Queue>)
    requires 2 <= size < 0x8000_0000
    ensures RunBy(tr, AGAIN) && tr[0].size == size
    ensures tr[|tr| - 1].reports == [Report(0, 0, Launched), Report(0, 0, Launched)]
  {
    tr := KernelCut(size);
    tr := Append(tr, tr[|tr| - 1].(cut := false), AGAIN);
    tr := Then(tr, Publish(1, ANY_KERNEL), AGAIN);
    tr := RingAndStart(tr, 1, AGAIN);
    tr := Then(tr, Visit(true, true), AGAIN);
  }

  lemma KernelCut(size: nat) returns (tr: seq<Queue>)
    requires 2 <= size < 0x8000_0000
    ensures RunBy(tr, AGAIN) && tr[0].size == size
    ensures var q := tr[|tr| - 1];
            && WellFormed(q) && q.size == size && q.kind == Multi && q.cut && q.pc == Idle
            && q.readIndex == 0 && q.writeIndex == size && q.slots[0] == Holds(0, ANY_KERNEL)
            && q.published == map[0 := ANY_KERNEL] && q.rung == {0} && q.lastHandled == 0
            && q.reports == [Report(0, 0, Launched)]
  {
    tr := Then([NewQueue(size, Multi)], Reserve(size), AGAIN);
    tr := Then(tr, Publish(0, ANY_KERNEL), AGAIN);
    tr := RingAndStart(tr, 0, AGAIN);
    tr := Then(tr, Visit(true, true), AGAIN);
    tr := Then(tr, Cut, AGAIN);
  }
}
