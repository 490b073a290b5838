/** Building blocks of runs that show what can go wrong. */
module QueueSchedules {
  import opened Modular
  import opened Packets
  import opened QueueProtocol

  /** What a run may contain: whether the worker may come back to a queue whose pass was cut, and whether
      producers check that the ring has room when they reserve. */
  datatype Rules = Rules(comesBack: bool, roomChecked: bool)

  /** The worker comes back to a queue whose pass was cut, and finds it as the jump left it. */
  ghost predicate ComesBack(q: Queue, q': Queue) {
    q.cut && q.pc.Idle? && q' == q.(cut := false)
  }

  ghost predicate StepBy(q: Queue, q': Queue, rules: Rules) {
    && (Step(q, q') || (rules.comesBack && ComesBack(q, q')))
    && (rules.roomChecked ==> RoomChecked(q'))
  }

  ghost predicate RunBy(tr: seq<Queue>, rules: Rules) {
    && 0 < |tr| && Init(tr[0])
    && forall t :: 0 < t < |tr| ==> StepByAt(tr, t, rules)
  }

  ghost predicate StepByAt(tr: seq<Queue>, t: nat, rules: Rules)
    requires 0 < t < |tr|
  {
    StepBy(tr[t - 1], tr[t], rules)
  }

  /** If the worker does not come back, these are the runs of the protocol. */
  lemma RunByIsRun(tr: seq<Queue>, rules: Rules)
    requires RunBy(tr, rules) && !rules.comesBack
    ensures Run(tr)
  {
    forall t | 0 < t < |tr| ensures StepAt(tr, t) {
      assert StepByAt(tr, t, rules);
    }
  }

  function NewQueue(size: nat, kind: QueueType): (q: Queue)
    requires 0 < size < 0x8000_0000
    ensures Init(q)
  {
    Queue(size, kind, seq(size, _ => Invalid), [], 0, 0, NEVER_RUNG, NEVER_RUNG, Idle,
          map[], {}, [], [], [], None, 0, map[], false)
  }

  lemma Append(tr: seq<Queue>, q: Queue, rules: Rules) returns (r: seq<Queue>)
    requires RunBy(tr, rules) && StepBy(tr[|tr| - 1], q, rules)
    ensures RunBy(r, rules) && r[|r| - 1] == q && r[0] == tr[0]
  {
    r := tr + [q];
    assert StepByAt(r, |tr|, rules);
    forall t | 0 < t < |tr| ensures StepByAt(r, t, rules) {
      assert StepByAt(tr, t, rules);
    }
  }

  /** Appends one step to a run. */
  lemma Then(tr: seq<Queue>, a: Action, rules: Rules) returns (r: seq<Queue>)
    requires RunBy(tr, rules) && WellFormed(tr[|tr| - 1]) && Enabled(tr[|tr| - 1], a)
    requires rules.roomChecked ==> RoomChecked(Next(tr[|tr| - 1], a))
    ensures RunBy(r, rules) && r[|r| - 1] == Next(tr[|tr| - 1], a) && r[0] == tr[0]
  {
    r := Append(tr, Next(tr[|tr| - 1], a), rules);
  }

  const ANY_KERNEL: Packet := KernelDispatch(KernelPacket(TYPE_KERNEL_DISPATCH, 3, 1, 1, 1, 1, 1, 0, 1), 0)

  ghost predicate Waiting(q: Queue, id: nat) {
    && WellFormed(q) && q.pc.AtScan? && !ScanDone(q.pc) && q.pc.locals.read == q.readIndex <= q.pc.i
    && q.slots[Mod(q.pc.i, q.size)] == Holds(id, ANY_KERNEL)
  }

  ghost function Handled(q: Queue, id: nat): Queue
    requires Waiting(q, id)
  {
    var i, l, s := q.pc.i, q.pc.locals, Mod(q.pc.i, q.size);
    q.(slots := q.slots[s := Invalid],
       readIndex := if l.read == i then i + 1 else q.readIndex,
       processed := SetPacketProcessed(q.processed, q.size, s, l.read != i),
       pc := AtScan(i + 1, if l.read == i then l.(read := i + 1) else l),
       reports := q.reports + [Report(i, id, Launched)],
       ran := q.ran + [id],
       retired := q.retired + [id])
  }

  /** The worker launches the kernel in the slot it looks at and retires its packet. */
  lemma HandleKernel(tr: seq<Queue>, id: nat, rules: Rules) returns (r: seq<Queue>)
    requires RunBy(tr, rules) && Waiting(tr[|tr| - 1], id) && (rules.roomChecked ==> RoomChecked(tr[|tr| - 1]))
    ensures RunBy(r, rules) && r[|r| - 1] == Handled(tr[|tr| - 1], id) && r[0] == tr[0]
    ensures rules.roomChecked ==> RoomChecked(r[|r| - 1])
  {
    var q := tr[|tr| - 1];
    r := Then(tr, Visit(true, true), rules);
    var reported := q.(reports := q.reports + [Report(q.pc.i, id, Launched)]);
    assert r[|r| - 1] == reported.(pc := AtKernel(q.pc.i, q.pc.locals, id, ANY_KERNEL));
    r := Then(r, Return, rules);
    assert r[|r| - 1] == reported.(ran := q.ran + [id], pc := AtClear(q.pc.i, q.pc.locals, id, ANY_KERNEL));
    r := Then(r, Clear, rules);
    r := RecordRetired(r, q, id, rules);
  }

  lemma RecordRetired(tr: seq<Queue>, q: Queue, id: nat, rules: Rules) returns (r: seq<Queue>)
    requires RunBy(tr, rules) && Waiting(q, id) && (rules.roomChecked ==> RoomChecked(q))
    requires tr[|tr| - 1] == Handled(q, id).(readIndex := q.readIndex, processed := q.processed,
                                             pc := AtAdvance(q.pc.i, q.pc.locals, id, ANY_KERNEL))
    ensures RunBy(r, rules) && r[|r| - 1] == Handled(q, id) && r[0] == tr[0]
  {
    r := Then(tr, Advance, rules);
    assert r[|r| - 1] == Handled(q, id).(pc := AtComplete(q.pc.i, Handled(q, id).pc.locals, id, ANY_KERNEL));
    r := Then(r, Complete, rules);
  }

  /** The scan passes over INVALID slots other than that of the read index. */
  lemma {:induction false} SkipTo(tr: seq<Queue>, from: nat, to: nat, rules: Rules) returns (r: seq<Queue>)
    requires RunBy(tr, rules) && WellFormed(tr[|tr| - 1]) && tr[|tr| - 1].pc.AtScan?
    requires rules.roomChecked ==> RoomChecked(tr[|tr| - 1])
    requires var q := tr[|tr| - 1];
             && q.pc.i == from <= to <= q.pc.locals.last + 1 && to <= q.pc.locals.write
             && forall j: nat :: from <= j < to ==>
                  && q.slots[Mod(j, q.size)] == Invalid
                  && (j == q.pc.locals.read ==> !IsPacketProcessed(q.processed, Mod(j, q.size)))
    ensures RunBy(r, rules) && r[|r| - 1] == tr[|tr| - 1].(pc := AtScan(to, tr[|tr| - 1].pc.locals)) && r[0] == tr[0]
    decreases if from <= to then to - from else 0
  {
    var q := tr[|tr| - 1];
    r := tr;
    if from < to {
      r := Then(tr, Visit(true, true), rules);
      assert r[|r| - 1] == q.(pc := AtScan(from + 1, q.pc.locals));
      r := SkipTo(r, from + 1, to, rules);
    }
  }

  /** The scan is over. */
  lemma EndPass(tr: seq<Queue>, rules: Rules) returns (r: seq<Queue>)
    requires RunBy(tr, rules) && WellFormed(tr[|tr| - 1]) && tr[|tr| - 1].pc.AtScan? && ScanDone(tr[|tr| - 1].pc)
    requires rules.roomChecked ==> RoomChecked(tr[|tr| - 1])
    ensures RunBy(r, rules) && r[|r| - 1] == tr[|tr| - 1].(pc := Idle, stop := None) && r[0] == tr[0]
  {
    r := Then(tr, Visit(true, true), rules);
  }

  /** Something is rung and the worker begins a pass. */
  lemma RingAndStart(tr: seq<Queue>, id: nat, rules: Rules) returns (r: seq<Queue>)
    requires RunBy(tr, rules) && WellFormed(tr[|tr| - 1]) && tr[|tr| - 1].kind == Multi
    requires rules.roomChecked ==> RoomChecked(tr[|tr| - 1])
    requires Enabled(tr[|tr| - 1], Ring(id)) && tr[|tr| - 1].pc.Idle? && !tr[|tr| - 1].cut && tr[|tr| - 1].lastHandled != id
    ensures RunBy(r, rules) && r[0] == tr[0]
    ensures var q := tr[|tr| - 1];
            r[|r| - 1] == q.(rung := q.rung + {id}, doorbell := id, lastHandled := id, passStart := |q.retired|,
                             pc := AtScan(q.readIndex, Locals(q.readIndex, q.writeIndex, q.readIndex + q.size)))
  {
    r := Then(tr, Ring(id), rules);
    r := Then(r, Begin, rules);
    r := Then(r, LoadWrite, rules);
  }

  ghost predicate AllInvalid(q: Queue) {
    forall s :: 0 <= s < |q.slots| ==> q.slots[s] == Invalid
  }

  /** The processed bits are those of the given slots. */
  ghost predicate BitsAre(q: Queue, bits: set<nat>)
    requires WellFormed(q)
  {
    forall s :: 0 <= s < q.size ==> (IsPacketProcessed(q.processed, s) <==> s in bits)
  }

  /** The ring is empty, exactly the first `done` indices are published and retired, and `bits` are set. */
  ghost predicate Emptied(q: Queue, size: nat, done: nat, bits: set<nat>) {
    && WellFormed(q) && q.size == size && q.kind == Multi && !q.cut
    && AllInvalid(q) && BitsAre(q, bits) && q.readIndex == done
    && (forall id :: id in q.published <==> 0 <= id < done)
    && (forall id :: id in q.retired <==> 0 <= id < done)
  }

  lemma HandledEmpties(q: Queue, size: nat, n: nat, bits: set<nat>)
    requires Waiting(q, n) && q.pc.i == n == q.readIndex && q.size == size && Mod(n, size) !in bits
    requires q.kind == Multi && !q.cut && BitsAre(q, bits)
    requires forall s :: 0 <= s < size && s != Mod(n, size) ==> q.slots[s] == Invalid
    requires forall id :: id in q.published <==> 0 <= id < n + 1
    requires forall id :: id in q.retired <==> 0 <= id < n
    ensures Emptied(Handled(q, n), size, n + 1, bits)
  {
    var q' := Handled(q, n);
    assert AllInvalid(q');
    assert BitsAre(q', bits);
    forall id ensures id in q'.retired <==> 0 <= id < n + 1 {
      assert q'.retired[|q.retired|] == n;
    }
  }

  /** The pass is at its read index, whose packet is published and handled. */
  lemma HandleNext(tr: seq<Queue>, size: nat, n: nat, bits: set<nat>, rules: Rules) returns (r: seq<Queue>)
    requires RunBy(tr, rules) && Emptied(tr[|tr| - 1], size, n, bits) && Mod(n, size) !in bits
    requires rules.roomChecked ==> RoomChecked(tr[|tr| - 1])
    requires tr[|tr| - 1].pc.AtScan? && !ScanDone(tr[|tr| - 1].pc) && n < tr[|tr| - 1].writeIndex
    requires tr[|tr| - 1].pc.i == n && tr[|tr| - 1].pc.locals.read == n
    ensures RunBy(r, rules) && Emptied(r[|r| - 1], size, n + 1, bits) && r[0] == tr[0]
    ensures rules.roomChecked ==> RoomChecked(r[|r| - 1])
    ensures var q, q' := tr[|tr| - 1], r[|r| - 1];
            && q'.pc == AtScan(n + 1, q.pc.locals.(read := n + 1)) && q'.writeIndex == q.writeIndex
            && q'.rung == q.rung && q'.doorbell == q.doorbell && q'.lastHandled == q.lastHandled
  {
    r := Then(tr, Publish(n, ANY_KERNEL), rules);
    HandledEmpties(r[|r| - 1], size, n, bits);
    r := HandleKernel(r, n, rules);
  }
}
