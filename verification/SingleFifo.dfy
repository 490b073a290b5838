/** A SINGLE queue whose one producer publishes in index order is a FIFO. */
module SingleFifo {
  import opened Modular
  import opened Packets
  import opened QueueProtocol
  import opened QueueInvariant
  import opened QueueProgress
  import opened QueueOrder

  ghost predicate SingleRun(tr: seq<Queue>) {
    Run(tr) && tr[0].kind == Single && forall t :: 0 <= t < |tr| ==> InOrder(tr[t])
  }

  ghost predicate Ascending(retired: seq<nat>) {
    forall k :: 0 <= k < |retired| ==> retired[k] == k
  }

  ghost predicate FifoOk(q: Queue) {
    && q.kind == Single
    && Ascending(q.retired)
    && (!q.cut ==> q.readIndex == if q.pc.AtAdvance? then |q.retired| - 1 else |q.retired|)
    && (q.pc.Scanning() ==> q.readIndex == if q.pc.AtComplete? then q.pc.i + 1 else q.pc.i)
    && (forall s :: 0 <= s < |q.processed| ==> !q.processed[s])
  }

  /** In order, every index up to the doorbell is published, so the scan finds no INVALID slot. */
  lemma ScanFindsPacket(q: Queue)
    requires OrderInv(q) && FifoOk(q) && InOrder(q) && q.pc.AtScan? && !ScanDone(q.pc) && !q.cut
    ensures q.slots[Mod(q.pc.i, q.size)] == Holds(q.pc.i, q.published[q.pc.i])
  {
    assert q.pc.i in q.published by {
      assert q.lastHandled in q.published;
    }
    assert q.pc.i !in q.retired;
    UnretiredInWindow(q, q.pc.i);
  }

  lemma VisitKeepsFifo(q: Queue, f: bool, g: bool)
    requires OrderInv(q) && FifoOk(q) && InOrder(q) && q.pc.AtScan? && !q.cut
    ensures FifoOk(VisitSlot(q, f, g))
  {
    if !ScanDone(q.pc) {
      ScanFindsPacket(q);
      var p := q.published[q.pc.i];
      TakeKeepsFifo(q, q.pc.i, p, OutcomeOf(p, f, g));
    }
  }

  lemma ClearKeepsFifo(q: Queue)
    requires OrderInv(q) && FifoOk(q) && q.pc.AtClear?
    ensures FifoOk(Next(q, Clear))
  {
    assert q.pc.id == q.pc.i == |q.retired|;
  }

  lemma StepKeepsFifo(q: Queue, a: Action)
    requires OrderInv(q) && FifoOk(q) && InOrder(q) && Enabled(q, a)
    ensures FifoOk(Next(q, a))
  {
    match a
    case Visit(f, g) => VisitKeepsFifo(q, f, g);
    case Advance => AdvanceKeepsFifo(q);
    case Clear => ClearKeepsFifo(q);
    case _ => QuietKeepsFifo(q, a);
  }

  lemma QuietKeepsFifo(q: Queue, a: Action)
    requires WellFormed(q) && PcOk(q) && FifoOk(q) && Enabled(q, a)
    requires !a.Visit? && !a.Advance? && !a.Clear?
    requires q.cut ==> q.pc.Idle?
    ensures FifoOk(Next(q, a))
  {
  }

  lemma TakeKeepsFifo(q: Queue, id: nat, packet: Packet, outcome: Outcome)
    requires FifoOk(q) && q.pc.AtScan?
    ensures FifoOk(TakePacket(q, id, packet, outcome))
  {
  }

  lemma AdvanceKeepsFifo(q: Queue)
    requires OrderInv(q) && FifoOk(q) && q.pc.AtAdvance?
    ensures FifoOk(AdvanceRead(q))
  {
    var q' := AdvanceRead(q);
    forall s | 0 <= s < |q'.processed| ensures !q'.processed[s] {
      assert !IsPacketProcessed(q'.processed, s);
    }
  }

  lemma StepFifo(q: Queue, q': Queue)
    requires OrderInv(q) && FifoOk(q) && InOrder(q) && Step(q, q')
    ensures OrderInv(q') && FifoOk(q')
  {
    var a :| Enabled(q, a) && q' == Next(q, a);
    StepKeepsFifo(q, a);
    StepKeepsOrder(q, a);
  }

  lemma InitFifo(q: Queue)
    requires Init(q) && q.kind == Single
    ensures OrderInv(q) && FifoOk(q)
  {
    InitOrder(q);
  }

  ghost predicate FifoInv(q: Queue) {
    q.kind == Single ==> OrderInv(q) && FifoOk(q)
  }

  lemma RunFifo(tr: seq<Queue>, t: nat)
    requires SingleRun(tr) && t < |tr|
    ensures OrderInv(tr[t]) && FifoOk(tr[t])
  {
    forall q | Init(q) ensures FifoInv(q) {
      if q.kind == Single {
        InitFifo(q);
      }
    }
    forall q: Queue, q': Queue | FifoInv(q) && InOrder(q) && q'.kind == q.kind && Step(q, q') ensures FifoInv(q') {
      if q.kind == Single {
        StepFifo(q, q');
      }
    }
    forall u | 0 <= u < |tr| ensures tr[u].kind == Single {
      Monotone(tr, 0, u);
    }
    RunInduction(tr, q => InOrder(q) && q.kind == Single, q => FifoInv(q), t);
  }

  /** The retirement log is 0, 1, 2, ..., the read index follows the scan index, and no processed
      bit is ever set. */
  lemma {:induction false} SingleQueueIsFifo(tr: seq<Queue>, t: nat)
    requires SingleRun(tr) && t < |tr|
    ensures forall k :: 0 <= k < |tr[t].retired| ==> tr[t].retired[k] == k
    ensures tr[t].pc.AtScan? || tr[t].pc.Holding() ==> tr[t].readIndex == tr[t].pc.i
    ensures tr[t].pc.Idle? && !tr[t].cut ==> tr[t].readIndex == |tr[t].retired|
    ensures forall s :: 0 <= s < |tr[t].processed| ==> !tr[t].processed[s]
  {
    RunFifo(tr, t);
  }

  // Refinement of an abstract queue of packets.

  lemma Maximum(s: set<nat>) returns (m: nat)
    requires s != {}
    ensures m in s && forall x :: x in s ==> x <= m
  {
    var y :| y in s;
    if s == {y} {
      m := y;
    } else {
      var rest := s - {y};
      assert s == rest + {y};
      m := Maximum(rest);
      if m < y {
        m := y;
      }
    }
  }

  /** A downward closed set of n naturals is {0, ..., n - 1}. */
  lemma {:induction false} Prefix(s: set<nat>)
    requires forall i: nat, j :: j in s && i < j ==> i in s
    ensures forall x: nat :: x in s <==> x < |s|
  {
    if s != {} {
      var m := Maximum(s);
      var rest := s - {m};
      Prefix(rest);
      assert s == rest + {m};
      assert m == |rest| by {
        if |rest| < m {
          assert |rest| in s;
        }
      }
    }
  }

  /** The packets published and not yet retired, oldest first. */
  ghost function Pending(q: Queue): (p: seq<Packet>)
    requires InOrder(q) && |q.retired| <= |q.published|
  {
    Prefix(q.published.Keys);
    seq(|q.published| - |q.retired|, k requires 0 <= k < |q.published| - |q.retired| => q.published[|q.retired| + k])
  }

  lemma RetiredWithinPublished(q: Queue)
    requires Inv(q) && FifoOk(q) && InOrder(q)
    ensures |q.retired| <= |q.published|
  {
    Prefix(q.published.Keys);
    if |q.retired| > 0 {
      assert q.retired[|q.retired| - 1] in q.published;
    }
  }

  lemma PublishRefines(q: Queue, q': Queue, id: nat, p: Packet)
    requires InOrder(q) && InOrder(q') && |q.retired| <= |q.published|
    requires id !in q.published && q'.published == q.published[id := p] && q'.retired == q.retired
    ensures |q'.retired| <= |q'.published| && Pending(q') == Pending(q) + [p]
  {
    NextIsPublished(q, q', id, p);
    Prefix(q.published.Keys);
    Prefix(q'.published.Keys);
  }

  lemma NextIsPublished(q: Queue, q': Queue, id: nat, p: Packet)
    requires InOrder(q) && InOrder(q') && id !in q.published && q'.published == q.published[id := p]
    ensures |q'.published| == |q.published| + 1 && id == |q.published|
  {
    Prefix(q.published.Keys);
    Prefix(q'.published.Keys);
    assert q'.published.Keys == q.published.Keys + {id};
    assert |q'.published.Keys| == |q.published.Keys| + 1;
  }

  lemma ClearRefines(q: Queue, q': Queue)
    requires InOrder(q) && InOrder(q') && |q.retired| < |q.published|
    requires q'.published == q.published && |q'.retired| == |q.retired| + 1
    ensures |q.retired| in q.published && Pending(q) == [q.published[|q.retired|]] + Pending(q')
  {
    Prefix(q.published.Keys);
  }

  lemma QuietPending(q: Queue, a: Action)
    requires WellFormed(q) && Enabled(q, a) && !a.Publish? && !a.Clear?
    ensures Next(q, a).published == q.published && Next(q, a).retired == q.retired
  {
  }

  /** Refinement: publishing enqueues at the back, retiring dequeues the front, and every other
      step of producer or worker leaves the abstract queue alone. */
  lemma {:induction false} StepRefinesFifo(q: Queue, a: Action)
    requires OrderInv(q) && FifoOk(q) && InOrder(q) && Enabled(q, a) && InOrder(Next(q, a))
    ensures |q.retired| <= |q.published| && |Next(q, a).retired| <= |Next(q, a).published|
    ensures a.Publish? ==> Pending(Next(q, a)) == Pending(q) + [a.packet]
    ensures a.Clear? ==> Pending(q) == [q.pc.packet] + Pending(Next(q, a))
    ensures !a.Publish? && !a.Clear? ==> Pending(Next(q, a)) == Pending(q)
  {
    var q' := Next(q, a);
    RetiredWithinPublished(q);
    if a.Publish? {
      PublishRefines(q, q', a.id, a.packet);
    } else if a.Clear? {
      ClearTakesFront(q, a);
      ClearRefines(q, q');
    } else {
      QuietPending(q, a);
    }
  }

  /** Only the oldest pending packet is cleared. */
  lemma ClearTakesFront(q: Queue, a: Action)
    requires OrderInv(q) && FifoOk(q) && InOrder(q) && Enabled(q, a) && a.Clear?
    ensures |q.retired| < |q.published| && |q.retired| in q.published
    ensures q.published[|q.retired|] == q.pc.packet
    ensures Next(q, a).published == q.published && |Next(q, a).retired| == |q.retired| + 1
  {
    Prefix(q.published.Keys);
    assert q.pc.id == |q.retired| && q.published[q.pc.id] == q.pc.packet;
  }
}
