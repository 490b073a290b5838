/** Dependency order across queues, despite one-at-a-time reads of the dependency signals. */
module WorldOrder {
  import opened Packets
  import opened World
  import opened WorldSafety
  import Q = QueueProtocol
  import I = QueueInvariant
  import H = Handshake

  /** The packet whose completion signal is h, if there is one, is in the log. */
  ghost predicate Settled(owner: map<Handle, (nat, nat)>, log: seq<(nat, nat)>, h: Handle) {
    h in owner ==> owner[h] in log
  }

  ghost predicate AllSettled(owner: map<Handle, (nat, nat)>, log: seq<(nat, nat)>, deps: DepList, n: nat) {
    forall j :: 0 <= j < n && j < 5 && deps[j] != 0 ==> Settled(owner, log, deps[j])
  }

  ghost predicate OneSettled(owner: map<Handle, (nat, nat)>, log: seq<(nat, nat)>, deps: DepList) {
    exists j :: 0 <= j < 5 && deps[j] != 0 && Settled(owner, log, deps[j])
  }

  /** The dependencies of a packet are settled by a log. */
  ghost predicate Satisfied(owner: map<Handle, (nat, nat)>, log: seq<(nat, nat)>, p: Packet) {
    && (p.BarrierAnd? ==> AllSettled(owner, log, p.deps, 5))
    && (p.BarrierOr? ==> OneSettled(owner, log, p.deps))
  }

  /** A completion signal is cleared only after its packet entered the log. */
  ghost predicate SignalsOk(w: World) {
    forall h :: h in w.owner && h in w.signals && w.signals[h] == 0 ==> w.owner[h] in w.log
  }

  ghost predicate OwnersOk(w: World) {
    forall k, id :: 0 <= k < |w.queues| && id in w.queues[k].published && w.queues[k].published[id].completion != 0 ==>
      && w.queues[k].published[id].completion in w.owner
      && w.owner[w.queues[k].published[id].completion] == (k, id)
  }

  /** What the worker knows about the dependencies of the packet it is busy with. */
  ghost predicate PassOk(w: World, q: Q.Queue) {
    && (q.pc.AtDeps? && q.pc.packet.BarrierAnd? ==> AllSettled(w.owner, w.log, q.pc.packet.deps, q.pc.dep))
    && (q.pc.AtClear? ==> Satisfied(w.owner, w.log, q.pc.packet))
    && (q.pc.AtKernel? ==> q.pc.packet.KernelDispatch?)
  }

  ghost predicate PassesOk(w: World) {
    forall k :: 0 <= k < |w.queues| ==> PassOk(w, w.queues[k])
  }

  /** The log lists exactly the retired packets. */
  ghost predicate LogOk(w: World) {
    && (forall n :: 0 <= n < |w.log| ==>
          w.log[n].0 < |w.queues| && w.log[n].1 in w.queues[w.log[n].0].retired && w.log[n].1 in w.queues[w.log[n].0].published)
    && (forall k, id :: 0 <= k < |w.queues| && id in w.queues[k].retired ==> (k, id) in w.log)
  }

  /** Every logged packet had its dependencies settled by the log before it. */
  ghost predicate OrderOk(w: World)
    requires LogOk(w)
  {
    forall n :: 0 <= n < |w.log| ==>
      Satisfied(w.owner, w.log[..n], w.queues[w.log[n].0].published[w.log[n].1])
  }

  ghost predicate DepsOk(w: World) {
    SignalsOk(w) && OwnersOk(w) && PassesOk(w) && LogOk(w) && OrderOk(w)
  }

  ghost predicate DepInv(w: World) {
    LinkInv(w) && DepsOk(w)
  }

  /** The queue part of a step that neither retires nor moves the worker past a dependency. */
  ghost predicate Neutral(w: World, q: Q.Queue, q': Q.Queue) {
    && q'.retired == q.retired && q'.published == q.published
    && (q'.pc == q.pc || PassOk(w, q'))
  }

  /** Steps that change one queue neutrally. */
  lemma NeutralKeepsDep(w: World, w': World, k: nat)
    requires DepsOk(w)
    requires k < |w.queues| && |w'.queues| == |w.queues| && Neutral(w, w.queues[k], w'.queues[k])
    requires forall j :: 0 <= j < |w.queues| && j != k ==> w'.queues[j] == w.queues[j]
    requires w'.owner == w.owner && w'.log == w.log && SignalsOk(w')
    ensures DepsOk(w')
  {
    forall j | 0 <= j < |w'.queues| ensures PassOk(w', w'.queues[j]) {
      assert PassOk(w, w.queues[j]);
    }
  }

  lemma SameQueuesKeepDep(w: World, w': World)
    requires DepsOk(w)
    requires w'.queues == w.queues && w'.owner == w.owner && w'.log == w.log && SignalsOk(w')
    ensures DepsOk(w')
  {
    forall j | 0 <= j < |w'.queues| ensures PassOk(w', w'.queues[j]) {
      assert PassOk(w, w.queues[j]);
    }
  }

  /** w' is w with one more published packet. */
  ghost predicate Publishes(w: World, w': World, k: nat, id: nat, p: Packet) {
    && k < |w.queues| && |w'.queues| == |w.queues|
    && w'.owner == w.owner && w'.signals == w.signals && w'.log == w.log
    && (forall j :: 0 <= j < |w.queues| && j != k ==> w'.queues[j] == w.queues[j])
    && w'.queues[k].published == w.queues[k].published[id := p] && id !in w.queues[k].published
    && w'.queues[k].retired == w.queues[k].retired && w'.queues[k].pc == w.queues[k].pc
  }

  lemma PublishKeepsPasses(w: World, w': World, k: nat, id: nat, p: Packet)
    requires PassesOk(w) && Publishes(w, w', k, id, p)
    ensures PassesOk(w')
  {
    forall j | 0 <= j < |w'.queues| ensures PassOk(w', w'.queues[j]) {
      assert PassOk(w, w.queues[j]);
    }
  }

  lemma PublishKeepsOrder(w: World, w': World, k: nat, id: nat, p: Packet)
    requires LogOk(w) && OrderOk(w) && Publishes(w, w', k, id, p)
    ensures LogOk(w') && OrderOk(w')
  {
    forall n | 0 <= n < |w'.log|
      ensures Satisfied(w'.owner, w'.log[..n], w'.queues[w'.log[n].0].published[w'.log[n].1])
    {
      assert w.log[n].0 == k ==> w.log[n].1 != id;
    }
  }

  lemma PublishKeepsDep(w: World, k: nat, step: Q.Action)
    requires DepsOk(w) && WellFormed(w) && Enabled(w, Produce(k, step)) && step.Publish?
    ensures DepsOk(Next(w, Produce(k, step)))
  {
    var w' := Next(w, Produce(k, step));
    assert Publishes(w, w', k, step.id, step.packet);
    PublishKeepsPasses(w, w', k, step.id, step.packet);
    PublishKeepsOrder(w, w', k, step.id, step.packet);
    assert SignalsOk(w');
    assert OwnersOk(w');
  }

  /** w' is w with one more retired packet. */
  ghost predicate Retires(w: World, w': World, k: nat, id: nat) {
    && k < |w.queues| && |w'.queues| == |w.queues| && w'.owner == w.owner && w'.signals == w.signals
    && (forall j :: 0 <= j < |w.queues| && j != k ==> w'.queues[j] == w.queues[j])
    && w'.queues[k].published == w.queues[k].published
    && w'.queues[k].retired == w.queues[k].retired + [id]
    && w'.log == w.log + [(k, id)]
    && id in w.queues[k].published
  }

  lemma ClearRetires(w: World)
    requires LinkInv(w) && Enabled(w, Work(Q.Clear))
    ensures var k, w' := w.agent.worker.k, WorkNext(w, Q.Clear);
            && Retires(w, w', k, w.queues[k].pc.id) && w'.queues[k].pc.AtAdvance?
            && w.queues[k].pc.AtClear? && w.queues[k].published[w.queues[k].pc.id] == w.queues[k].pc.packet
            && forall j :: 0 <= j < |w.queues| && j != k ==> w.queues[j].pc.Idle?
  {
    var q := w.queues[w.agent.worker.k];
    assert I.Inv(q);
    assert q.published[q.pc.id] == q.pc.packet;
  }

  lemma RetireKeepsLog(w: World, w': World, k: nat, id: nat)
    requires LogOk(w) && Retires(w, w', k, id)
    ensures LogOk(w')
  {
    forall n | 0 <= n < |w'.log|
      ensures w'.log[n].0 < |w'.queues| && w'.log[n].1 in w'.queues[w'.log[n].0].retired
      ensures w'.log[n].1 in w'.queues[w'.log[n].0].published
    {
      assert n < |w.log| ==> w'.log[n] == w.log[n];
    }
    forall j, i | 0 <= j < |w'.queues| && i in w'.queues[j].retired ensures (j, i) in w'.log {
      if j != k || i in w.queues[k].retired {
        assert (j, i) in w.log;
      } else {
        assert w'.log[|w.log|] == (j, i);
      }
    }
  }

  lemma RetireKeepsOrder(w: World, w': World, k: nat, id: nat)
    requires LogOk(w) && LogOk(w') && OrderOk(w) && Retires(w, w', k, id)
    requires Satisfied(w.owner, w.log, w.queues[k].published[id])
    ensures OrderOk(w')
  {
    forall n | 0 <= n < |w'.log|
      ensures Satisfied(w'.owner, w'.log[..n], w'.queues[w'.log[n].0].published[w'.log[n].1])
    {
      assert w'.log[..n] == w.log[..n];
      if n == |w.log| {
        assert w.log[..n] == w.log;
      } else {
        assert w'.log[n] == w.log[n];
      }
    }
  }

  /** The worker is busy with no packet of a barrier while it records a retirement. */
  lemma RetireKeepsPasses(w: World, w': World, k: nat, id: nat)
    requires Retires(w, w', k, id) && w'.queues[k].pc.AtAdvance?
    requires forall j :: 0 <= j < |w.queues| && j != k ==> w.queues[j].pc.Idle?
    ensures PassesOk(w')
  {
  }

  lemma ClearKeepsDep(w: World)
    requires DepInv(w) && Enabled(w, Work(Q.Clear))
    ensures DepsOk(WorkNext(w, Q.Clear))
  {
    var k, w' := w.agent.worker.k, WorkNext(w, Q.Clear);
    ClearRetires(w);
    assert PassOk(w, w.queues[k]);
    ClearedKeepsDep(w, w', k, w.queues[k].pc.id);
  }

  lemma ClearedKeepsDep(w: World, w': World, k: nat, id: nat)
    requires DepsOk(w) && Retires(w, w', k, id) && w'.queues[k].pc.AtAdvance?
    requires forall j :: 0 <= j < |w.queues| && j != k ==> w.queues[j].pc.Idle?
    requires Satisfied(w.owner, w.log, w.queues[k].published[id])
    ensures DepsOk(w')
  {
    RetireKeepsLog(w, w', k, id);
    RetireKeepsOrder(w, w', k, id);
    RetireKeepsPasses(w, w', k, id);
  }

  lemma ReadDepNeutral(w: World, q: Q.Queue, v: int)
    requires q.pc.AtDeps? && q.pc.packet.IsBarrier() && q.pc.dep <= 5 && PassOk(w, q) && SignalsOk(w)
    requires Q.PendingDep(q) != 0 ==> Q.PendingDep(q) in w.signals && v == w.signals[Q.PendingDep(q)]
    ensures Neutral(w, q, Q.ReadDependency(q, v))
  {
    var q' := Q.ReadDependency(q, v);
    var dep := Q.PendingDep(q);
    if q.pc.dep < 5 && v == 0 && dep != 0 {
      assert Settled(w.owner, w.log, dep);
    }
  }

  lemma VisitNeutral(w: World, q: Q.Queue, f: bool, g: bool)
    requires Q.WellFormed(q) && q.pc.AtScan?
    ensures Neutral(w, q, Q.VisitSlot(q, f, g))
  {
  }

  /** Steps of the pass other than giving back the slot. */
  lemma WorkKeepsDep(w: World, step: Q.Action)
    requires DepInv(w) && Enabled(w, Work(step)) && !step.Clear?
    ensures DepsOk(WorkNext(w, step))
  {
    var k := w.agent.worker.k;
    var q, w' := w.queues[k], WorkNext(w, step);
    assert I.Inv(q) && PassOk(w, q);
    WorkNeutral(w, q, step);
    if step.Complete? {
      var h := q.pc.packet.completion;
      assert h != 0 ==> h in w.owner && w.owner[h] == (k, q.pc.id) && (k, q.pc.id) in w.log;
    }
    NeutralKeepsDep(w, w', k);
  }

  lemma WorkNeutral(w: World, q: Q.Queue, step: Q.Action)
    requires I.Inv(q) && PassOk(w, q) && SignalsOk(w) && Q.Enabled(q, step)
    requires !step.IsProducer() && !step.Clear?
    requires step.ReadDep? && Q.PendingDep(q) != 0 ==>
               Q.PendingDep(q) in w.signals && step.value == w.signals[Q.PendingDep(q)]
    ensures Neutral(w, q, Q.Next(q, step))
  {
    match step
    case ReadDep(v) => ReadDepNeutral(w, q, v);
    case Visit(f, g) => VisitNeutral(w, q, f, g);
    case _ =>
  }

  lemma AgentKeepsDep(w: World, act: H.AgentAction)
    requires DepInv(w) && Enabled(w, AgentDo(act))
    ensures DepsOk(Next(w, AgentDo(act)))
  {
    var w' := Next(w, AgentDo(act));
    if act.TakeQueue? || (act.Jump? && JumpCuts(w)) {
      NeutralKeepsDep(w, w', w.agent.worker.k);
    } else {
      SameQueuesKeepDep(w, w');
    }
  }

  lemma ProduceKeepsDep(w: World, k: nat, step: Q.Action)
    requires DepInv(w) && Enabled(w, Produce(k, step))
    ensures DepsOk(Next(w, Produce(k, step)))
  {
    if step.Publish? {
      PublishKeepsDep(w, k, step);
    } else {
      NeutralKeepsDep(w, Next(w, Produce(k, step)), k);
    }
  }

  lemma ActionKeepsDep(w: World, a: Action)
    requires DepInv(w) && Enabled(w, a)
    ensures DepsOk(Next(w, a))
  {
    match a
    case Produce(k, step) => ProduceKeepsDep(w, k, step);
    case Store(_, _) => SameQueuesKeepDep(w, Next(w, a));
    case AgentDo(act) => AgentKeepsDep(w, act);
    case JumpInside => NeutralKeepsDep(w, Next(w, a), w.agent.worker.k);
    case Work(step) =>
      if step.Clear? {
        ClearKeepsDep(w);
      } else {
        WorkKeepsDep(w, step);
      }
  }

  lemma StepKeepsDep(w: World, w': World)
    requires DepInv(w) && Step(w, w')
    ensures DepInv(w')
  {
    var a :| Enabled(w, a) && w' == Next(w, a);
    ActionKeepsDep(w, a);
    StepKeepsLink(w, w');
  }

  lemma InitDep(w: World)
    requires Init(w)
    ensures DepInv(w)
  {
    InitLink(w);
  }

  lemma RunDep(tr: seq<World>, t: nat)
    requires Run(tr) && t < |tr|
    ensures DepInv(tr[t])
  {
    forall w | Init(w) ensures DepInv(w) {
      InitDep(w);
    }
    forall w, w' | DepInv(w) && Step(w, w') ensures DepInv(w') {
      StepKeepsDep(w, w');
    }
    RunInduction(tr, w => DepInv(w), t);
  }

  /** Dependency order, for any callers of `setInactivated` and jumps at any moment. Let completion signals start nonzero, belong to one packet each, and be
      stored to by nobody else. Then in the retirement log of the whole agent every barrier-AND
      packet comes after all packets whose completion signals it lists, and every barrier-OR packet
      comes after at least one of them, or lists a signal that is no packet's completion signal. */
  lemma {:induction false} DependencyOrder(tr: seq<World>, t: nat, n: nat)
    requires Run(tr) && t < |tr| && n < |tr[t].log|
    ensures var w, k, id := tr[t], tr[t].log[n].0, tr[t].log[n].1;
            && k < |w.queues| && id in w.queues[k].published
            && var p := w.queues[k].published[id];
            && (p.BarrierAnd? ==>
                  forall j :: 0 <= j < 5 && p.deps[j] != 0 && p.deps[j] in w.owner ==> w.owner[p.deps[j]] in w.log[..n])
            && (p.BarrierOr? ==>
                  exists j :: 0 <= j < 5 && p.deps[j] != 0 && (p.deps[j] in w.owner ==> w.owner[p.deps[j]] in w.log[..n]))
  {
    RunDep(tr, t);
    var w := tr[t];
    var p := w.queues[w.log[n].0].published[w.log[n].1];
    assert Satisfied(w.owner, w.log[..n], p);
    if p.BarrierOr? {
      var j :| 0 <= j < 5 && p.deps[j] != 0 && Settled(w.owner, w.log[..n], p.deps[j]);
    }
  }

  /** A barrier-OR packet without any dependency signal is never satisfied, so it is never retired. */
  lemma {:induction false} EmptyBarrierOrBlocksForever(tr: seq<World>, t: nat, k: nat, id: nat)
    requires Run(tr) && t < |tr| && k < |tr[t].queues| && id in tr[t].queues[k].published
    requires tr[t].queues[k].published[id].BarrierOr? && tr[t].queues[k].published[id].deps == [0, 0, 0, 0, 0]
    ensures id !in tr[t].queues[k].retired
  {
    RunDep(tr, t);
    forall n | 0 <= n < |tr[t].log| ensures tr[t].log[n] != (k, id) {
      DependencyOrder(tr, t, n);
    }
  }
}
