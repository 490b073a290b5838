/** Safety of the whole agent, whatever the callers of `setInactivated` do. */
module WorldSafety {
  import opened Packets
  import opened World
  import Q = QueueProtocol
  import I = QueueInvariant
  import P = QueueProgress
  import R = QueueReports
  import H = Handshake

  /** The worker's position and the queues agree, and the worker is outside a queue that was cut. */
  ghost predicate LinkInv(w: World) {
    && WellFormed(w) && H.FinalInv(w.agent)
    && (forall k :: 0 <= k < |w.queues| ==> I.Inv(w.queues[k]))
    && (forall k :: 0 <= k < |w.queues| && !w.queues[k].pc.Idle? ==> w.agent.worker.InPass? && w.agent.worker.k == k)
    && (w.agent.worker.InPass? && w.agent.worker.k < |w.queues| ==>
          w.agent.worker.executing == w.queues[w.agent.worker.k].pc.AtKernel?)
    && (forall k :: 0 <= k < |w.queues| && w.queues[k].cut ==>
          !(w.agent.worker.InPass? && w.agent.worker.k == k))
  }

  lemma TakeKeepsLink(w: World)
    requires LinkInv(w) && Enabled(w, AgentDo(H.TakeQueue))
    ensures LinkInv(Next(w, AgentDo(H.TakeQueue)))
  {
    var k, w' := w.agent.worker.k, Next(w, AgentDo(H.TakeQueue));
    I.StepKeepsInv(w.queues[k], Q.Begin);
    forall j | 0 <= j < |w'.queues| ensures I.Inv(w'.queues[j]) {
      assert j != k ==> w'.queues[j] == w.queues[j];
    }
  }

  /** The two ways in which a jump leaves a pass. */
  lemma CutKeepsLink(w: World, a: Action)
    requires LinkInv(w) && Enabled(w, a) && (a.JumpInside? || (a == AgentDo(H.Jump) && JumpCuts(w)))
    ensures LinkInv(Next(w, a))
  {
    var k, w' := w.agent.worker.k, Next(w, a);
    H.StepKeepsFinal(w.agent, H.Jump);
    I.StepKeepsInv(w.queues[k], if a.JumpInside? then Q.CutInside else Q.Cut);
    forall j | 0 <= j < |w'.queues| ensures I.Inv(w'.queues[j]) {
      assert j != k ==> w'.queues[j] == w.queues[j];
    }
  }

  lemma AgentKeepsLink(w: World, act: H.AgentAction)
    requires LinkInv(w) && Enabled(w, AgentDo(act))
    ensures LinkInv(Next(w, AgentDo(act)))
  {
    H.StepKeepsFinal(w.agent, act);
    if act.TakeQueue? {
      TakeKeepsLink(w);
    } else if act.Jump? && JumpCuts(w) {
      CutKeepsLink(w, AgentDo(act));
    } else {
      HandshakeFrame(w.agent, act);
      var w' := Next(w, AgentDo(act));
      assert w'.queues == w.queues;
    }
  }

  /** How the worker's hold on a queue can change. */
  lemma HandshakeFrame(s: H.Agent, act: H.AgentAction)
    requires H.Enabled(s, act) && !act.TakeQueue? && !act.Progress?
    ensures var s' := H.Next(s, act);
            && s'.queues == s.queues && s.inactivated <= s'.inactivated
            && (s'.worker == s.worker || !s'.worker.InPass?)
            && (act.EndPass? || act.Jump? || !s.worker.InPass? || s'.worker == s.worker)
            && forall k :: k in s.inactivated && !H.Serves(s.worker, k) ==> !H.Serves(s'.worker, k)
  {
  }

  lemma WorkKeepsLink(w: World, step: Q.Action)
    requires LinkInv(w) && Enabled(w, Work(step))
    ensures LinkInv(WorkNext(w, step))
  {
    var k, w' := w.agent.worker.k, WorkNext(w, step);
    WorkKeepsFinal(w, step);
    I.StepKeepsInv(w.queues[k], step);
    NoCut(w.queues[k], step);
    assert w'.queues == w.queues[k := w'.queues[k]];
  }

  lemma WorkKeepsFinal(w: World, step: Q.Action)
    requires WellFormed(w) && H.FinalInv(w.agent) && Enabled(w, Work(step))
    ensures H.FinalInv(WorkNext(w, step).agent)
  {
    var act := H.Progress(Q.Next(w.queues[w.agent.worker.k], step).pc.AtKernel?);
    H.StepKeepsFinal(w.agent, act);
    assert WorkNext(w, step).agent == H.Next(w.agent, act);
  }

  lemma NoCut(q: Q.Queue, step: Q.Action)
    requires Q.WellFormed(q) && Q.Enabled(q, step) && !step.IsCut()
    ensures Q.Next(q, step).cut == q.cut
    ensures step.IsProducer() ==> Q.Next(q, step).pc == q.pc
  {
  }

  lemma ProduceKeepsLink(w: World, k: nat, step: Q.Action)
    requires LinkInv(w) && Enabled(w, Produce(k, step))
    ensures LinkInv(Next(w, Produce(k, step)))
  {
    var w' := Next(w, Produce(k, step));
    I.StepKeepsInv(w.queues[k], step);
    NoCut(w.queues[k], step);
    forall j | 0 <= j < |w'.queues| ensures I.Inv(w'.queues[j]) {
      assert j != k ==> w'.queues[j] == w.queues[j];
    }
  }

  lemma StepKeepsLink(w: World, w': World)
    requires LinkInv(w) && Step(w, w')
    ensures LinkInv(w')
  {
    var a :| Enabled(w, a) && w' == Next(w, a);
    match a
    case Produce(k, step) => ProduceKeepsLink(w, k, step);
    case Store(_, _) =>
    case AgentDo(act) => AgentKeepsLink(w, act);
    case JumpInside => CutKeepsLink(w, a);
    case Work(step) => WorkKeepsLink(w, step);
  }

  lemma InitLink(w: World)
    requires Init(w)
    ensures LinkInv(w)
  {
    forall k | 0 <= k < |w.queues| ensures I.Inv(w.queues[k]) {
      I.InitInv(w.queues[k]);
    }
  }

  lemma RunLink(tr: seq<World>, t: nat)
    requires Run(tr) && t < |tr|
    ensures LinkInv(tr[t])
  {
    forall w | Init(w) ensures LinkInv(w) {
      InitLink(w);
    }
    forall w, w' | LinkInv(w) && Step(w, w') ensures LinkInv(w') {
      StepKeepsLink(w, w');
    }
    RunInduction(tr, w => LinkInv(w), t);
  }

  /** A worker at a doorbell passes the queue over exactly if the doorbell is at its initial or its last handled
      value; otherwise it begins a pass, exactly if no pass over the queue was cut before. */
  lemma {:induction false} PassRefusedExactly(tr: seq<World>, t: nat, k: nat)
    requires Run(tr) && t < |tr| && k < |tr[t].queues| && tr[t].agent.worker == H.AtDoorbell(k)
    ensures var q := tr[t].queues[k];
            var sameBell := q.doorbell == 0x7fff_ffff_ffff_ffff || q.doorbell == q.lastHandled;
            && WellFormed(tr[t])
            && (Enabled(tr[t], AgentDo(H.SkipQueue)) <==> sameBell)
            && (Enabled(tr[t], AgentDo(H.TakeQueue)) <==> !sameBell && !q.cut)
  {
    RunLink(tr, t);
  }

  /** No lost packet, for the whole agent and any callers: on a queue no pass of which was cut, between
      passes and with no ring outstanding, every rung index is retired or waits behind a barrier that
      the last pass met. */
  lemma {:induction false} UncutQueueLosesNothing(tr: seq<World>, t: nat, k: nat, id: nat)
    requires Run(tr) && t < |tr| && k < |tr[0].queues| && k < |tr[t].queues|
    requires !tr[t].queues[k].cut && tr[t].agent.worker != H.InPass(k, true) && tr[t].agent.worker != H.InPass(k, false)
    requires tr[t].queues[k].doorbell == tr[t].queues[k].lastHandled
    requires id in tr[t].queues[k].rung
    ensures id in tr[t].queues[k].retired || (tr[t].queues[k].stop.Some? && tr[t].queues[k].stop.value <= id)
  {
    ProjectionIsRun(tr, k);
    RunLink(tr, t);
    P.NoLostPacket(Projection(tr, k), t, id);
  }

  /** The worker executes, as the handshake sees it, exactly while it is inside the kernel of a packet of the
      queue it serves, and then that packet's report, the last one, is that it was launched. */
  lemma {:induction false} ExecutesLaunchedKernels(tr: seq<World>, t: nat, k: nat)
    requires Run(tr) && t < |tr| && k < |tr[0].queues| && k < |tr[t].queues|
    requires tr[t].agent.worker.InPass? && tr[t].agent.worker.k == k
    ensures tr[t].agent.worker.executing <==> tr[t].queues[k].pc.AtKernel?
    ensures tr[t].agent.worker.executing ==>
              var q := tr[t].queues[k];
              && 0 < |q.reports| && q.reports[|q.reports| - 1] == Q.Report(q.pc.i, q.pc.id, Launched)
              && q.pc.id in q.published && q.published[q.pc.id] == q.pc.packet && q.pc.id !in q.ran
  {
    RunLink(tr, t);
    ProjectionIsRun(tr, k);
    R.RunKernels(Projection(tr, k), t);
    R.KernelsRunExactly(Projection(tr, k), t);
  }
}
