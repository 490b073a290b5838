/** What orderly callers of `setInactivated` add: interruptions reach inactivated queues only. Callers are
    orderly if they come one at a time, do not raise the flag during a landing, and have signals that
    take effect when sent; HandshakeRace and HandshakeFailures show why each of these is needed. */
module OrderlyCallers {
  import opened World
  import opened WorldSafety
  import opened WorldCompletion
  import Q = QueueProtocol
  import H = Handshake

  ghost predicate Orderly(s: H.Agent, a: H.AgentAction) {
    && (s.pending ==> a.Jump?)
    && (a.Call? ==> forall c :: 0 <= c < |s.callers| ==> s.callers[c].Away?)
    && (a.Raise? ==> !H.Landing(s.worker))
  }

  /** The worker does nothing else while a signal is on its way. */
  ghost predicate OrderlyAction(w: World, a: Action) {
    && (a.AgentDo? ==> Orderly(w.agent, a.act))
    && (a.Work? ==> !w.agent.pending)
  }

  ghost predicate OrderlyStep(w: World, w': World) {
    WellFormed(w) && exists a :: Enabled(w, a) && OrderlyAction(w, a) && w' == Next(w, a)
  }

  ghost predicate OrderlyStepAt(tr: seq<World>, t: nat)
    requires 0 < t < |tr|
  {
    tr[t] == tr[t - 1] || OrderlyStep(tr[t - 1], tr[t])
  }

  ghost predicate OrderlyRun(tr: seq<World>) {
    && 0 < |tr| && Init(tr[0])
    && forall t :: 0 < t < |tr| ==> OrderlyStepAt(tr, t)
  }

  lemma OrderlyRunIsRun(tr: seq<World>)
    requires OrderlyRun(tr)
    ensures Run(tr)
  {
    forall t | 0 < t < |tr| ensures StepAt(tr, t) {
      assert OrderlyStepAt(tr, t);
    }
  }

  ghost predicate OrderlyInv(s: H.Agent) {
    && H.FinalInv(s)
    && (forall c, d :: 0 <= c < |s.callers| && 0 <= d < |s.callers| && c != d ==> s.callers[c].Away? || s.callers[d].Away?)
    && (forall c :: 0 <= c < |s.callers| && (s.callers[c].Comparing? || s.callers[c].Killing?) ==>
          && s.interrupting && !H.Landing(s.worker) && !s.pending
          && (s.callers[c].Killing? && (s.worker.Testing? || s.worker.AtDoorbell? || s.worker.InPass?) ==>
                s.worker.k == s.callers[c].q))
    && (s.pending ==>
          && (forall c :: 0 <= c < |s.callers| ==> s.callers[c].Away? || s.callers[c].Waiting?)
          && (s.worker.InPass? ==> s.worker.k in s.inactivated))
  }

  lemma CallerKeepsOrderly(s: H.Agent, a: H.AgentAction)
    requires OrderlyInv(s) && H.Enabled(s, a) && Orderly(s, a) && a.IsCaller()
    ensures OrderlyInv(H.CallerNext(s, a))
  {
    H.CallerKeepsFinal(s, a);
  }

  lemma WorkerKeepsOrderly(s: H.Agent, a: H.AgentAction)
    requires OrderlyInv(s) && H.Enabled(s, a) && Orderly(s, a) && !a.IsCaller()
    ensures OrderlyInv(H.WorkerNext(s, a))
  {
    H.WorkerKeepsFinal(s, a);
  }

  lemma StepKeepsOrderly(s: H.Agent, a: H.AgentAction)
    requires OrderlyInv(s) && H.Enabled(s, a) && Orderly(s, a)
    ensures OrderlyInv(H.Next(s, a))
  {
    if a.IsCaller() {
      CallerKeepsOrderly(s, a);
    } else {
      WorkerKeepsOrderly(s, a);
    }
  }

  /** Only inactivated queues that the worker is not inside are ever cut. */
  ghost predicate CutsOk(w: World) {
    forall k :: 0 <= k < |w.queues| && w.queues[k].cut ==> k in w.agent.inactivated && !H.Serves(w.agent.worker, k)
  }

  lemma AgentStepKeepsCuts(w: World, act: H.AgentAction)
    requires LinkInv(w) && OrderlyInv(w.agent) && CutsOk(w) && Enabled(w, AgentDo(act))
    ensures CutsOk(Next(w, AgentDo(act)))
  {
    if !act.TakeQueue? {
      HandshakeFrame(w.agent, act);
    }
  }

  lemma WorkKeepsCuts(w: World, step: Q.Action)
    requires LinkInv(w) && OrderlyInv(w.agent) && CutsOk(w) && Enabled(w, Work(step)) && !w.agent.pending
    ensures CutsOk(WorkNext(w, step)) && OrderlyInv(WorkNext(w, step).agent)
  {
    var k := w.agent.worker.k;
    var act := H.Progress(Q.Next(w.queues[k], step).pc.AtKernel?);
    StepKeepsOrderly(w.agent, act);
    assert WorkNext(w, step).agent == H.Next(w.agent, act);
    NoCut(w.queues[k], step);
  }

  lemma StepKeepsCuts(w: World, w': World)
    requires LinkInv(w) && OrderlyInv(w.agent) && CutsOk(w) && OrderlyStep(w, w')
    ensures OrderlyInv(w'.agent) && CutsOk(w')
  {
    var a :| Enabled(w, a) && OrderlyAction(w, a) && w' == Next(w, a);
    match a
    case Produce(k, step) => NoCut(w.queues[k], step);
    case Store(_, _) =>
    case AgentDo(act) =>
      StepKeepsOrderly(w.agent, act);
      AgentStepKeepsCuts(w, act);
    case JumpInside => StepKeepsOrderly(w.agent, H.Jump);
    case Work(step) => WorkKeepsCuts(w, step);
  }

  lemma {:induction false} RunCuts(tr: seq<World>, t: nat)
    requires OrderlyRun(tr) && t < |tr|
    ensures OrderlyInv(tr[t].agent) && CutsOk(tr[t])
  {
    if t == 0 {
      assert forall k :: 0 <= k < |tr[0].queues| ==> Q.Init(tr[0].queues[k]);
    } else {
      RunCuts(tr, t - 1);
      OrderlyRunIsRun(tr);
      RunLink(tr, t - 1);
      OrderlyStepKeepsCuts(tr, t);
    }
  }

  lemma OrderlyStepKeepsCuts(tr: seq<World>, t: nat)
    requires OrderlyRun(tr) && 0 < t < |tr|
    requires LinkInv(tr[t - 1]) && OrderlyInv(tr[t - 1].agent) && CutsOk(tr[t - 1])
    ensures OrderlyInv(tr[t].agent) && CutsOk(tr[t])
  {
    assert OrderlyStepAt(tr, t);
    if tr[t] != tr[t - 1] {
      StepKeepsCuts(tr[t - 1], tr[t]);
    }
  }

  /** With orderly callers a jump that interrupts a pass interrupts an inactivated queue, so a queue that
      is not inactivated never loses a pass, and the worker never comes back to a queue that was cut. */
  lemma {:induction false} JumpHitsInactivatedQueue(tr: seq<World>, t: nat)
    requires OrderlyRun(tr) && t < |tr|
    ensures tr[t].agent.pending && tr[t].agent.worker.InPass? ==> tr[t].agent.worker.k in tr[t].agent.inactivated
    ensures forall k :: 0 <= k < |tr[t].queues| && k !in tr[t].agent.inactivated ==> !tr[t].queues[k].cut
    ensures forall k :: 0 <= k < |tr[t].queues| && H.Serves(tr[t].agent.worker, k) ==> !tr[t].queues[k].cut
  {
    RunCuts(tr, t);
  }

  /** With orderly callers a worker that found a changed doorbell can always begin its pass. */
  lemma {:induction false} PassNeverRefused(tr: seq<World>, t: nat, k: nat)
    requires OrderlyRun(tr) && t < |tr| && k < |tr[t].queues|
    requires tr[t].agent.worker == H.AtDoorbell(k) && Q.DoorbellChanged(tr[t].queues[k])
    ensures WellFormed(tr[t]) && Enabled(tr[t], AgentDo(H.TakeQueue))
  {
    OrderlyRunIsRun(tr);
    RunCuts(tr, t);
    PassRefusedExactly(tr, t, k);
  }

  /** What the whole agent keeps for queues that were not cut, it keeps for all active queues then. */
  lemma {:induction false} ActiveQueueLosesNothing(tr: seq<World>, t: nat, k: nat, id: nat)
    requires OrderlyRun(tr) && t < |tr| && k < |tr[0].queues| && k < |tr[t].queues|
    requires k !in tr[t].agent.inactivated && tr[t].agent.worker != H.InPass(k, true) && tr[t].agent.worker != H.InPass(k, false)
    requires id in tr[t].queues[k].published
    ensures id in tr[t].queues[k].rung && tr[t].queues[k].doorbell == tr[t].queues[k].lastHandled ==>
              id in tr[t].queues[k].retired || (tr[t].queues[k].stop.Some? && tr[t].queues[k].stop.value <= id)
    ensures var h := tr[t].queues[k].published[id].completion;
            h != 0 && h in tr[t].signals ==> (tr[t].signals[h] == 0 <==> id in tr[t].queues[k].retired)
  {
    OrderlyRunIsRun(tr);
    RunCuts(tr, t);
    RunLink(tr, t);
    if id in tr[t].queues[k].rung && tr[t].queues[k].doorbell == tr[t].queues[k].lastHandled {
      UncutQueueLosesNothing(tr, t, k, id);
    }
    CompletionIsExact(tr, t, k, id);
  }
}
