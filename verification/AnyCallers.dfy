/** Inactivation is final whatever the worker may do inside a queue that it serves, also when it comes back
    to one whose pass was cut. */
module AnyCallers {
  import opened World
  import opened WorldSafety
  import Q = QueueProtocol
  import H = Handshake

  /** What can happen to queue k in a step: nothing, a producer's action, or, if the worker serves it,
      anything at all, such as what an interrupted instruction leaves behind. */
  ghost predicate QueueMay(w: World, w': World, k: nat)
    requires WellFormed(w) && k < |w.queues| == |w'.queues|
  {
    && (|| w'.queues[k] == w.queues[k]
        || (exists a: Q.Action :: a.IsProducer() && Q.Enabled(w.queues[k], a) && w'.queues[k] == Q.Next(w.queues[k], a))
        || H.Serves(w.agent.worker, k))
    && (w'.queues[k].pc.Idle? || H.Serves(w'.agent.worker, k))
  }

  ghost predicate LooseStep(w: World, w': World) {
    && WellFormed(w) && WellFormed(w') && |w'.queues| == |w.queues|
    && (w'.agent == w.agent || H.Step(w.agent, w'.agent))
    && forall k :: 0 <= k < |w.queues| ==> QueueMay(w, w', k)
  }

  ghost predicate LooseStepAt(tr: seq<World>, t: nat)
    requires 0 < t < |tr|
  {
    LooseStep(tr[t - 1], tr[t])
  }

  ghost predicate LooseRun(tr: seq<World>) {
    && 0 < |tr| && Init(tr[0])
    && forall t :: 0 < t < |tr| ==> LooseStepAt(tr, t)
  }

  /** Every run of the world is one of these. */
  lemma {:induction false} RunIsLoose(tr: seq<World>)
    requires Run(tr)
    ensures LooseRun(tr)
  {
    forall t | 0 < t < |tr| ensures LooseStepAt(tr, t) {
      RunStepsLoosely(tr, t);
    }
  }

  lemma RunStepsLoosely(tr: seq<World>, t: nat)
    requires Run(tr) && 0 < t < |tr|
    ensures LooseStepAt(tr, t)
  {
    RunInside(tr, t - 1);
    RunInside(tr, t);
    StepInsideIsLoose(tr, t);
  }

  lemma StepInsideIsLoose(tr: seq<World>, t: nat)
    requires Run(tr) && 0 < t < |tr| && Inside(tr[t - 1]) && Inside(tr[t])
    ensures LooseStepAt(tr, t)
  {
    var w, w' := tr[t - 1], tr[t];
    assert StepAt(tr, t);
    if w' == w {
      assert LooseStep(w, w');
    } else {
      StepIsLoose(w, w');
    }
  }

  /** The worker is inside a queue only if it serves it. */
  ghost predicate Inside(w: World) {
    WellFormed(w) && forall k :: 0 <= k < |w.queues| ==> w.queues[k].pc.Idle? || H.Serves(w.agent.worker, k)
  }

  lemma RunInside(tr: seq<World>, t: nat)
    requires Run(tr) && t < |tr|
    ensures Inside(tr[t])
  {
    RunLink(tr, t);
  }

  lemma StepIsLoose(w: World, w': World)
    requires Inside(w) && Inside(w') && Step(w, w')
    ensures LooseStep(w, w')
  {
    var a :| Enabled(w, a) && w' == Next(w, a);
    AgentSteps(w, a);
    forall k | 0 <= k < |w.queues| ensures QueueMay(w, w', k) {
      QueueSteps(w, a, k);
    }
  }

  lemma AgentSteps(w: World, a: Action)
    requires WellFormed(w) && Enabled(w, a)
    ensures |Next(w, a).queues| == |w.queues|
    ensures Next(w, a).agent == w.agent || H.Step(w.agent, Next(w, a).agent)
  {
    var w' := Next(w, a);
    match a
    case AgentDo(act) => assert w'.agent == H.Next(w.agent, act);
    case JumpInside => assert w'.agent == H.Next(w.agent, H.Jump);
    case Work(step) =>
      var act := H.Progress(w'.queues[w.agent.worker.k].pc.AtKernel?);
      assert H.Enabled(w.agent, act) && w'.agent == H.Next(w.agent, act);
    case _ =>
  }

  lemma QueueSteps(w: World, a: Action, k: nat)
    requires WellFormed(w) && Enabled(w, a) && k < |w.queues| && |Next(w, a).queues| == |w.queues|
    ensures var q, q' := w.queues[k], Next(w, a).queues[k];
            || q' == q
            || (exists step: Q.Action :: step.IsProducer() && Q.Enabled(q, step) && q' == Q.Next(q, step))
            || H.Serves(w.agent.worker, k)
  {
    if a.Produce? && a.k == k {
      assert Next(w, a).queues[k] == Q.Next(w.queues[k], a.step);
    }
  }

  ghost function Agents(tr: seq<World>): (s: seq<H.Agent>)
    ensures |s| == |tr| && forall t :: 0 <= t < |tr| ==> s[t] == tr[t].agent
  {
    seq(|tr|, t requires 0 <= t < |tr| => tr[t].agent)
  }

  lemma AgentsRun(tr: seq<World>)
    requires LooseRun(tr)
    ensures H.Run(Agents(tr))
  {
    var s := Agents(tr);
    forall t | 0 < t < |s| ensures H.StepAt(s, t) {
      assert LooseStepAt(tr, t);
    }
  }

  lemma {:induction false} QueueCountStays(tr: seq<World>, t: nat)
    requires LooseRun(tr) && t < |tr|
    ensures |tr[t].queues| == |tr[0].queues|
  {
    if t > 0 {
      QueueCountStays(tr, t - 1);
      assert LooseStepAt(tr, t);
    }
  }

  ghost predicate Frozen(q: Q.Queue, q': Q.Queue) {
    q'.reports == q.reports && q'.retired == q.retired && q'.readIndex == q.readIndex
  }

  lemma UnservedFreezes(w: World, w': World, k: nat)
    requires LooseStep(w, w') && k < |w.queues| && !H.Serves(w.agent.worker, k)
    ensures Frozen(w.queues[k], w'.queues[k])
  {
    assert QueueMay(w, w', k);
  }

  /** Once `setInactivated(k)` has returned, in every later state the worker is not inside queue k, no
      further kernel of it was started, none of its packets was retired and its read index stands still,
      whatever the callers do and wherever the signal hits. */
  lemma {:induction false} InactivationFreezes(tr: seq<World>, t: nat, u: nat, k: nat)
    requires LooseRun(tr) && t <= u < |tr| && k < |tr[t].queues| && k in tr[t].agent.returned
    ensures |tr[u].queues| == |tr[t].queues| && Frozen(tr[t].queues[k], tr[u].queues[k])
    ensures !H.Serves(tr[u].agent.worker, k) && tr[u].queues[k].pc.Idle?
    decreases u
  {
    AgentsRun(tr);
    H.InactivationIsFinal(Agents(tr), t, u, k);
    QueueCountStays(tr, t);
    QueueCountStays(tr, u);
    if u > 0 {
      assert LooseStepAt(tr, u);
      assert QueueMay(tr[u - 1], tr[u], k);
    }
    if t < u {
      InactivationFreezes(tr, t, u - 1, k);
      UnservedFreezes(tr[u - 1], tr[u], k);
    }
  }
}
