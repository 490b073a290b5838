/** The whole agent: one worker serving any number of queues, their producers, the signals that
    couple barrier packets with other packets, and any callers of `setInactivated`. The jump may come as
    late as it likes, between any two steps or inside one. A run ends when the worker is about to begin
    another pass over a queue whose pass was cut (Comeback has what happens then). */
module World {
  import opened Packets
  import Q = QueueProtocol
  import H = Handshake

  datatype World = World(
    agent: H.Agent,
    queues: seq<Q.Queue>,
    signals: map<Handle, int>,        // registered signals and their values
    owner: map<Handle, (nat, nat)>,   // the one packet (queue, index) each completion signal belongs to
    log: seq<(nat, nat)>)             // history: retired packets of all queues, in order

  datatype Action =
    | Produce(k: nat, step: Q.Action)
    | Store(signal: Handle, value: int)
    | AgentDo(act: H.AgentAction)
    | JumpInside                      // the jump, between the two writes that move a read index
    | Work(step: Q.Action)

  ghost predicate Init(w: World) {
    && H.Init(w.agent) && |w.queues| == w.agent.queues
    && (forall k :: 0 <= k < |w.queues| ==> Q.Init(w.queues[k]))
    && (forall h :: h in w.owner && h in w.signals ==> w.signals[h] != 0)
    && w.log == []
  }

  predicate WellFormed(w: World) {
    |w.queues| == w.agent.queues && forall k :: 0 <= k < |w.queues| ==> Q.WellFormed(w.queues[k])
  }

  /** The value a dependency read sees is the signal's. */
  predicate ReadsSignal(q: Q.Queue, signals: map<Handle, int>, step: Q.Action) {
    var dep := Q.PendingDep(q);
    step.ReadDep? && dep != 0 ==> dep in signals && step.value == signals[dep]
  }

  /** Completion stores 0 to the packet's signal, if it has a registered one. */
  function SignalsAfter(q: Q.Queue, signals: map<Handle, int>, step: Q.Action): map<Handle, int> {
    if step.Complete? && q.pc.AtComplete? then
      var h := q.pc.packet.completion;
      if h != 0 && h in signals then signals[h := 0] else signals
    else signals
  }

  /** The queue the worker has selected. */
  predicate Selected(w: World, k: nat) {
    (w.agent.worker.AtDoorbell? || w.agent.worker.InPass?) && w.agent.worker.k == k && k < |w.queues|
  }

  ghost predicate Enabled(w: World, a: Action)
    requires WellFormed(w)
  {
    match a
    case Produce(k, step) =>
      && k < |w.queues| && step.IsProducer() && Q.Enabled(w.queues[k], step)
      && (step.Publish? && step.packet.completion != 0 ==>
            step.packet.completion in w.owner && w.owner[step.packet.completion] == (k, step.id))
    case Store(signal, _) => signal in w.signals && signal !in w.owner
    case AgentDo(act) =>
      && H.Enabled(w.agent, act) && !act.Progress?
      && (act.SkipQueue? ==> Selected(w, w.agent.worker.k) && !Q.DoorbellChanged(w.queues[w.agent.worker.k]))
      && (act.TakeQueue? ==> Selected(w, w.agent.worker.k) && Q.Enabled(w.queues[w.agent.worker.k], Q.Begin))
      && (act.EndPass? ==> Selected(w, w.agent.worker.k) && w.queues[w.agent.worker.k].pc.Idle?)
    case JumpInside =>
      && H.Enabled(w.agent, H.Jump) && w.agent.worker.InPass? && Selected(w, w.agent.worker.k)
      && Q.Enabled(w.queues[w.agent.worker.k], Q.CutInside)
    case Work(step) =>
      && w.agent.worker.InPass? && Selected(w, w.agent.worker.k)
      && !step.IsProducer() && !step.Begin? && !step.IsCut()
      && Q.Enabled(w.queues[w.agent.worker.k], step)
      && ReadsSignal(w.queues[w.agent.worker.k], w.signals, step)
  }

  /** Whether a jump interrupts a pass. */
  predicate JumpCuts(w: World) {
    w.agent.worker.InPass? && w.agent.worker.k < |w.queues| && !w.queues[w.agent.worker.k].pc.Idle?
  }

  function WorkNext(w: World, step: Q.Action): World
    requires WellFormed(w) && w.agent.worker.InPass? && Selected(w, w.agent.worker.k)
    requires Q.Enabled(w.queues[w.agent.worker.k], step)
  {
    var k := w.agent.worker.k;
    var q := w.queues[k];
    var q' := Q.Next(q, step);
    w.(agent := w.agent.(worker := H.InPass(k, q'.pc.AtKernel?)),
       queues := w.queues[k := q'],
       signals := SignalsAfter(q, w.signals, step),
       log := if step.Clear? then w.log + [(k, q.pc.id)] else w.log)
  }

  ghost function Next(w: World, a: Action): World
    requires WellFormed(w) && Enabled(w, a)
  {
    match a
    case Produce(k, step) => w.(queues := w.queues[k := Q.Next(w.queues[k], step)])
    case Store(signal, value) => w.(signals := w.signals[signal := value])
    case AgentDo(act) =>
      var agent' := H.Next(w.agent, act);
      var k := if w.agent.worker.AtDoorbell? || w.agent.worker.InPass? then w.agent.worker.k else 0;
      if act.TakeQueue? then
        w.(agent := agent', queues := w.queues[k := Q.Next(w.queues[k], Q.Begin)])
      else if act.Jump? && JumpCuts(w) then
        w.(agent := agent', queues := w.queues[k := Q.Next(w.queues[k], Q.Cut)])
      else
        w.(agent := agent')
    case JumpInside =>
      var k := w.agent.worker.k;
      w.(agent := H.Next(w.agent, H.Jump), queues := w.queues[k := Q.Next(w.queues[k], Q.CutInside)])
    case Work(step) => WorkNext(w, step)
  }

  ghost predicate Step(w: World, w': World) {
    WellFormed(w) && exists a :: Enabled(w, a) && w' == Next(w, a)
  }

  ghost predicate StepAt(tr: seq<World>, t: nat)
    requires 0 < t < |tr|
  {
    tr[t] == tr[t - 1] || Step(tr[t - 1], tr[t])
  }

  ghost predicate Run(tr: seq<World>) {
    && 0 < |tr| && Init(tr[0])
    && forall t :: 0 < t < |tr| ==> StepAt(tr, t)
  }

  /** Induction over a run of the world. */
  lemma {:induction false} RunInduction(tr: seq<World>, p: World -> bool, t: nat)
    requires Run(tr) && t < |tr|
    requires forall w :: Init(w) ==> p(w)
    requires forall w, w' :: p(w) && Step(w, w') ==> p(w')
    ensures p(tr[t])
  {
    if t > 0 {
      RunInduction(tr, p, t - 1);
      assert StepAt(tr, t);
    }
  }

  // Every queue of a world runs the queue protocol.

  /** The step of queue k that an action of the world takes, if it takes one. */
  ghost function StepTaken(w: World, a: Action): Q.Action
    requires WellFormed(w) && Enabled(w, a)
  {
    match a
    case Produce(_, step) => step
    case Work(step) => step
    case AgentDo(act) => if act.TakeQueue? then Q.Begin else Q.Cut
    case JumpInside => Q.CutInside
    case Store(_, _) => Q.Begin
  }

  lemma ActionOfQueue(w: World, a: Action, k: nat)
    requires WellFormed(w) && Enabled(w, a) && k < |w.queues|
    ensures |Next(w, a).queues| == |w.queues|
    ensures var q, q' := w.queues[k], Next(w, a).queues[k];
            q' == q || (Q.Enabled(q, StepTaken(w, a)) && q' == Q.Next(q, StepTaken(w, a)))
  {
  }

  lemma StepOfQueue(w: World, w': World, k: nat)
    requires Step(w, w') && k < |w.queues|
    ensures |w'.queues| == |w.queues|
    ensures w'.queues[k] == w.queues[k] || Q.Step(w.queues[k], w'.queues[k])
  {
    var a :| Enabled(w, a) && w' == Next(w, a);
    ActionOfQueue(w, a, k);
  }

  ghost function Projection(tr: seq<World>, k: nat): (s: seq<Q.Queue>)
    requires forall t :: 0 <= t < |tr| ==> k < |tr[t].queues|
    ensures |s| == |tr| && forall t :: 0 <= t < |tr| ==> s[t] == tr[t].queues[k]
  {
    seq(|tr|, t requires 0 <= t < |tr| => tr[t].queues[k])
  }

  lemma {:induction false} QueueCountKept(tr: seq<World>, t: nat)
    requires Run(tr) && t < |tr|
    ensures |tr[t].queues| == |tr[0].queues|
  {
    if t > 0 {
      QueueCountKept(tr, t - 1);
      assert StepAt(tr, t);
      if tr[t] != tr[t - 1] {
        StepKeepsCount(tr[t - 1], tr[t]);
      }
    }
  }

  lemma StepKeepsCount(w: World, w': World)
    requires Step(w, w')
    ensures |w'.queues| == |w.queues|
  {
  }

  /** What happens to one queue of a world, with worker, handshake, jumps and signals in play, is a run
      of the queue protocol. The theorems about such runs therefore hold for each queue. */
  lemma {:induction false} ProjectionIsRun(tr: seq<World>, k: nat)
    requires Run(tr) && k < |tr[0].queues|
    ensures forall t :: 0 <= t < |tr| ==> k < |tr[t].queues|
    ensures Q.Run(Projection(tr, k))
  {
    forall t | 0 <= t < |tr| ensures k < |tr[t].queues| {
      QueueCountKept(tr, t);
    }
    var s := Projection(tr, k);
    forall t | 0 < t < |s| ensures Q.StepAt(s, t) {
      assert StepAt(tr, t);
      if tr[t] != tr[t - 1] {
        StepOfQueue(tr[t - 1], tr[t], k);
      }
    }
  }
}
