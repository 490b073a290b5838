/** Completion signals tell exactly which packets were retired. */
module WorldCompletion {
  import opened Packets
  import opened World
  import opened WorldOrder
  import Q = QueueProtocol
  import I = QueueInvariant
  import H = Handshake

  /** The worker gave the slot of index id back and has not completed the packet yet. */
  predicate Completing(q: Q.Queue, id: nat) {
    (q.pc.AtAdvance? || q.pc.AtComplete?) && q.pc.id == id
  }

  /** The completion signals of the retired packets of a queue are 0. */
  ghost predicate CompletedOk(q: Q.Queue, signals: map<Handle, int>) {
    forall id :: id in q.retired && id in q.published && !Completing(q, id) && !q.cut ==>
      var h := q.published[id].completion;
      h != 0 && h in signals ==> signals[h] == 0
  }

  ghost predicate CompletionInv(w: World) {
    DepInv(w) && forall k :: 0 <= k < |w.queues| ==> CompletedOk(w.queues[k], w.signals)
  }

  /** Storing 0 to some signal undoes no completion. */
  lemma ZeroKeepsCompleted(q: Q.Queue, signals: map<Handle, int>, h: Handle)
    requires CompletedOk(q, signals)
    ensures CompletedOk(q, signals[h := 0])
  {
  }

  lemma ProducerKeepsCompleted(q: Q.Queue, signals: map<Handle, int>, step: Q.Action)
    requires I.Inv(q) && CompletedOk(q, signals) && Q.Enabled(q, step) && step.IsProducer()
    ensures CompletedOk(Q.Next(q, step), signals)
  {
  }

  lemma WorkerKeepsCompleted(q: Q.Queue, signals: map<Handle, int>, step: Q.Action)
    requires I.Inv(q) && CompletedOk(q, signals) && Q.Enabled(q, step) && !step.IsProducer()
    requires forall h :: h in signals ==> h in SignalsAfter(q, signals, step)
    ensures CompletedOk(Q.Next(q, step), SignalsAfter(q, signals, step))
  {
    match step
    case Complete =>
      assert q.published[q.pc.id] == q.pc.packet;
    case ReadDep(v) => Q.ReadDependencyCases(q, v);
    case Visit(f, g) => VisitKeepsCompleted(q, signals, f, g);
    case _ =>
  }

  lemma VisitKeepsCompleted(q: Q.Queue, signals: map<Handle, int>, f: bool, g: bool)
    requires Q.WellFormed(q) && CompletedOk(q, signals) && q.pc.AtScan?
    ensures CompletedOk(Q.VisitSlot(q, f, g), signals)
  {
    var q' := Q.VisitSlot(q, f, g);
    assert q'.retired == q.retired && q'.published == q.published && q'.cut == q.cut;
  }

  lemma WorkKeepsCompletion(w: World, step: Q.Action)
    requires CompletionInv(w) && Enabled(w, Work(step))
    ensures var w' := WorkNext(w, step); forall j :: 0 <= j < |w'.queues| ==> CompletedOk(w'.queues[j], w'.signals)
  {
    var k, w' := w.agent.worker.k, WorkNext(w, step);
    var q := w.queues[k];
    WorkerKeepsCompleted(q, w.signals, step);
    forall j | 0 <= j < |w'.queues| ensures CompletedOk(w'.queues[j], w'.signals) {
      if j != k && w'.signals != w.signals {
        ZeroKeepsCompleted(w.queues[j], w.signals, q.pc.packet.completion);
      }
    }
  }

  /** Nobody else stores to a completion signal. */
  lemma StoreKeepsCompletion(w: World, h: Handle, value: int)
    requires CompletionInv(w) && Enabled(w, Store(h, value))
    ensures var w' := Next(w, Store(h, value)); forall j :: 0 <= j < |w'.queues| ==> CompletedOk(w'.queues[j], w'.signals)
  {
    forall j | 0 <= j < |w.queues| ensures CompletedOk(w.queues[j], w.signals[h := value]) {
      assert CompletedOk(w.queues[j], w.signals);
    }
  }

  lemma AgentKeepsCompletion(w: World, act: H.AgentAction)
    requires CompletionInv(w) && Enabled(w, AgentDo(act))
    ensures var w' := Next(w, AgentDo(act)); forall j :: 0 <= j < |w'.queues| ==> CompletedOk(w'.queues[j], w'.signals)
  {
    var w' := Next(w, AgentDo(act));
    if act.TakeQueue? || (act.Jump? && JumpCuts(w)) {
      var k := w.agent.worker.k;
      WorkerKeepsCompleted(w.queues[k], w.signals, if act.TakeQueue? then Q.Begin else Q.Cut);
      assert forall j :: 0 <= j < |w'.queues| && j != k ==> w'.queues[j] == w.queues[j];
    }
  }

  lemma StepKeepsCompletion(w: World, w': World)
    requires CompletionInv(w) && Step(w, w')
    ensures CompletionInv(w')
  {
    StepKeepsDep(w, w');
    var a :| Enabled(w, a) && w' == Next(w, a);
    match a
    case Produce(k, step) =>
      ProducerKeepsCompleted(w.queues[k], w.signals, step);
      assert forall j :: 0 <= j < |w'.queues| && j != k ==> w'.queues[j] == w.queues[j];
    case Store(h, value) => StoreKeepsCompletion(w, h, value);
    case AgentDo(act) => AgentKeepsCompletion(w, act);
    case JumpInside =>
      WorkerKeepsCompleted(w.queues[w.agent.worker.k], w.signals, Q.CutInside);
      assert forall j :: 0 <= j < |w'.queues| && j != w.agent.worker.k ==> w'.queues[j] == w.queues[j];
    case Work(step) => WorkKeepsCompletion(w, step);
  }

  /** Completion is exact, for any callers. Whenever the worker is outside a pass over queue k, the
      completion signal of a packet published there is 0 only if the packet was retired, and, unless a
      pass over the queue was cut, if and only if it was. */
  lemma {:induction false} CompletionIsExact(tr: seq<World>, t: nat, k: nat, id: nat)
    requires Run(tr) && t < |tr| && k < |tr[t].queues| && id in tr[t].queues[k].published
    requires tr[t].queues[k].pc.Idle?
    ensures var w, q := tr[t], tr[t].queues[k];
            var h := q.published[id].completion;
            && (h != 0 && h in w.signals && !q.cut ==> (w.signals[h] == 0 <==> id in q.retired))
            && (h != 0 && h in w.signals && w.signals[h] == 0 ==> id in q.retired)
  {
    forall w | Init(w) ensures CompletionInv(w) {
      InitDep(w);
    }
    forall w, w' | CompletionInv(w) && Step(w, w') ensures CompletionInv(w') {
      StepKeepsCompletion(w, w');
    }
    RunInduction(tr, w => CompletionInv(w), t);
    assert CompletedOk(tr[t].queues[k], tr[t].signals);
  }

  /** The worker's only store to a signal: at completion, 0 to the packet's own. */
  lemma WorkStores(q: Q.Queue, signals: map<Handle, int>, step: Q.Action, h: Handle)
    requires h in signals
    ensures h in SignalsAfter(q, signals, step)
    ensures SignalsAfter(q, signals, step)[h] != signals[h] ==>
              && step.Complete? && q.pc.AtComplete? && h == q.pc.packet.completion
              && h != 0 && SignalsAfter(q, signals, step)[h] == 0
  {
  }

  lemma CompletingIsRetired(w: World, k: nat)
    requires DepInv(w) && k < |w.queues| && w.queues[k].pc.AtComplete? && w.queues[k].pc.packet.completion != 0
    ensures var h := w.queues[k].pc.packet.completion; h in w.owner && w.owner[h] in w.log
  {
    var q := w.queues[k];
    assert I.Inv(q);
    assert q.published[q.pc.id] == q.pc.packet && (k, q.pc.id) in w.log;
  }

  /** What an action does to the signals. */
  lemma SignalsFrame(w: World, a: Action)
    requires WellFormed(w) && Enabled(w, a)
    ensures var signals' := Next(w, a).signals;
            match a
            case Work(step) => signals' == SignalsAfter(w.queues[w.agent.worker.k], w.signals, step)
            case Store(h, value) => h !in w.owner && Next(w, a) == w.(signals := w.signals[h := value])
            case _ => signals' == w.signals
  {
  }

  /** Who changes signals, exactly: in every step of every run, a completion signal changes only to 0 and
      only after its packet was retired; any other signal changes only when a client stores to it. */
  lemma {:induction false} SignalsChangeExactly(tr: seq<World>, t: nat, h: Handle)
    requires Run(tr) && 0 < t < |tr| && h in tr[t - 1].signals
    ensures h in tr[t].signals
    ensures tr[t].signals[h] != tr[t - 1].signals[h] ==>
              if h in tr[t - 1].owner then tr[t].signals[h] == 0 && tr[t - 1].owner[h] in tr[t - 1].log
              else tr[t] == tr[t - 1].(signals := tr[t - 1].signals[h := tr[t].signals[h]])
  {
    RunDep(tr, t - 1);
    assert StepAt(tr, t);
    if tr[t] != tr[t - 1] {
      ActionStores(tr[t - 1], tr[t], h);
    }
  }

  lemma ActionStores(w: World, w': World, h: Handle)
    requires DepInv(w) && Step(w, w') && h in w.signals
    ensures h in w'.signals
    ensures w'.signals[h] != w.signals[h] ==>
              if h in w.owner then w'.signals[h] == 0 && w.owner[h] in w.log
              else w' == w.(signals := w.signals[h := w'.signals[h]])
  {
    var a :| Enabled(w, a) && w' == Next(w, a);
    SignalsFrame(w, a);
    if a.Work? {
      var k := w.agent.worker.k;
      WorkStores(w.queues[k], w.signals, a.step, h);
      if w'.signals[h] != w.signals[h] {
        CompletingIsRetired(w, k);
      }
    }
  }
}
