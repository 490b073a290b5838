/** The inactivation handshake between the agent's worker and the callers of `setInactivated`,
    as a transition system. Any number of callers, any delivery delay of the signal. */
module Handshake {

  /** The worker's position in `Execute`; the payload is a position in the list of queues. */
  datatype WorkerPc =
    | ClearingRunning            // about to set RunningQueue to null after a landing (or at start)
    | ClearingFlag               // about to set InterruptingTheQueue to false
    | Fetching                   // about to copy the list of queues and set RunningQueue to null
    | Picking(k: nat)            // loop head
    | Checking(k: nat)           // RunningQueue is set, about to test InterruptingTheQueue
    | Spinning(k: nat)           // in the endless loop
    | Testing(k: nat)            // about to test isInactivated
    | AtDoorbell(k: nat)         // about to load the doorbell
    | InPass(k: nat, executing: bool)

  /** A caller of `setInactivated`. */
  datatype CallerPc =
    | Away
    | Raising(q: nat)            // Inactivated is set, about to set InterruptingTheQueue
    | Comparing(q: nat)          // about to compare the queue with RunningQueue
    | Killing(q: nat)            // about to send the signal
    | Waiting(q: nat)            // waits until RunningQueue is another queue
    | Lowering(q: nat)           // about to reset InterruptingTheQueue

  datatype Agent = Agent(
    queues: nat,                 // number of registered queues
    running: int,                // position of RunningQueue, -1 for null
    interrupting: bool,
    inactivated: set<nat>,
    pending: bool,               // the signal was sent and not yet delivered
    worker: WorkerPc,
    callers: seq<CallerPc>,
    returned: set<nat>)          // history: queues whose setInactivated call returned

  ghost predicate Init(s: Agent) {
    && s.running == -1 && !s.interrupting && s.inactivated == {} && !s.pending && s.returned == {}
    && s.worker == ClearingRunning
    && forall c :: 0 <= c < |s.callers| ==> s.callers[c] == Away
  }

  datatype AgentAction =
    // Worker
    | ClearRunning
    | ClearFlag
    | Fetch
    | Pick
    | CheckFlag
    | TestInactive
    | SkipQueue
    | TakeQueue
    | Progress(executing: bool)
    | EndPass
    | Jump                       // the signal handler's jump to the landing spot
    // Callers
    | Call(c: nat, q: nat)
    | Raise(c: nat)
    | Compare(c: nat)
    | Kill(c: nat)
    | Wait(c: nat)
    | Lower(c: nat)
  {
    predicate IsCaller() {
      Call? || Raise? || Compare? || Kill? || Wait? || Lower?
    }
  }

  predicate Enabled(s: Agent, a: AgentAction) {
    match a
    case ClearRunning => s.worker.ClearingRunning?
    case ClearFlag => s.worker.ClearingFlag?
    case Fetch => s.worker.Fetching?
    case Pick => s.worker.Picking?
    case CheckFlag => s.worker.Checking?
    case TestInactive => s.worker.Testing?
    case SkipQueue => s.worker.AtDoorbell?
    case TakeQueue => s.worker.AtDoorbell?
    case Progress(_) => s.worker.InPass?
    case EndPass => s.worker.InPass? && !s.worker.executing
    case Jump => s.pending
    case Call(c, q) => c < |s.callers| && s.callers[c].Away? && q < s.queues
    case Raise(c) => c < |s.callers| && s.callers[c].Raising?
    case Compare(c) => c < |s.callers| && s.callers[c].Comparing?
    case Kill(c) => c < |s.callers| && s.callers[c].Killing?
    case Wait(c) => c < |s.callers| && s.callers[c].Waiting? && s.running != s.callers[c].q
    case Lower(c) => c < |s.callers| && s.callers[c].Lowering?
  }

  function CallerNext(s: Agent, a: AgentAction): Agent
    requires Enabled(s, a) && a.IsCaller()
  {
    match a
    case Call(c, q) => s.(inactivated := s.inactivated + {q}, callers := s.callers[c := Raising(q)])
    case Raise(c) => s.(interrupting := true, callers := s.callers[c := Comparing(s.callers[c].q)])
    case Compare(c) =>
      var q := s.callers[c].q;
      s.(callers := s.callers[c := if s.running == q then Killing(q) else Lowering(q)])
    case Kill(c) => s.(pending := true, callers := s.callers[c := Waiting(s.callers[c].q)])
    case Wait(c) => s.(callers := s.callers[c := Lowering(s.callers[c].q)])
    case Lower(c) =>
      s.(interrupting := false, returned := s.returned + {s.callers[c].q}, callers := s.callers[c := Away])
  }

  function WorkerNext(s: Agent, a: AgentAction): Agent
    requires Enabled(s, a) && !a.IsCaller()
  {
    match a
    case ClearRunning => s.(running := -1, worker := ClearingFlag)
    case ClearFlag => s.(interrupting := false, worker := Fetching)
    case Fetch => s.(running := -1, worker := Picking(0))
    case Pick =>
      var k := s.worker.k;
      if k < s.queues then s.(running := k, worker := Checking(k)) else s.(worker := Fetching)
    case CheckFlag =>
      var k := s.worker.k;
      s.(worker := if s.interrupting then Spinning(k) else Testing(k))
    case TestInactive =>
      var k := s.worker.k;
      s.(worker := if k in s.inactivated then Picking(k + 1) else AtDoorbell(k))
    case SkipQueue => s.(worker := Picking(s.worker.k + 1))
    case TakeQueue => s.(worker := InPass(s.worker.k, false))
    case Progress(executing) => s.(worker := InPass(s.worker.k, executing))
    case EndPass => s.(worker := Picking(s.worker.k + 1))
    case Jump => s.(pending := false, worker := ClearingRunning)
  }

  function Next(s: Agent, a: AgentAction): Agent
    requires Enabled(s, a)
  {
    if a.IsCaller() then CallerNext(s, a) else WorkerNext(s, a)
  }

  ghost predicate Step(s: Agent, s': Agent) {
    exists a :: Enabled(s, a) && s' == Next(s, a)
  }

  ghost predicate StepAt(tr: seq<Agent>, t: nat)
    requires 0 < t < |tr|
  {
    tr[t] == tr[t - 1] || Step(tr[t - 1], tr[t])
  }

  ghost predicate Run(tr: seq<Agent>) {
    && 0 < |tr| && Init(tr[0])
    && forall t :: 0 < t < |tr| ==> StepAt(tr, t)
  }

  /** The worker passed the inactivation test of queue k and has not moved on. */
  predicate Serves(w: WorkerPc, k: nat) {
    (w.AtDoorbell? || w.InPass?) && w.k == k
  }

  /** The worker is between a landing and its reset of InterruptingTheQueue. */
  predicate Landing(w: WorkerPc) {
    w.ClearingRunning? || w.ClearingFlag?
  }

  // Inactivation is final.

  ghost predicate FinalInv(s: Agent) {
    && (s.worker.Checking? || s.worker.Spinning? || s.worker.Testing? || s.worker.AtDoorbell? || s.worker.InPass? ==>
          s.running == s.worker.k)
    && (forall c :: 0 <= c < |s.callers| && !s.callers[c].Away? ==> s.callers[c].q in s.inactivated)
    && (forall c :: 0 <= c < |s.callers| && s.callers[c].Lowering? ==> !Serves(s.worker, s.callers[c].q))
    && (forall q :: q in s.returned ==> q in s.inactivated && !Serves(s.worker, q))
  }

  lemma CallerKeepsFinal(s: Agent, a: AgentAction)
    requires FinalInv(s) && Enabled(s, a) && a.IsCaller()
    ensures FinalInv(CallerNext(s, a))
  {
  }

  lemma WorkerKeepsFinal(s: Agent, a: AgentAction)
    requires FinalInv(s) && Enabled(s, a) && !a.IsCaller()
    ensures FinalInv(WorkerNext(s, a))
  {
  }

  lemma StepKeepsFinal(s: Agent, a: AgentAction)
    requires FinalInv(s) && Enabled(s, a)
    ensures FinalInv(Next(s, a))
  {
    if a.IsCaller() {
      CallerKeepsFinal(s, a);
    } else {
      WorkerKeepsFinal(s, a);
    }
  }

  lemma {:induction false} RunFinal(tr: seq<Agent>, t: nat)
    requires Run(tr) && t < |tr|
    ensures FinalInv(tr[t])
  {
    if t > 0 {
      RunFinal(tr, t - 1);
      assert StepAt(tr, t);
      if tr[t] != tr[t - 1] {
        var a :| Enabled(tr[t - 1], a) && tr[t] == Next(tr[t - 1], a);
        StepKeepsFinal(tr[t - 1], a);
      }
    }
  }

  /** A landing worker has set RunningQueue to null by the time it resets the flag. */
  lemma {:induction false} LandsInOrder(tr: seq<Agent>, t: nat)
    requires Run(tr) && t < |tr|
    ensures tr[t].worker.ClearingFlag? ==> tr[t].running == -1
  {
    if t > 0 {
      LandsInOrder(tr, t - 1);
      assert StepAt(tr, t);
      if tr[t] != tr[t - 1] {
        var a :| Enabled(tr[t - 1], a) && tr[t] == Next(tr[t - 1], a);
        if a.IsCaller() {
          CallerKeepsWorker(tr[t - 1], a);
        }
      }
    }
  }

  lemma CallerKeepsWorker(s: Agent, a: AgentAction)
    requires Enabled(s, a) && a.IsCaller()
    ensures CallerNext(s, a).worker == s.worker && CallerNext(s, a).running == s.running
  {
  }

  // Every queue gets its turn.

  ghost predicate Visited(tr: seq<Agent>, t: nat, u: nat, k: nat)
    requires u < |tr|
  {
    exists v :: t <= v <= u && tr[v].worker == Checking(k)
  }

  /** The first queue of the list that the worker has not turned to since it was at the head. */
  function TurnsTaken(w: WorkerPc): nat {
    match w
    case Picking(k) => k
    case Checking(k) => k + 1
    case Spinning(k) => k + 1
    case Testing(k) => k + 1
    case AtDoorbell(k) => k + 1
    case InPass(k, _) => k + 1
    case _ => 0
  }

  lemma TurnStep(s: Agent, s': Agent)
    requires s' == s || Step(s, s')
    requires !Landing(s.worker) && !s.worker.Fetching? && !Landing(s'.worker)
    ensures s'.queues == s.queues
    ensures s'.worker.Fetching? ==> s.queues <= TurnsTaken(s.worker)
    ensures !s'.worker.Fetching? ==>
              || TurnsTaken(s'.worker) == TurnsTaken(s.worker)
              || (s'.worker == Checking(TurnsTaken(s.worker)) && TurnsTaken(s'.worker) == TurnsTaken(s.worker) + 1)
  {
  }

  lemma {:induction false} TurnsAreVisits(tr: seq<Agent>, t: nat, u: nat, k: nat)
    requires Run(tr) && t <= u < |tr| && tr[t].worker == Picking(0)
    requires forall v :: t <= v <= u ==> !Landing(tr[v].worker) && !tr[v].worker.Fetching?
    requires k < TurnsTaken(tr[u].worker)
    ensures Visited(tr, t, u, k)
    decreases u
  {
    if t < u {
      assert StepAt(tr, u);
      TurnStep(tr[u - 1], tr[u]);
      if k < TurnsTaken(tr[u - 1].worker) {
        TurnsAreVisits(tr, t, u - 1, k);
        var v :| t <= v <= u - 1 && tr[v].worker == Checking(k);
        assert tr[v].worker == Checking(k);
      }
    }
  }

  /** Between two fetches of the list, unless a jump intervenes, the worker turns to every queue of the list:
      no queue is kept waiting by another one, however busy. */
  lemma {:induction false} EveryQueueGetsItsTurn(tr: seq<Agent>, t: nat, u: nat, k: nat)
    requires Run(tr) && t < u < |tr| && tr[t].worker == Picking(0) && tr[u].worker == Fetching
    requires forall v :: t <= v < u ==> !Landing(tr[v].worker) && !tr[v].worker.Fetching?
    requires k < tr[u].queues
    ensures exists v :: t <= v < u && tr[v].worker == Checking(k)
  {
    assert StepAt(tr, u);
    TurnStep(tr[u - 1], tr[u]);
    TurnsAreVisits(tr, t, u - 1, k);
  }

  // Calls in progress.

  predicate InCall(p: CallerPc) {
    p.Comparing? || p.Killing? || p.Waiting? || p.Lowering?
  }

  /** The flag is up only during a call, an inactivated queue has a call in progress or behind it, and
      the worker looks at queues of the list. */
  ghost predicate CallsOk(s: Agent) {
    && (s.interrupting ==> exists c :: 0 <= c < |s.callers| && InCall(s.callers[c]))
    && (forall k :: k in s.inactivated && k !in s.returned ==>
          exists c :: 0 <= c < |s.callers| && !s.callers[c].Away? && s.callers[c].q == k)
    && (s.worker.Checking? || s.worker.Spinning? || s.worker.Testing? || s.worker.AtDoorbell? || s.worker.InPass? ==>
          s.worker.k < s.queues)
  }

  lemma CallerKeepsCalls(s: Agent, a: AgentAction)
    requires CallsOk(s) && Enabled(s, a) && a.IsCaller()
    ensures CallsOk(CallerNext(s, a))
  {
    var s', c := CallerNext(s, a), a.c;
    if s'.interrupting && !InCall(s'.callers[c]) {
      var d :| 0 <= d < |s.callers| && InCall(s.callers[d]);
      assert InCall(s'.callers[d]);
    }
    forall k | k in s'.inactivated && k !in s'.returned
      ensures exists d :: 0 <= d < |s'.callers| && !s'.callers[d].Away? && s'.callers[d].q == k
    {
      if a.Call? && k == a.q {
        assert s'.callers[c].q == k;
      } else {
        var d :| 0 <= d < |s.callers| && !s.callers[d].Away? && s.callers[d].q == k;
        assert !s'.callers[d].Away? && s'.callers[d].q == k;
      }
    }
  }

  lemma WorkerKeepsCalls(s: Agent, a: AgentAction)
    requires CallsOk(s) && Enabled(s, a) && !a.IsCaller()
    ensures CallsOk(WorkerNext(s, a))
  {
    var s' := WorkerNext(s, a);
    assert s'.callers == s.callers && s'.inactivated == s.inactivated && s'.returned == s.returned;
    assert s'.interrupting ==> s.interrupting;
  }

  lemma {:induction false} RunCalls(tr: seq<Agent>, t: nat)
    requires Run(tr) && t < |tr|
    ensures CallsOk(tr[t])
  {
    if t > 0 {
      RunCalls(tr, t - 1);
      assert StepAt(tr, t);
      if tr[t] != tr[t - 1] {
        var a :| Enabled(tr[t - 1], a) && tr[t] == Next(tr[t - 1], a);
        if a.IsCaller() {
          CallerKeepsCalls(tr[t - 1], a);
        } else {
          WorkerKeepsCalls(tr[t - 1], a);
        }
      }
    }
  }

  lemma {:induction false} ReturnedGrows(tr: seq<Agent>, t: nat, u: nat)
    requires Run(tr) && t <= u < |tr|
    ensures tr[t].returned <= tr[u].returned
    decreases u
  {
    if t < u {
      ReturnedGrows(tr, t, u - 1);
      assert StepAt(tr, u);
    }
  }

  /** Inactivation is final: once `setInactivated(q)` has returned, in every later state of every
      interleaving the worker neither executes a packet of q nor is about to look at q's
      doorbell. This holds for any number of concurrent callers and however late the signal is. */
  lemma {:induction false} InactivationIsFinal(tr: seq<Agent>, t: nat, u: nat, q: nat)
    requires Run(tr) && t <= u < |tr| && q in tr[t].returned
    ensures !Serves(tr[u].worker, q)
  {
    RunFinal(tr, u);
    ReturnedGrows(tr, t, u);
  }
}
