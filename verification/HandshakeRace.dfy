/** When the interruption can hit the wrong queue. The comment above `pthread_kill` argues that the
    worker still runs the queue or waits in its endless loop. That holds unless the worker resets
    the flag after the caller raised it, which it does once after every landing. */
module HandshakeRace {
  import opened Handshake

  ghost predicate Valid(s: Agent, acts: seq<AgentAction>)
    decreases |acts|
  {
    acts == [] || (Enabled(s, acts[0]) && Valid(Next(s, acts[0]), acts[1..]))
  }

  ghost function Exec(s: Agent, acts: seq<AgentAction>): Agent
    requires Valid(s, acts)
    decreases |acts|
  {
    if acts == [] then s else Exec(Next(s, acts[0]), acts[1..])
  }

  lemma {:induction false} Compose(s: Agent, a: seq<AgentAction>, b: seq<AgentAction>)
    requires Valid(s, a) && Valid(Exec(s, a), b)
    ensures Valid(s, a + b) && Exec(s, a + b) == Exec(Exec(s, a), b)
    decreases |a|
  {
    if a == [] {
      assert a + b == b;
    } else {
      Compose(Next(s, a[0]), a[1..], b);
      assert (a + b)[0] == a[0] && (a + b)[1..] == a[1..] + b;
    }
  }

  lemma OneAction(s: Agent, acts: seq<AgentAction>)
    requires |acts| == 1 && Valid(s, acts)
    ensures Exec(s, acts) == Next(s, acts[0])
  {
    assert acts[1..] == [];
  }

  /** Caller c is about to raise the flag for queue q, and nobody else is inside a call. */
  ghost predicate OneCaller(s: Agent, c: nat, q: nat) {
    && c < |s.callers| && s.callers[c] == Raising(q)
    && (forall d :: 0 <= d < |s.callers| && d != c ==> s.callers[d].Away?)
    && q < s.queues && q in s.inactivated && !s.pending
  }

  /** A continuation without new callers, ended by c's signal while the worker executes a packet
      of another queue. Since the signal is delivered when it is sent, that packet is hit. */
  ghost predicate HitsWrongQueue(s: Agent, c: nat, q: nat, acts: seq<AgentAction>) {
    && Valid(s, acts) && 0 < |acts|
    && (forall i :: 0 <= i < |acts| ==> !acts[i].Call?)
    && (forall i :: 0 <= i < |acts| - 1 ==> !acts[i].Kill?)
    && acts[|acts| - 1] == Kill(c)
    && var w := Exec(s, acts).worker; w.InPass? && w.executing && w.k != q
  }

  ghost predicate OtherActiveQueue(s: Agent, q: nat) {
    exists k: nat :: k < s.queues && k != q && k !in s.inactivated
  }

  // Outside a landing the interruption is safe.

  ghost predicate CallInProgress(s: Agent, c: nat, q: nat) {
    && FinalInv(s) && !s.pending && c < |s.callers|
    && (forall d :: 0 <= d < |s.callers| && d != c ==> s.callers[d].Away?)
    && (s.callers[c].Away? || s.callers[c].q == q)
  }

  ghost predicate FlagHolds(s: Agent, c: nat, q: nat) {
    && CallInProgress(s, c, q)
    && !Landing(s.worker)
    && (s.callers[c].Comparing? || s.callers[c].Killing? ==> s.interrupting)
    && (s.callers[c].Killing? && (s.worker.Testing? || s.worker.AtDoorbell? || s.worker.InPass?) ==> s.worker.k == q)
  }

  lemma StepKeepsFlag(s: Agent, c: nat, q: nat, a: AgentAction)
    requires FlagHolds(s, c, q) && Enabled(s, a) && !a.Call? && !a.Kill?
    ensures FlagHolds(Next(s, a), c, q)
  {
    StepKeepsFinal(s, a);
  }

  lemma {:induction false} FlagPreventsWrongHit(s: Agent, c: nat, q: nat, acts: seq<AgentAction>)
    requires FlagHolds(s, c, q)
    ensures !HitsWrongQueue(s, c, q, acts)
    decreases |acts|
  {
    if |acts| == 1 && Valid(s, acts) {
      OneAction(s, acts);
    } else if HitsWrongQueue(s, c, q, acts) {
      StepKeepsFlag(s, c, q, acts[0]);
      FlagPreventsWrongHit(Next(s, acts[0]), c, q, acts[1..]);
      assert HitsWrongQueue(Next(s, acts[0]), c, q, acts[1..]);
    }
  }

  // Without another active queue there is nothing wrong to hit.

  ghost predicate NothingElse(s: Agent, q: nat) {
    && (forall k: nat :: k < s.queues && k != q ==> k in s.inactivated)
    && (s.worker.Checking? || s.worker.Spinning? || s.worker.Testing? ==> s.worker.k < s.queues)
    && (s.worker.AtDoorbell? || s.worker.InPass? ==> s.worker.k == q)
  }

  lemma {:induction false} NothingElseToHit(s: Agent, c: nat, q: nat, acts: seq<AgentAction>)
    requires NothingElse(s, q)
    ensures !HitsWrongQueue(s, c, q, acts)
    decreases |acts|
  {
    if |acts| == 1 && Valid(s, acts) {
      OneAction(s, acts);
    } else if HitsWrongQueue(s, c, q, acts) {
      assert NothingElse(Next(s, acts[0]), q);
      NothingElseToHit(Next(s, acts[0]), c, q, acts[1..]);
      assert HitsWrongQueue(Next(s, acts[0]), c, q, acts[1..]);
    }
  }

  // During a landing the wrong queue can be hit.

  /** s' can follow s without a new call and without a signal. */
  ghost predicate Reaches(s: Agent, s': Agent) {
    exists acts :: Leads(s, acts, s')
  }

  ghost predicate Leads(s: Agent, acts: seq<AgentAction>, s': Agent) {
    && Valid(s, acts) && Exec(s, acts) == s'
    && forall i :: 0 <= i < |acts| ==> !acts[i].Call? && !acts[i].Kill?
  }

  lemma Stay(s: Agent)
    ensures Reaches(s, s)
  {
    assert Leads(s, [], s);
  }

  lemma Extend(s: Agent, acts: seq<AgentAction>, a: AgentAction)
    requires Valid(s, acts) && Enabled(Exec(s, acts), a)
    ensures Valid(s, acts + [a]) && Exec(s, acts + [a]) == Next(Exec(s, acts), a)
  {
    var e := Exec(s, acts);
    assert [a][0] == a && [a][1..] == [];
    assert Valid(Next(e, a), []);
    assert Valid(e, [a]);
    OneAction(e, [a]);
    Compose(s, acts, [a]);
  }

  lemma Then(s: Agent, s': Agent, a: AgentAction)
    requires Reaches(s, s') && Enabled(s', a) && !a.Call? && !a.Kill?
    ensures Reaches(s, Next(s', a))
  {
    var acts :| Leads(s, acts, s');
    Extend(s, acts, a);
    assert Leads(s, acts + [a], Next(s', a));
  }

  /** The worker can walk over queues whose doorbell gives it nothing to do. */
  lemma {:induction false} Walk(s: Agent, from: Agent, b: nat) returns (to: Agent)
    requires Reaches(s, from) && from.worker.Picking? && from.worker.k <= b <= from.queues && !from.interrupting
    ensures Reaches(s, to)
    ensures to == from.(worker := Picking(b), running := if from.worker.k == b then from.running else b - 1)
    decreases b - from.worker.k
  {
    var k := from.worker.k;
    to := from;
    if k < b {
      var s1 := Next(from, Pick);
      Then(s, from, Pick);
      var s2 := Next(s1, CheckFlag);
      Then(s, s1, CheckFlag);
      var s3 := Next(s2, TestInactive);
      Then(s, s2, TestInactive);
      if k !in from.inactivated {
        Then(s, s3, SkipQueue);
        s3 := Next(s3, SkipQueue);
      }
      to := Walk(s, s3, b);
    }
  }

  /** The caller raises the flag, the landing worker resets it and starts over. */
  lemma FlagIsLost(s: Agent, c: nat, q: nat) returns (to: Agent)
    requires OneCaller(s, c, q) && Landing(s.worker)
    ensures Reaches(s, to)
    ensures to == s.(interrupting := false, running := -1, worker := Picking(0), callers := s.callers[c := Comparing(q)])
  {
    Stay(s);
    Then(s, s, Raise(c));
    to := Next(s, Raise(c));
    if s.worker.ClearingRunning? {
      Then(s, to, ClearRunning);
      to := Next(to, ClearRunning);
    }
    Then(s, to, ClearFlag);
    to := Next(to, ClearFlag);
    Then(s, to, Fetch);
    to := Next(to, Fetch);
  }

  /** The worker passes over q, and the caller sees q running. */
  lemma CallerIsFooled(s: Agent, from: Agent, c: nat, q: nat) returns (to: Agent)
    requires Reaches(s, from) && c < |from.callers| && from.callers[c] == Comparing(q)
    requires from.worker == Picking(0) && !from.interrupting && q in from.inactivated && q < from.queues
    ensures Reaches(s, to)
    ensures to == from.(worker := Picking(q + 1), running := q, callers := from.callers[c := Killing(q)])
  {
    var s0 := Walk(s, from, q);
    Then(s, s0, Pick);
    var s1 := Next(s0, Pick);
    Then(s, s1, Compare(c));
    var s2 := Next(s1, Compare(c));
    Then(s, s2, CheckFlag);
    var s3 := Next(s2, CheckFlag);
    Then(s, s3, TestInactive);
    to := Next(s3, TestInactive);
  }

  /** The worker goes on, around the list if need be, to execute a packet of queue k. */
  lemma WorkerReachesOther(s: Agent, from: Agent, k: nat) returns (to: Agent)
    requires Reaches(s, from) && from.worker.Picking? && from.worker.k <= from.queues && !from.interrupting
    requires k < from.queues && k !in from.inactivated
    ensures Reaches(s, to) && to == from.(worker := InPass(k, true), running := k)
  {
    var at := from;
    if k < from.worker.k {
      at := Walk(s, from, from.queues);
      Then(s, at, Pick);
      at := Next(at, Pick);
      Then(s, at, Fetch);
      at := Next(at, Fetch);
    }
    at := Walk(s, at, k);
    Then(s, at, Pick);
    at := Next(at, Pick);
    to := ServeNext(s, at, k);
  }

  lemma LandingAllowsWrongHit(s: Agent, c: nat, q: nat, k: nat) returns (acts: seq<AgentAction>)
    requires OneCaller(s, c, q) && Landing(s.worker)
    requires k < s.queues && k != q && k !in s.inactivated
    ensures HitsWrongQueue(s, c, q, acts)
  {
    var s1 := FlagIsLost(s, c, q);
    var s2 := CallerIsFooled(s, s1, c, q);
    var s3 := WorkerReachesOther(s, s2, k);
    var lead :| Leads(s, lead, s3);
    Extend(s, lead, Kill(c));
    acts := lead + [Kill(c)];
  }

  /** Even with one caller at a time and a signal that takes effect when it is sent, the jump can
      hit a packet of another queue. It can do so if and only if the worker is still landing when
      the caller raises the flag and some other queue is active. */
  lemma {:induction false} WrongHitExactly(s: Agent, c: nat, q: nat)
    requires FinalInv(s) && OneCaller(s, c, q)
    ensures (exists acts :: HitsWrongQueue(s, c, q, acts)) <==> Landing(s.worker) && OtherActiveQueue(s, q)
  {
    if !Landing(s.worker) {
      forall acts ensures !HitsWrongQueue(s, c, q, acts) {
        FlagPreventsWrongHit(s, c, q, acts);
      }
    } else if !OtherActiveQueue(s, q) {
      forall acts ensures !HitsWrongQueue(s, c, q, acts) {
        NothingElseToHit(s, c, q, acts);
      }
    } else {
      var k: nat :| k < s.queues && k != q && k !in s.inactivated;
      var acts := LandingAllowsWrongHit(s, c, q, k);
    }
  }

  /** The worker passes both tests and executes a packet. */
  lemma ServeNext(s: Agent, from: Agent, k: nat) returns (to: Agent)
    requires Reaches(s, from) && from.worker == Checking(k) && !from.interrupting && k !in from.inactivated
    ensures Reaches(s, to) && to == from.(worker := InPass(k, true))
  {
    to := from;
    Then(s, to, CheckFlag);
    to := Next(to, CheckFlag);
    Then(s, to, TestInactive);
    to := Next(to, TestInactive);
    Then(s, to, TakeQueue);
    to := Next(to, TakeQueue);
    Then(s, to, Progress(true));
    to := Next(to, Progress(true));
  }
}
