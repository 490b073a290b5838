/** The two other ways in which the handshake fails, each with its exact condition: a late signal that
    hits another queue, and a worker left in its endless loop. Both need one caller only. */
module HandshakeFailures {
  import opened Handshake
  import opened HandshakeRace

  ghost predicate NoCalls(acts: seq<AgentAction>) {
    forall i :: 0 <= i < |acts| ==> !acts[i].Call?
  }

  /** What `OneCaller` means in a run: the flag is down, and a queue other than q that is inactivated is
      not served. */
  ghost predicate Quiet(s: Agent, c: nat, q: nat) {
    && OneCaller(s, c, q) && !s.interrupting && FinalInv(s)
    && (forall k :: k in s.inactivated && k != q ==> !Serves(s.worker, k))
    && (s.worker.Checking? || s.worker.Spinning? || s.worker.Testing? || s.worker.AtDoorbell? || s.worker.InPass? ==>
          s.worker.k < s.queues)
  }

  lemma RunQuiet(tr: seq<Agent>, t: nat, c: nat, q: nat)
    requires Run(tr) && t < |tr| && OneCaller(tr[t], c, q)
    ensures Quiet(tr[t], c, q)
  {
    RunFinal(tr, t);
    RunCalls(tr, t);
  }

  /** The worker finishes with the queue it looks at. */
  lemma ToNextQueue(s: Agent, from: Agent) returns (to: Agent)
    requires Reaches(s, from) && !from.interrupting
    requires from.worker.Checking? || from.worker.Testing? || from.worker.AtDoorbell? || from.worker.InPass?
    ensures Reaches(s, to) && to == from.(worker := Picking(from.worker.k + 1))
  {
    to := from;
    if to.worker.Checking? {
      to := Follow(s, to, CheckFlag);
    }
    if to.worker.Testing? {
      to := Follow(s, to, TestInactive);
    }
    if to.worker.AtDoorbell? {
      to := Follow(s, to, SkipQueue);
    }
    if to.worker.InPass? {
      to := Follow(s, to, Progress(false));
      to := Follow(s, to, EndPass);
    }
  }

  lemma ToFetch(s: Agent, from: Agent) returns (to: Agent)
    requires Reaches(s, from) && !from.interrupting
    requires from.worker.Picking? || from.worker.Fetching? || Landing(from.worker)
    ensures Reaches(s, to) && to == from.(worker := Fetching, running := to.running)
  {
    to := from;
    if to.worker.Picking? {
      if to.worker.k <= to.queues {
        to := Walk(s, to, to.queues);
      }
      to := Follow(s, to, Pick);
    }
    if to.worker.ClearingRunning? {
      to := Follow(s, to, ClearRunning);
    }
    if to.worker.ClearingFlag? {
      to := Follow(s, to, ClearFlag);
    }
  }

  /** A worker that does not spin can go back to the head of the list while the flag is down. */
  lemma ToListHead(s: Agent, from: Agent) returns (to: Agent)
    requires Reaches(s, from) && !from.worker.Spinning? && !from.interrupting
    ensures Reaches(s, to) && to == from.(worker := Picking(0), running := -1)
  {
    to := from;
    if !to.worker.Picking? && !to.worker.Fetching? && !Landing(to.worker) {
      to := ToNextQueue(s, to);
    }
    to := ToFetch(s, to);
    to := Follow(s, to, Fetch);
  }

  lemma Follow(s: Agent, from: Agent, a: AgentAction) returns (to: Agent)
    requires Reaches(s, from) && Enabled(from, a) && !a.Call? && !a.Kill?
    ensures Reaches(s, to) && to == Next(from, a)
  {
    Then(s, from, a);
    to := Next(from, a);
  }

  // A signal that is delivered late.

  /** A continuation without new calls, after which the signal is on its way while the worker executes a
      packet of queue k, which is not the queue to be interrupted. */
  ghost predicate LateHit(s: Agent, q: nat, k: nat, acts: seq<AgentAction>) {
    && Valid(s, acts) && NoCalls(acts) && k != q
    && Exec(s, acts).pending && Exec(s, acts).worker == InPass(k, true)
  }

  ghost predicate CanBeHit(s: Agent, q: nat, k: nat) {
    exists acts :: LateHit(s, q, k, acts)
  }

  /** The worker reads the flag for q before the caller raises it, and the caller then sees q running. */
  lemma CallerSeesQueue(s: Agent, c: nat, q: nat) returns (to: Agent)
    requires Quiet(s, c, q) && !s.worker.Spinning?
    ensures Reaches(s, to)
    ensures to == s.(interrupting := true, worker := Testing(q), running := q, callers := s.callers[c := Killing(q)])
  {
    Stay(s);
    to := ToListHead(s, s);
    to := Walk(s, to, q);
    to := Follow(s, to, Pick);
    to := Follow(s, to, CheckFlag);
    to := Follow(s, to, Raise(c));
    to := Follow(s, to, Compare(c));
  }

  /** With the signal on its way the worker leaves q on its own, and so does the caller. */
  lemma CallerLeaves(from: Agent, c: nat, q: nat) returns (to: Agent)
    requires c < |from.callers| && from.callers[c] == Waiting(q) && from.worker == Testing(q) && from.running == q
    requires q in from.inactivated && q < from.queues
    ensures Reaches(from, to) && !to.worker.Spinning?
    ensures to == from.(interrupting := false, worker := to.worker, running := to.running,
                        callers := from.callers[c := Away], returned := from.returned + {q})
  {
    Stay(from);
    to := Follow(from, from, TestInactive);
    to := Follow(from, to, Pick);
    if to.worker.Fetching? {
      to := Follow(from, to, Fetch);
    }
    to := Follow(from, to, Wait(c));
    to := Follow(from, to, Lower(c));
  }

  /** The signal of c between two stretches without signals. */
  lemma KillBetween(s: Agent, from: Agent, c: nat, to: Agent) returns (acts: seq<AgentAction>)
    requires Reaches(s, from) && Enabled(from, Kill(c)) && Reaches(Next(from, Kill(c)), to)
    ensures Valid(s, acts) && NoCalls(acts) && Exec(s, acts) == to
  {
    var lead :| Leads(s, lead, from);
    Extend(s, lead, Kill(c));
    var rest :| Leads(Next(from, Kill(c)), rest, to);
    Compose(s, lead + [Kill(c)], rest);
    acts := lead + [Kill(c)] + rest;
  }

  lemma LateSignalHits(s: Agent, c: nat, q: nat, k: nat) returns (acts: seq<AgentAction>)
    requires Quiet(s, c, q) && !s.worker.Spinning?
    requires k < s.queues && k != q && k !in s.inactivated
    ensures LateHit(s, q, k, acts)
  {
    var killing := CallerSeesQueue(s, c, q);
    var killed := Next(killing, Kill(c));
    var to := CallerLeaves(killed, c, q);
    to := ToListHead(killed, to);
    to := Walk(killed, to, k);
    to := Follow(killed, to, Pick);
    to := ServeNext(killed, to, k);
    acts := KillBetween(s, killing, c, to);
  }

  /** A queue that is inactivated or not in the list is not entered. */
  ghost predicate KeptOut(s: Agent, k: nat) {
    && (k in s.inactivated || s.queues <= k) && !Serves(s.worker, k)
    && (s.worker.Checking? || s.worker.Spinning? || s.worker.Testing? ==> s.worker.k < s.queues)
  }

  lemma {:induction false} StaysOut(s: Agent, k: nat, acts: seq<AgentAction>)
    requires KeptOut(s, k) && Valid(s, acts)
    ensures !Serves(Exec(s, acts).worker, k)
    decreases |acts|
  {
    if acts != [] {
      assert KeptOut(Next(s, acts[0]), k);
      StaysOut(Next(s, acts[0]), k, acts[1..]);
    }
  }

  /** A worker that spins is left alone by everybody but the signal, and c sends one at most. */
  ghost predicate SpinsOrSignalled(s: Agent, c: nat) {
    && c < |s.callers| && (forall d :: 0 <= d < |s.callers| && d != c ==> s.callers[d].Away?)
    && (s.pending ==> s.worker.Spinning?)
    && (s.pending || !s.worker.Spinning? ==> s.callers[c].Away? || s.callers[c].Waiting? || s.callers[c].Lowering?)
  }

  lemma {:induction false} NoHitFromSpin(s: Agent, c: nat, acts: seq<AgentAction>)
    requires SpinsOrSignalled(s, c) && Valid(s, acts) && NoCalls(acts)
    ensures Exec(s, acts).pending ==> Exec(s, acts).worker.Spinning?
    decreases |acts|
  {
    if acts != [] {
      assert SpinsOrSignalled(Next(s, acts[0]), c);
      NoHitFromSpin(Next(s, acts[0]), c, acts[1..]);
    }
  }

  /** A late signal, exactly. In any run, when the one caller is about to raise the flag, its signal can
      still hit a packet of queue k if and only if k is another active queue and the worker does not
      spin already. */
  lemma {:induction false} LateHitExactly(tr: seq<Agent>, t: nat, c: nat, q: nat, k: nat)
    requires Run(tr) && t < |tr| && OneCaller(tr[t], c, q)
    ensures CanBeHit(tr[t], q, k) <==>
            !tr[t].worker.Spinning? && k != q && k < tr[t].queues && k !in tr[t].inactivated
  {
    var s := tr[t];
    RunQuiet(tr, t, c, q);
    if k != q && (s.queues <= k || k in s.inactivated) {
      forall acts ensures !LateHit(s, q, k, acts) {
        if Valid(s, acts) {
          StaysOut(s, k, acts);
        }
      }
    } else if s.worker.Spinning? {
      forall acts ensures !LateHit(s, q, k, acts) {
        if Valid(s, acts) && NoCalls(acts) {
          NoHitFromSpin(s, c, acts);
        }
      }
    } else if k != q {
      var acts := LateSignalHits(s, c, q, k);
    }
  }

  // A worker left in its endless loop.

  /** No signal is on its way to the worker spinning on queue k. */
  ghost predicate Stuck(s: Agent, k: nat) {
    && s.worker == Spinning(k) && s.running == k && !s.pending
    && forall c :: 0 <= c < |s.callers| ==> !s.callers[c].Killing? && (s.callers[c].Away? || s.callers[c].q != k)
  }

  ghost predicate GetsStuck(s: Agent, k: nat, acts: seq<AgentAction>) {
    Valid(s, acts) && NoCalls(acts) && Stuck(Exec(s, acts), k)
  }

  /** The caller finds nothing or another queue running and sends no signal; the worker sees its flag. */
  lemma CallerLeavesWorkerStuck(s: Agent, c: nat, q: nat) returns (to: Agent)
    requires Quiet(s, c, q) && s.worker != Spinning(q)
    ensures Reaches(s, to) && to.worker.Spinning? && Stuck(to, to.worker.k) && q in to.returned
  {
    Stay(s);
    to := s;
    if !s.worker.Spinning? {
      to := ToListHead(s, s);
    }
    to := Follow(s, to, Raise(c));
    to := Follow(s, to, Compare(c));
    if to.worker.Picking? {
      to := Follow(s, to, Pick);
      to := Follow(s, to, CheckFlag);
    }
    to := Follow(s, to, Lower(c));
  }

  /** The caller interrupts the worker that spins on its own queue, and nobody raises the flag again. */
  ghost predicate BeingFreed(s: Agent, c: nat, q: nat) {
    && c < |s.callers| && (forall d :: 0 <= d < |s.callers| && d != c ==> s.callers[d].Away?)
    && if s.worker == Spinning(q) then
         s.running == q && !s.callers[c].Away? && !s.callers[c].Lowering? && s.callers[c].q == q
         && (s.pending ==> s.callers[c].Waiting?)
       else
         !s.worker.Spinning? && !s.pending && (s.interrupting ==> Landing(s.worker))
         && (s.callers[c].Away? || s.callers[c].Waiting? || s.callers[c].Lowering?)
  }

  lemma {:induction false} FreedIsNotStuck(s: Agent, c: nat, q: nat, acts: seq<AgentAction>)
    requires BeingFreed(s, c, q) && Valid(s, acts) && NoCalls(acts)
    ensures forall k :: !Stuck(Exec(s, acts), k)
    decreases |acts|
  {
    if acts != [] {
      assert BeingFreed(Next(s, acts[0]), c, q);
      FreedIsNotStuck(Next(s, acts[0]), c, q, acts[1..]);
    }
  }

  /** The endless loop, exactly. In any run, when the one caller is about to raise the flag, the worker can
      end up spinning with no signal to come, and the caller's call returned, unless the worker spins
      on the caller's own queue; in that case it cannot. */
  lemma {:induction false} GetsStuckExactly(tr: seq<Agent>, t: nat, c: nat, q: nat)
    requires Run(tr) && t < |tr| && OneCaller(tr[t], c, q)
    ensures (exists acts, k :: GetsStuck(tr[t], k, acts)) <==> tr[t].worker != Spinning(q)
    ensures tr[t].worker != Spinning(q) ==>
              exists acts, k :: GetsStuck(tr[t], k, acts) && q in Exec(tr[t], acts).returned
  {
    var s := tr[t];
    RunQuiet(tr, t, c, q);
    if s.worker == Spinning(q) {
      forall acts, k ensures !GetsStuck(s, k, acts) {
        if Valid(s, acts) && NoCalls(acts) {
          FreedIsNotStuck(s, c, q, acts);
        }
      }
    } else {
      var to := CallerLeavesWorkerStuck(s, c, q);
      var acts :| Leads(s, acts, to);
      assert GetsStuck(s, to.worker.k, acts) && q in Exec(s, acts).returned;
    }
  }

  // How a stuck worker gets out.

  ghost predicate CallsWithin(acts: seq<AgentAction>, allowed: set<nat>) {
    forall i :: 0 <= i < |acts| && acts[i].Call? ==> acts[i].q in allowed
  }

  ghost predicate LeavesSpin(s: Agent, acts: seq<AgentAction>, allowed: set<nat>) {
    Valid(s, acts) && CallsWithin(acts, allowed) && !Exec(s, acts).worker.Spinning?
  }

  lemma {:induction false} SpinsOn(s: Agent, k: nat, acts: seq<AgentAction>, allowed: set<nat>)
    requires Stuck(s, k) && Valid(s, acts) && CallsWithin(acts, allowed)
    requires k !in allowed || s.queues <= k || s.callers == []
    ensures Stuck(Exec(s, acts), k)
    decreases |acts|
  {
    if acts != [] {
      assert Stuck(Next(s, acts[0]), k);
      SpinsOn(Next(s, acts[0]), k, acts[1..], allowed);
    }
  }

  /** A caller in the middle of a call for another queue can finish it. */
  lemma CallFinishes(s: Agent, k: nat, c: nat) returns (to: Agent)
    requires Stuck(s, k) && c < |s.callers|
    ensures Reaches(s, to) && Stuck(to, k) && to.queues == s.queues
    ensures |to.callers| == |s.callers| && to.callers[c].Away?
  {
    Stay(s);
    to := s;
    if to.callers[c].Raising? {
      to := Follow(s, to, Raise(c));
    }
    if to.callers[c].Comparing? {
      to := Follow(s, to, Compare(c));
    }
    if to.callers[c].Waiting? {
      to := Follow(s, to, Wait(c));
    }
    if to.callers[c].Lowering? {
      to := Follow(s, to, Lower(c));
    }
  }

  /** Inactivating the queue itself releases the worker. */
  lemma CallReleases(s: Agent, k: nat) returns (acts: seq<AgentAction>)
    requires Stuck(s, k) && k < s.queues && s.callers != []
    ensures LeavesSpin(s, acts, {k})
  {
    var to := CallFinishes(s, k, 0);
    var lead :| Leads(s, lead, to);
    acts := Go(s, lead, Call(0, k), {k});
    acts := CallInterrupts(s, acts, k);
  }

  lemma Go(s: Agent, acts: seq<AgentAction>, a: AgentAction, allowed: set<nat>) returns (longer: seq<AgentAction>)
    requires Valid(s, acts) && CallsWithin(acts, allowed)
    requires Enabled(Exec(s, acts), a) && (a.Call? ==> a.q in allowed)
    ensures Valid(s, longer) && CallsWithin(longer, allowed) && Exec(s, longer) == Next(Exec(s, acts), a)
  {
    Extend(s, acts, a);
    longer := acts + [a];
  }

  lemma CallInterrupts(s: Agent, acts: seq<AgentAction>, k: nat) returns (longer: seq<AgentAction>)
    requires Valid(s, acts) && CallsWithin(acts, {k})
    requires Exec(s, acts).running == k && Exec(s, acts).callers != [] && Exec(s, acts).callers[0] == Raising(k)
    ensures LeavesSpin(s, longer, {k})
  {
    longer := Go(s, acts, Raise(0), {k});
    longer := Go(s, longer, Compare(0), {k});
    longer := Go(s, longer, Kill(0), {k});
    longer := Go(s, longer, Jump, {k});
  }

  /** The way out, exactly. When calls are made for the queues of a given set only, the stuck worker can
      leave its loop if and only if its own queue is among them (and there is anybody to call). */
  lemma {:induction false} SpinEndsExactly(s: Agent, k: nat, allowed: set<nat>)
    requires Stuck(s, k)
    ensures (exists acts :: LeavesSpin(s, acts, allowed)) <==> k in allowed && k < s.queues && s.callers != []
  {
    if k in allowed && k < s.queues && s.callers != [] {
      var acts := CallReleases(s, k);
      assert LeavesSpin(s, acts, allowed);
    } else {
      forall acts ensures !LeavesSpin(s, acts, allowed) {
        if Valid(s, acts) && CallsWithin(acts, allowed) {
          SpinsOn(s, k, acts, allowed);
        }
      }
    }
  }

  // The failures happen.

  /** One call on a new agent with two or more queues is enough: from there each of the three failures
      has a continuation. */
  lemma {:induction false} FailuresHappen(s: Agent, c: nat, q: nat) returns (tr: seq<Agent>)
    requires Init(s) && c < |s.callers| && q < s.queues && 2 <= s.queues
    ensures Run(tr) && |tr| == 2 && tr[0] == s && OneCaller(tr[1], c, q)
    ensures exists acts :: HitsWrongQueue(tr[1], c, q, acts)
    ensures forall k :: 0 <= k < s.queues && k != q ==> CanBeHit(tr[1], q, k)
    ensures exists acts, k :: GetsStuck(tr[1], k, acts)
  {
    tr := [s, Next(s, Call(c, q))];
    assert StepAt(tr, 1) by {
      assert Step(s, tr[1]);
    }
    RunFinal(tr, 1);
    var other := if q == 0 then 1 else 0;
    assert other < s.queues && other != q && other !in tr[1].inactivated;
    WrongHitExactly(tr[1], c, q);
    forall k | 0 <= k < s.queues && k != q ensures CanBeHit(tr[1], q, k) {
      LateHitExactly(tr, 1, c, q, k);
    }
    GetsStuckExactly(tr, 1, c, q);
  }
}
