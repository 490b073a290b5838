/** The handle registry of signals against the reuse of signal memory.

    A signal's handle is the address of its value. Construction allocates the value and registers
    the object last; destruction frees the value first and unregisters the object afterwards, by
    looking for the object itself because its handle can no longer be computed. Any number of
    constructions and destructions interleave, and other users allocate from the same region. */
module SignalRegistry {
  import opened Modular
  import opened FixedRegion
  import opened ObjectRegistry

  const SIGNAL_SIZE := 8

  /** The life of a signal object; `addr` is `CurrentValue`. */
  datatype Phase =
    | Building(addr: nat)      // value allocated, not registered
    | Built(addr: nat)         // constructed
    | Dying(addr: nat)         // value freed, not unregistered

  datatype State = State(
    region: Region,
    registry: map<nat, Object>,
    objects: map<Object, Phase>,   // objects in memory; an object's storage may be reused once it left
    others: set<nat>)              // blocks that other users hold

  ghost predicate Init(s: State) {
    && 0 < s.region.start && 0 < s.region.size && s.region == Region.New(s.region.start, s.region.size)
    && s.registry == map[] && s.objects == map[] && s.others == {}
  }

  /** The outcome of the base destructor's erase (one, should there be several). */
  ghost function Unregister(registry: map<nat, Object>, o: Object): (r: map<nat, Object>)
    ensures Unregistered(registry, o, r)
  {
    if exists a :: a in registry && registry[a] == o then
      var a :| a in registry && registry[a] == o;
      registry - {a}
    else registry
  }

  datatype Action =
    | Allocate(o: Object)
    | Finish(o: Object)
    | ReleaseValue(o: Object)
    | Leave(o: Object)
    | OtherAllocate(size: nat, align: nat)
    | OtherFree(addr: nat)

  /** The allocation of a signal value can fail, which ends the process. */
  predicate Enabled(s: State, a: Action) {
    match a
    case Allocate(o) => o != NULL && o !in s.objects && AllocateIn(s.region, SIGNAL_SIZE, SIGNAL_SIZE).1 != 0
    case Finish(o) => o in s.objects && s.objects[o].Building?
    case ReleaseValue(o) => o in s.objects && s.objects[o].Built?
    case Leave(o) => o in s.objects && s.objects[o].Dying?
    case OtherAllocate(size, align) => 0 < size && 0 < align && AllocateIn(s.region, size, align).1 != 0
    case OtherFree(addr) => addr in s.others
  }

  ghost function Next(s: State, a: Action): State
    requires Enabled(s, a)
  {
    match a
    case Allocate(o) =>
      var (region', addr) := AllocateIn(s.region, SIGNAL_SIZE, SIGNAL_SIZE);
      s.(region := region', objects := s.objects[o := Building(addr)])
    case Finish(o) =>
      var addr := s.objects[o].addr;
      s.(registry := s.registry[addr := o], objects := s.objects[o := Built(addr)])
    case ReleaseValue(o) =>
      var addr := s.objects[o].addr;
      s.(region := FreeIn(s.region, addr), objects := s.objects[o := Dying(addr)])
    case Leave(o) => s.(registry := Unregister(s.registry, o), objects := s.objects - {o})
    case OtherAllocate(size, align) =>
      var (region', addr) := AllocateIn(s.region, size, align);
      s.(region := region', others := s.others + {addr})
    case OtherFree(addr) => s.(region := FreeIn(s.region, addr), others := s.others - {addr})
  }

  ghost predicate Step(s: State, s': State) {
    exists a :: Enabled(s, a) && s' == Next(s, a)
  }

  ghost predicate StepAt(tr: seq<State>, t: nat)
    requires 0 < t < |tr|
  {
    Step(tr[t - 1], tr[t])
  }

  ghost predicate Run(tr: seq<State>) {
    && 0 < |tr| && Init(tr[0])
    && forall t :: 0 < t < |tr| ==> StepAt(tr, t)
  }

  /** Objects whose value is allocated. */
  ghost predicate Holds(s: State, o: Object) {
    o in s.objects && !s.objects[o].Dying?
  }

  function ValueBlock(addr: nat): Chunk {
    Chunk(addr, SIGNAL_SIZE, SIGNAL_SIZE)
  }

  /** Every allocated value is a live block of its own. */
  ghost predicate MemoryOk(s: State) {
    && (forall o :: Holds(s, o) ==> Live(s.region, s.objects[o].addr) && s.objects[o].addr !in s.others)
    && (forall o :: Holds(s, o) ==> ValueBlock(s.objects[o].addr) in s.region.chunks)
    && (forall o, p :: Holds(s, o) && Holds(s, p) && o != p ==> s.objects[o].addr != s.objects[p].addr)
    && (forall a :: a in s.others ==> Live(s.region, a))
  }

  ghost predicate RegistryOk(s: State) {
    && (forall o :: o in s.objects && s.objects[o].Built? ==>
          s.objects[o].addr in s.registry && s.registry[s.objects[o].addr] == o)
    && NULL !in s.objects
    && (forall a :: a in s.registry ==>
          && s.registry[a] in s.objects && !s.objects[s.registry[a]].Building?
          && s.objects[s.registry[a]].addr == a)
  }

  ghost predicate Inv(s: State) {
    Valid(s.region) && MemoryOk(s) && RegistryOk(s)
  }

  lemma AllocateMakesLive(r: Region, size: nat, align: nat)
    requires Valid(r) && 0 < size && 0 < align && AllocateIn(r, size, align).1 != 0
    ensures var (r', a) := AllocateIn(r, size, align);
            && Valid(r') && !Live(r, a) && (forall p :: Live(r', p) <==> Live(r, p) || p == a)
            && forall c :: c in r.chunks || c == Chunk(a, size, align) ==> c in r'.chunks
  {
    var (r', a) := AllocateIn(r, size, align);
    AllocateKeepsValid(r, size, align);
    var c := Chunk(a, size, align);
    assert c in r'.chunks;
    forall p ensures Live(r', p) <==> Live(r, p) || p == a {
      LiveIsMembership(r, p);
      LiveIsMembership(r', p);
    }
  }

  lemma LiveIsMembership(r: Region, p: nat)
    ensures Live(r, p) <==> exists c :: c in r.chunks && c.start == p
  {
    if Live(r, p) {
      var i :| 0 <= i < |r.chunks| && r.chunks[i].start == p;
      assert r.chunks[i] in r.chunks;
    }
  }

  lemma FreeMakesDead(r: Region, a: nat)
    requires Valid(r)
    ensures Valid(FreeIn(r, a)) && forall p :: Live(FreeIn(r, a), p) <==> Live(r, p) && p != a
    ensures forall c :: c in r.chunks && c.start != a ==> c in FreeIn(r, a).chunks
  {
    FreeKeepsValid(r, a);
    forall p ensures Live(FreeIn(r, a), p) <==> Live(r, p) && p != a {
      LiveIsMembership(r, p);
      LiveIsMembership(FreeIn(r, a), p);
    }
  }

  lemma AllocateKeepsInv(s: State, o: Object)
    requires Inv(s) && Enabled(s, Allocate(o))
    ensures Inv(Next(s, Allocate(o)))
  {
    AllocateMakesLive(s.region, SIGNAL_SIZE, SIGNAL_SIZE);
    var s' := Next(s, Allocate(o));
    AllocateKeepsMemory(s, s', o);
    assert RegistryOk(s');
  }

  lemma AllocateKeepsMemory(s: State, s': State, o: Object)
    requires MemoryOk(s) && o !in s.objects && s'.others == s.others
    requires exists addr :: s'.objects == s.objects[o := Building(addr)] && !Live(s.region, addr)
                         && (forall p :: Live(s'.region, p) <==> Live(s.region, p) || p == addr)
                         && forall c :: c in s.region.chunks || c == ValueBlock(addr) ==> c in s'.region.chunks
    ensures MemoryOk(s')
  {
    forall p | Holds(s', p) && p != o ensures Holds(s, p) && s'.objects[p] == s.objects[p] {
    }
  }

  lemma FinishKeepsInv(s: State, o: Object)
    requires Inv(s) && Enabled(s, Finish(o))
    ensures Inv(Next(s, Finish(o)))
  {
    var s' := Next(s, Finish(o));
    assert Holds(s, o);
    assert forall p :: Holds(s', p) <==> Holds(s, p);
    forall p | p in s'.objects && s'.objects[p].Built? && p != o
      ensures s'.objects[p].addr in s'.registry && s'.registry[s'.objects[p].addr] == p
    {
      assert Holds(s, p);
    }
  }

  lemma ReleaseKeepsInv(s: State, o: Object)
    requires Inv(s) && Enabled(s, ReleaseValue(o))
    ensures Inv(Next(s, ReleaseValue(o)))
  {
    FreeMakesDead(s.region, s.objects[o].addr);
    var s' := Next(s, ReleaseValue(o));
    ReleaseKeepsMemory(s, s', o);
    assert RegistryOk(s');
  }

  lemma ReleaseKeepsMemory(s: State, s': State, o: Object)
    requires MemoryOk(s) && Holds(s, o) && s'.others == s.others
    requires s'.objects == s.objects[o := Dying(s.objects[o].addr)]
    requires forall p :: Live(s'.region, p) <==> Live(s.region, p) && p != s.objects[o].addr
    requires forall c :: c in s.region.chunks && c.start != s.objects[o].addr ==> c in s'.region.chunks
    ensures MemoryOk(s')
  {
    assert forall p :: Holds(s', p) <==> Holds(s, p) && p != o;
  }

  lemma LeaveKeepsInv(s: State, o: Object)
    requires Inv(s) && Enabled(s, Leave(o))
    ensures Inv(Next(s, Leave(o)))
  {
    var s' := Next(s, Leave(o));
    LeaveKeepsMemory(s, s', o);
    LeaveKeepsRegistry(s, s', o);
  }

  lemma LeaveKeepsMemory(s: State, s': State, o: Object)
    requires MemoryOk(s) && o in s.objects && s.objects[o].Dying?
    requires s'.objects == s.objects - {o} && s'.region == s.region && s'.others == s.others
    ensures MemoryOk(s')
  {
    assert forall p :: Holds(s', p) <==> Holds(s, p);
  }

  lemma LeaveKeepsRegistry(s: State, s': State, o: Object)
    requires RegistryOk(s) && o in s.objects && s.objects[o].Dying? && s'.objects == s.objects - {o}
    requires Unregistered(s.registry, o, s'.registry)
    ensures RegistryOk(s')
  {
    if exists a :: a in s.registry && s.registry[a] == o {
      var a :| a in s.registry && s.registry[a] == o && s'.registry == s.registry - {a};
      forall b | b in s.registry && s.registry[b] == o ensures b == a {
        assert s.objects[o].addr == b;
      }
    }
  }

  lemma OtherAllocateKeepsInv(s: State, size: nat, align: nat)
    requires Inv(s) && Enabled(s, OtherAllocate(size, align))
    ensures Inv(Next(s, OtherAllocate(size, align)))
  {
    AllocateMakesLive(s.region, size, align);
    var s' := Next(s, OtherAllocate(size, align));
    assert forall p :: Holds(s', p) <==> Holds(s, p);
  }

  lemma OtherFreeKeepsInv(s: State, addr: nat)
    requires Inv(s) && Enabled(s, OtherFree(addr))
    ensures Inv(Next(s, OtherFree(addr)))
  {
    FreeMakesDead(s.region, addr);
    var s' := Next(s, OtherFree(addr));
    assert forall p :: Holds(s', p) <==> Holds(s, p);
  }

  lemma StepKeepsInv(s: State, a: Action)
    requires Inv(s) && Enabled(s, a)
    ensures Inv(Next(s, a))
  {
    match a
    case Allocate(o) => AllocateKeepsInv(s, o);
    case Finish(o) => FinishKeepsInv(s, o);
    case ReleaseValue(o) => ReleaseKeepsInv(s, o);
    case Leave(o) => LeaveKeepsInv(s, o);
    case OtherAllocate(size, align) => OtherAllocateKeepsInv(s, size, align);
    case OtherFree(addr) => OtherFreeKeepsInv(s, addr);
  }

  lemma {:induction false} RunInv(tr: seq<State>, t: nat)
    requires Run(tr) && t < |tr|
    ensures Inv(tr[t])
  {
    if t > 0 {
      RunInv(tr, t - 1);
      assert StepAt(tr, t);
      var a :| Enabled(tr[t - 1], a) && tr[t] == Next(tr[t - 1], a);
      StepKeepsInv(tr[t - 1], a);
    }
  }

  /** Live handles resolve correctly. In every interleaving a signal that is constructed and not yet
      being destroyed is what the registry finds under its handle, even if its address was freed by a
      signal that is still registered; and the eight bytes of its value, aligned to eight, overlap those
      of no other such signal. */
  lemma {:induction false} LiveHandlesResolve(tr: seq<State>, t: nat, o: Object)
    requires Run(tr) && t < |tr| && o in tr[t].objects && tr[t].objects[o].Built?
    ensures tr[t].objects[o].addr in tr[t].registry && tr[t].registry[tr[t].objects[o].addr] == o
    ensures Live(tr[t].region, tr[t].objects[o].addr) && Mod(tr[t].objects[o].addr, 8) == 0
    ensures forall p :: p in tr[t].objects && tr[t].objects[p].Built? && p != o ==>
              tr[t].objects[p].addr + 8 <= tr[t].objects[o].addr || tr[t].objects[o].addr + 8 <= tr[t].objects[p].addr
  {
    RunInv(tr, t);
    var s := tr[t];
    assert Holds(s, o);
    forall p | p in s.objects && s.objects[p].Built? && p != o
      ensures s.objects[p].addr + 8 <= s.objects[o].addr || s.objects[o].addr + 8 <= s.objects[p].addr
    {
      assert Holds(s, p);
      BlocksApart(s.region, ValueBlock(s.objects[o].addr), ValueBlock(s.objects[p].addr));
    }
  }

  lemma BlocksApart(r: Region, c: Chunk, d: Chunk)
    requires Valid(r) && c in r.chunks && d in r.chunks && c.start != d.start
    ensures c.End() <= d.start || d.End() <= c.start
  {
    var i :| 0 <= i < |r.chunks| && r.chunks[i] == c;
    var j :| 0 <= j < |r.chunks| && r.chunks[j] == d;
  }

  /** Every entry of the registry maps to an object that is still in memory. */
  lemma {:induction false} NoDanglingEntries(tr: seq<State>, t: nat, a: nat)
    requires Run(tr) && t < |tr| && a in tr[t].registry
    ensures tr[t].registry[a] in tr[t].objects && tr[t].objects[tr[t].registry[a]].addr == a
  {
    RunInv(tr, t);
  }

  /** Why the erase goes by identity. Erasing the entry under the dying signal's handle has the same
      outcome if and only if that handle does not find another object by now; if it finds another
      signal, whose address is the reused one, only the erase by identity keeps it. */
  lemma {:induction false} EraseByHandleLosesExactly(s: State, o: Object)
    requires Inv(s) && o in s.objects && s.objects[o].Dying?
    ensures var a, registry' := s.objects[o].addr, Next(s, Leave(o)).registry;
            && (registry' == s.registry - {a} <==> a !in s.registry || s.registry[a] == o)
            && (a in s.registry && s.registry[a] != o ==> registry' == s.registry)
  {
    var a, registry' := s.objects[o].addr, Next(s, Leave(o)).registry;
    if b: nat :| b in s.registry && s.registry[b] == o {
      assert b == a;
      assert Unregistered(s.registry, o, registry');
    } else if a !in s.registry {
      assert s.registry - {a} == s.registry;
    }
  }

  // The code.

  class GCCBuiltinSignal {
    const identity: Object
    const signalMemory: FixedMemoryRegion
    const registry: HSAObjectMapping
    const currentValue: nat

    /** The value is allocated first and the object registered last. If the region cannot serve the value
        the process aborts, here with the value at address 0 and nothing registered. */
    constructor (identity: Object, region: FixedMemoryRegion, registry: HSAObjectMapping, ghost s: State)
      requires identity != NULL && identity !in s.objects
      requires Valid(region.View()) && s.region == region.View() && s.registry == registry.registry
      modifies region, registry
      ensures this.identity == identity && signalMemory == region && this.registry == registry
      ensures currentValue != 0 <==> Enabled(s, Allocate(identity))
      ensures Enabled(s, Allocate(identity)) ==>
                var s' := Next(Next(s, Allocate(identity)), Finish(identity));
                && region.View() == s'.region && registry.registry == s'.registry
                && s'.objects[identity] == Built(currentValue)
      ensures currentValue == 0 ==> registry.registry == s.registry && region.View().chunks == s.region.chunks
    {
      ValidHasNoNull(region.View());
      AllocateKeepsValid(region.View(), SIGNAL_SIZE, SIGNAL_SIZE);
      this.identity, signalMemory, this.registry := identity, region, registry;
      var addr := region.Allocate(SIGNAL_SIZE, SIGNAL_SIZE);
      currentValue := addr;
      new;
      if addr != 0 {
        registry.RegisterObject(addr, identity);
      }
    }

    /** The destructor: the value is freed. The object is still registered. */
    method FreeValue(ghost s: State)
      requires Inv(s) && s.region == signalMemory.View()
      requires identity in s.objects && s.objects[identity] == Built(currentValue)
      modifies signalMemory
      ensures signalMemory.View() == Next(s, ReleaseValue(identity)).region && Inv(Next(s, ReleaseValue(identity)))
    {
      StepKeepsInv(s, ReleaseValue(identity));
      var freed := signalMemory.Free(currentValue);
    }

    /** The base destructor, after the other: the object is unregistered, by identity. */
    method Unregister(ghost s: State)
      requires Inv(s) && s.registry == registry.registry
      requires identity in s.objects && s.objects[identity] == Dying(currentValue)
      modifies registry
      ensures registry.registry == Next(s, Leave(identity)).registry && Inv(Next(s, Leave(identity)))
    {
      StepKeepsInv(s, Leave(identity));
      registry.Unregister(identity);
      UnregisterIsUnique(s, identity, registry.registry);
    }

    /** The two in their order, with nobody else in between. */
    method Destroy(ghost s: State)
      requires Inv(s) && s.region == signalMemory.View() && s.registry == registry.registry
      requires identity in s.objects && s.objects[identity] == Built(currentValue)
      modifies signalMemory, registry
      ensures var s' := Next(Next(s, ReleaseValue(identity)), Leave(identity));
              && signalMemory.View() == s'.region && registry.registry == s'.registry
              && identity !in s'.objects && Inv(s')
    {
      ghost var freed := Next(s, ReleaseValue(identity));
      PhasesOfDestruction(s, identity);
      FreeValue(s);
      Unregister(freed);
    }
  }

  lemma PhasesOfDestruction(s: State, o: Object)
    requires o in s.objects && s.objects[o].Built?
    ensures var freed := Next(s, ReleaseValue(o));
            && freed.registry == s.registry && o in freed.objects && freed.objects[o] == Dying(s.objects[o].addr)
            && Next(freed, Leave(o)).region == freed.region && o !in Next(freed, Leave(o)).objects
  {
  }

  /** An object is registered once at most, so it does not matter which entry the search meets first. */
  lemma UnregisterIsUnique(s: State, o: Object, now: map<nat, Object>)
    requires Inv(s) && o in s.objects && Unregistered(s.registry, o, now)
    ensures now == Unregister(s.registry, o)
  {
    forall a | a in s.registry && s.registry[a] == o ensures a == s.objects[o].addr {
    }
  }

  /** `Signal::fromHSAObject`: a constructed signal is found under its handle, and nothing is found under
      an unregistered one. */
  method FindSignal(registry: HSAObjectMapping, handle: nat, ghost s: State) returns (o: Object)
    requires Inv(s) && s.registry == registry.registry
    ensures forall p :: p in s.objects && s.objects[p] == Built(handle) ==> o == p
    ensures o == NULL <==> handle !in s.registry
  {
    o := registry.FromHSAObject(handle);
  }

  // Addresses are reused.

  ghost function Then(tr: seq<State>, a: Action): (r: seq<State>)
    requires 0 < |tr| && Enabled(tr[|tr| - 1], a)
    ensures |r| == |tr| + 1 && r[..|tr|] == tr && r[|tr|] == Next(tr[|tr| - 1], a)
    ensures Run(tr) ==> Run(r)
  {
    var r := tr + [Next(tr[|tr| - 1], a)];
    assert StepAt(r, |tr|);
    assert forall t :: 0 < t < |tr| ==> StepAt(tr, t) ==> StepAt(r, t);
    r
  }

  /** An aligned request that the tail serves. */
  lemma TailServes(r: Region, align: nat)
    requires 0 < align && Mod(TailStart(r), align) == 0 && TailStart(r) + align <= r.End()
    ensures AllocateIn(r, align, align) ==
            (r.(freeSpaceStart := TailStart(r) + align, chunks := r.chunks + [Chunk(TailStart(r), align, align)]), TailStart(r))
  {
    assert AlignUp(TailStart(r), align) == TailStart(r);
  }

  /** Freeing the last chunk. */
  lemma LastFreed(r: Region, chunks: seq<Chunk>, c: Chunk)
    requires r.chunks == chunks + [c] && forall d :: d in chunks ==> d.start != c.start
    ensures FreeIn(r, c.start) == r.(chunks := chunks)
  {
    assert r.chunks == chunks + [c] + [];
    RemoveInserted(r, chunks, c, []);
    FindInserted(chunks, c, []);
    assert chunks + [] == chunks;
  }

  /** The tail has room for a signal value. */
  ghost predicate TailRoom(r: Region) {
    Valid(r) && Mod(TailStart(r), 8) == 0 && TailStart(r) + 8 <= r.End()
  }

  ghost function WithTail(r: Region): Region {
    r.(freeSpaceStart := TailStart(r) + 8, chunks := r.chunks + [Chunk(TailStart(r), 8, 8)])
  }

  /** A signal is built in the tail. */
  lemma BuildAtTail(tr: seq<State>, o: Object) returns (r: seq<State>)
    requires Run(tr) && o != NULL && o !in tr[|tr| - 1].objects && TailRoom(tr[|tr| - 1].region)
    ensures Run(r) && |r| == |tr| + 2
    ensures var (s, a) := (tr[|tr| - 1], TailStart(tr[|tr| - 1].region));
            && r[|r| - 2] == s.(region := WithTail(s.region), objects := s.objects[o := Building(a)])
            && r[|r| - 1] == s.(region := WithTail(s.region), registry := s.registry[a := o],
                                objects := s.objects[o := Built(a)])
  {
    TailAllocates(tr[|tr| - 1], o);
    var built := Then(tr, Allocate(o));
    r := Then(built, Finish(o));
    assert r[|r| - 2] == r[..|built|][|r| - 2];
  }

  lemma TailAllocates(s: State, o: Object)
    requires o != NULL && o !in s.objects && TailRoom(s.region)
    ensures Enabled(s, Allocate(o))
    ensures Next(s, Allocate(o)) == s.(region := WithTail(s.region), objects := s.objects[o := Building(TailStart(s.region))])
  {
    FreshAtTail(s.region);
    TailServes(s.region, 8);
  }

  /** This does happen. Whenever the tail of a region has room, a signal can be built there, its value
      freed, and a second signal built at the same address while the first is still registered. When
      the first one leaves, their common handle still finds the second. */
  lemma {:induction false} AddressIsReused(tr: seq<State>, o: Object, p: Object) returns (r: seq<State>)
    requires Run(tr) && o != NULL && p != NULL && o != p
    requires tr[|tr| - 1].registry == map[] && tr[|tr| - 1].objects == map[]
    requires TailRoom(tr[|tr| - 1].region) && tr[|tr| - 1].region.chunks != []
    ensures Run(r) && |r| == |tr| + 6
    ensures var a := TailStart(tr[|tr| - 1].region);
            && r[|r| - 3].objects == map[o := Dying(a), p := Building(a)] && r[|r| - 3].registry == map[a := o]
            && r[|r| - 1].objects == map[p := Built(a)] && r[|r| - 1].registry == map[a := p]
  {
    var freed := BuildAndFree(tr, o);
    var both := BuildAtTail(freed, p);
    r := Then(both, Leave(o));
    assert r[|r| - 3] == r[..|both|][|r| - 3];
    OnlyOther(both[|both| - 1], o, p, TailStart(tr[|tr| - 1].region));
  }

  /** A signal is built in the tail and its value freed. */
  lemma BuildAndFree(tr: seq<State>, o: Object) returns (r: seq<State>)
    requires Run(tr) && o != NULL
    requires tr[|tr| - 1].registry == map[] && tr[|tr| - 1].objects == map[]
    requires TailRoom(tr[|tr| - 1].region) && tr[|tr| - 1].region.chunks != []
    ensures Run(r) && |r| == |tr| + 3
    ensures var a, s' := TailStart(tr[|tr| - 1].region), r[|r| - 1];
            && TailRoom(s'.region) && TailStart(s'.region) == a
            && s'.objects == map[o := Dying(a)] && s'.registry == map[a := o]
  {
    var built := BuildAtTail(tr, o);
    FreedTail(tr[|tr| - 1].region);
    r := Then(built, ReleaseValue(o));
  }

  lemma FreedTail(r: Region)
    requires TailRoom(r) && r.chunks != []
    ensures var freed := FreeIn(WithTail(r), TailStart(r));
            TailRoom(freed) && TailStart(freed) == TailStart(r)
  {
    ValidWithTail(r);
    FreshAtTail(r);
    LastFreed(WithTail(r), r.chunks, Chunk(TailStart(r), 8, 8));
    FreeKeepsValid(WithTail(r), TailStart(r));
    assert FreeIn(WithTail(r), TailStart(r)) == r.(freeSpaceStart := TailStart(r) + 8);
  }

  lemma ValidWithTail(r: Region)
    requires TailRoom(r)
    ensures Valid(WithTail(r))
  {
    FreshAtTail(r);
    TailServes(r, 8);
    AllocateKeepsValid(r, 8, 8);
  }

  lemma OnlyOther(s: State, o: Object, p: Object, a: nat)
    requires o != p && s.registry == map[a := p] && s.objects == map[o := Dying(a), p := Built(a)]
    ensures Next(s, Leave(o)).registry == map[a := p] && Next(s, Leave(o)).objects == map[p := Built(a)]
  {
  }

  lemma FreshAtTail(r: Region)
    requires Valid(r)
    ensures 0 < TailStart(r) && forall d :: d in r.chunks ==> d.start != TailStart(r)
  {
    TailAboveChunks(r);
  }
}
