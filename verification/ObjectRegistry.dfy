/** The static registry behind HSA handles: `HSAObjectMapping`. */
module ObjectRegistry {

  /** An object's identity, its address in memory; 0 is the null pointer. */
  type Object = nat

  const NULL: Object := 0

  /** What the base destructor's erase may leave of a registry: the first entry it meets that maps to
      the object is gone, in whatever order it meets them. */
  ghost predicate Unregistered(was: map<nat, Object>, o: Object, now: map<nat, Object>) {
    if exists a :: a in was && was[a] == o then
      exists a :: a in was && was[a] == o && now == was - {a}
    else now == was
  }

  /** One object per handle: no object is registered under two handles. */
  ghost predicate Injective(registry: map<nat, Object>) {
    forall a, b :: a in registry && b in registry && registry[a] == registry[b] ==> a == b
  }

  /** What a handle finds. */
  function Lookup(registry: map<nat, Object>, handle: nat): Object {
    if handle in registry then registry[handle] else NULL
  }

  class HSAObjectMapping {
    var registry: map<nat, Object>

    constructor ()
      ensures registry == map[]
    {
      registry := map[];
    }

    /** A later registration under the same handle replaces the earlier one. */
    method RegisterObject(handle: nat, o: Object)
      modifies this
      ensures registry == old(registry)[handle := o]
    {
      registry := registry[handle := o];
    }

    method FromHSAObject(handle: nat) returns (o: Object)
      ensures o == Lookup(registry, handle)
    {
      o := NULL;
      if handle in registry {
        o := registry[handle];
      }
    }

    /** Looking up an unknown handle this way leaves a null entry behind. */
    method FromHandle(handle: nat) returns (o: Object)
      modifies this
      ensures o == Lookup(old(registry), handle)
      ensures registry == if handle in old(registry) then old(registry) else old(registry)[handle := NULL]
      ensures forall h :: Lookup(registry, h) == Lookup(old(registry), h)
    {
      if handle !in registry {
        registry := registry[handle := NULL];
      }
      o := registry[handle];
    }

    /** The base destructor: a search over the entries, in no particular order. */
    method Unregister(o: Object)
      modifies this
      ensures Unregistered(old(registry), o, registry)
    {
      var keys := registry.Keys;
      while keys != {}
        invariant keys <= registry.Keys && registry == old(registry)
        invariant forall a :: a in registry && a !in keys ==> registry[a] != o
        decreases keys
      {
        var a :| a in keys;
        if registry[a] == o {
          registry := registry - {a};
          return;
        }
        keys := keys - {a};
      }
    }

    /** Deletes the object of every entry. Deleting one runs its destructor, which erases one entry of it:
        `erased` lists the handles in that order. An object is deleted once for each handle it is
        registered under, so deletion is unique if and only if the registry is injective. */
    method GarbageCollect() returns (deleted: seq<Object>, ghost erased: seq<nat>)
      requires NULL !in registry.Values
      modifies this
      ensures registry == map[] && |deleted| == |erased|
      ensures forall a :: a in erased <==> a in old(registry)
      ensures forall i :: 0 <= i < |erased| ==> deleted[i] == old(registry)[erased[i]]
      ensures Distinct(erased) && (Distinct(deleted) <==> Injective(old(registry)))
    {
      deleted, erased := [], [];
      while registry != map[]
        invariant |deleted| == |erased| && Distinct(erased)
        invariant forall a :: a in registry ==> a in old(registry) && registry[a] == old(registry)[a]
        invariant forall a :: a in old(registry) ==> (a in erased <==> a !in registry)
        invariant forall i :: 0 <= i < |erased| ==> erased[i] in old(registry) && deleted[i] == old(registry)[erased[i]]
        decreases |registry|
      {
        ghost var was := registry;
        assert registry.Keys != {};
        var begin :| begin in registry.Keys;
        var o := registry[begin];
        deleted := deleted + [o];
        Unregister(o);
        assert was[begin] == o;
        ghost var a :| a in was && was[a] == o && registry == was - {a};
        RemoveKey(was, a);
        erased := erased + [a];
      }
      DistinctDeletions(old(registry), erased, deleted);
    }
  }

  ghost predicate Distinct(s: seq<nat>) {
    forall i, j :: 0 <= i < j < |s| ==> s[i] != s[j]
  }

  lemma RemoveKey(registry: map<nat, Object>, a: nat)
    requires a in registry
    ensures |registry - {a}| == |registry| - 1
  {
    assert (registry - {a}).Keys == registry.Keys - {a};
  }

  lemma DistinctDeletions(registry: map<nat, Object>, erased: seq<nat>, deleted: seq<Object>)
    requires Distinct(erased) && |deleted| == |erased|
    requires forall a :: a in erased <==> a in registry
    requires forall i :: 0 <= i < |erased| ==> deleted[i] == registry[erased[i]]
    ensures Distinct(deleted) <==> Injective(registry)
  {
    if Distinct(deleted) {
      forall a, b | a in registry && b in registry && registry[a] == registry[b] ensures a == b {
        var i :| 0 <= i < |erased| && erased[i] == a;
        var j :| 0 <= j < |erased| && erased[j] == b;
        assert deleted[i] == deleted[j];
      }
    }
  }

  /** One round of `garbageCollect`: delete the object of some entry. Deleting null does nothing. */
  ghost predicate Collected(was: map<nat, Object>, begin: nat, now: map<nat, Object>) {
    begin in was && if was[begin] == NULL then now == was else Unregistered(was, was[begin], now)
  }

  ghost predicate Round(was: map<nat, Object>, now: map<nat, Object>) {
    exists begin :: Collected(was, begin, now)
  }

  ghost predicate Collecting(rounds: seq<map<nat, Object>>) {
    0 < |rounds| && forall i :: 0 < i < |rounds| ==> Round(rounds[i - 1], rounds[i])
  }

  ghost predicate CollectingFrom(rounds: seq<map<nat, Object>>, registry: map<nat, Object>) {
    Collecting(rounds) && rounds[0] == registry
  }

  lemma RoundShrinks(was: map<nat, Object>, now: map<nat, Object>)
    requires NULL !in was.Values && Round(was, now)
    ensures NULL !in now.Values && |now| == |was| - 1
  {
    var begin :| Collected(was, begin, now);
    var o := was[begin];
    assert o in was.Values;
    var a :| a in was && was[a] == o && now == was - {a};
    RemoveKey(was, a);
    forall b | b in now ensures now[b] != NULL {
      assert was[b] in was.Values;
    }
  }

  lemma {:induction false} RoundsCount(rounds: seq<map<nat, Object>>, i: nat)
    requires Collecting(rounds) && i < |rounds| && NULL !in rounds[0].Values
    ensures NULL !in rounds[i].Values && |rounds[i]| == |rounds[0]| - i
  {
    if i > 0 {
      RoundsCount(rounds, i - 1);
      assert Round(rounds[i - 1], rounds[i]);
      RoundShrinks(rounds[i - 1], rounds[i]);
    }
  }

  /** The loop stops at an empty registry only. */
  lemma RoundPossible(was: map<nat, Object>) returns (now: map<nat, Object>)
    requires was != map[]
    ensures Round(was, now)
  {
    assert was.Keys != {};
    var begin :| begin in was;
    now := if was[begin] == NULL then was else was - {begin};
    assert Collected(was, begin, now);
  }

  /** `garbageCollect`, exactly. In whatever order it picks entries, it goes on until the registry is
      empty; that takes one round per entry if there is no null entry, and never happens if there is
      one, as `fromHandle` leaves for an unknown handle. */
  lemma {:induction false} CollectionEndsExactly(registry: map<nat, Object>)
    ensures NULL !in registry.Values <==>
            forall rounds :: CollectingFrom(rounds, registry) ==> |rounds| <= |registry| + 1
    ensures NULL !in registry.Values ==>
            forall rounds :: CollectingFrom(rounds, registry) && |rounds| == |registry| + 1 ==> rounds[|registry|] == map[]
    ensures NULL in registry.Values ==>
            forall rounds :: CollectingFrom(rounds, registry) ==> rounds[|rounds| - 1] != map[]
    ensures forall rounds :: CollectingFrom(rounds, registry) && rounds[|rounds| - 1] != map[] ==>
            exists now :: CollectingFrom(rounds + [now], registry)
  {
    if NULL !in registry.Values {
      forall rounds | CollectingFrom(rounds, registry)
        ensures |rounds| <= |registry| + 1 && (|rounds| == |registry| + 1 ==> rounds[|registry|] == map[])
      {
        RoundsCount(rounds, |rounds| - 1);
      }
    } else {
      var a :| a in registry && registry[a] == NULL;
      forall rounds | CollectingFrom(rounds, registry) ensures rounds[|rounds| - 1] != map[] {
        NullStays(rounds, a, |rounds| - 1);
      }
      var forever := seq(|registry| + 2, _ => registry);
      assert Collected(registry, a, registry);
      assert CollectingFrom(forever, registry);
    }
    forall rounds | CollectingFrom(rounds, registry) && rounds[|rounds| - 1] != map[]
      ensures exists now :: CollectingFrom(rounds + [now], registry)
    {
      var now := RoundPossible(rounds[|rounds| - 1]);
      GoesOn(rounds, now);
    }
  }

  lemma GoesOn(rounds: seq<map<nat, Object>>, now: map<nat, Object>)
    requires Collecting(rounds) && Round(rounds[|rounds| - 1], now)
    ensures Collecting(rounds + [now])
  {
    var longer := rounds + [now];
    forall i | 0 < i < |longer| ensures Round(longer[i - 1], longer[i]) {
      assert i < |rounds| ==> Round(rounds[i - 1], rounds[i]);
    }
  }

  lemma {:induction false} NullStays(rounds: seq<map<nat, Object>>, a: nat, i: nat)
    requires Collecting(rounds) && i < |rounds| && a in rounds[0] && rounds[0][a] == NULL
    ensures a in rounds[i] && rounds[i][a] == NULL
  {
    if i > 0 {
      NullStays(rounds, a, i - 1);
      assert Round(rounds[i - 1], rounds[i]);
    }
  }
}
