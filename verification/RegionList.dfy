/** Freeing a pointer without knowing its region: `Runtime::freePointer`. */
module RegionList {
  import opened FixedRegion

  /** Position of the first region that holds a chunk at p, or the number of regions. */
  function FirstOwner(rs: seq<Region>, p: nat): (f: nat)
    ensures f <= |rs| && (f < |rs| ==> Live(rs[f], p))
    ensures forall j :: 0 <= j < f ==> !Live(rs[j], p)
  {
    if rs == [] || Live(rs[0], p) then 0 else FirstOwner(rs[1..], p) + 1
  }

  /** Frees p in that region. */
  function FreeFirst(rs: seq<Region>, p: nat): (r: seq<Region>)
    ensures |r| == |rs|
  {
    var f := FirstOwner(rs, p);
    if f < |rs| then rs[f := FreeIn(rs[f], p)] else rs
  }

  ghost predicate Apart(a: Region, b: Region) {
    a.start + a.size <= b.start || b.start + b.size <= a.start
  }

  ghost predicate DisjointRegions(rs: seq<Region>) {
    && (forall i :: 0 <= i < |rs| ==> Valid(rs[i]))
    && (forall i, j :: 0 <= i < j < |rs| ==> Apart(rs[i], rs[j]))
  }

  lemma LiveInRange(r: Region, p: nat)
    requires Valid(r) && Live(r, p)
    ensures r.start <= p < r.start + r.size
  {
    var i :| 0 <= i < |r.chunks| && r.chunks[i].start == p;
    assert r.chunks[i] in r.chunks;
  }

  /** Freeing touches only the owner. Over any list of regions with disjoint address ranges, freeing
      a pointer that is live in region j changes region j alone, where it removes exactly that block;
      freeing any other pointer changes nothing. */
  lemma {:induction false} FreeTouchesOnlyOwner(rs: seq<Region>, p: nat, j: nat)
    requires DisjointRegions(rs) && j < |rs|
    ensures Live(rs[j], p) ==>
              && FreeFirst(rs, p) == rs[j := FreeIn(rs[j], p)]
              && (forall c :: c in FreeFirst(rs, p)[j].chunks <==> c in rs[j].chunks && c.start != p)
              && Valid(FreeFirst(rs, p)[j])
    ensures (forall i :: 0 <= i < |rs| ==> !Live(rs[i], p)) ==> FreeFirst(rs, p) == rs
  {
    FreeKeepsValid(rs[j], p);
    var f := FirstOwner(rs, p);
    if Live(rs[j], p) {
      LiveInRange(rs[j], p);
      LiveInRange(rs[f], p);
      assert f == j;
    }
  }

  /** The region's block at p was freed. */
  ghost predicate FreedIn(rs: seq<Region>, p: nat, j: nat)
    requires j < |rs|
  {
    Live(rs[j], p) && !Live(FreeFirst(rs, p)[j], p)
  }

  /** Whose block is freed, exactly. In any list of regions, disjoint or not, region j loses its block at
      p if and only if it has one and no earlier region does; every other region stays as it is. So
      where ranges overlap the block of the first region goes, whoever returned the pointer. */
  lemma {:induction false} FreesFirstOwnerExactly(rs: seq<Region>, p: nat, j: nat)
    requires j < |rs| && Valid(rs[j])
    ensures FreedIn(rs, p, j) <==> Live(rs[j], p) && forall i :: 0 <= i < j ==> !Live(rs[i], p)
    ensures !FreedIn(rs, p, j) ==> FreeFirst(rs, p)[j] == rs[j]
  {
    FreeKeepsValid(rs[j], p);
    var f := FirstOwner(rs, p);
    if f < |rs| && f != j {
      assert FreeFirst(rs, p)[j] == rs[j];
    }
  }

  lemma OwnerFound(rs: seq<Region>, p: nat, k: nat)
    requires k <= |rs| && (forall j :: 0 <= j < k ==> !Live(rs[j], p)) && (k < |rs| ==> Live(rs[k], p))
    ensures FirstOwner(rs, p) == k
    ensures FreeFirst(rs, p) == if k < |rs| then rs[k := FreeIn(rs[k], p)] else rs
  {
  }

  class Runtime {
    var memoryRegions: seq<FixedMemoryRegion>

    constructor (regions: seq<FixedMemoryRegion>)
      ensures memoryRegions == regions
    {
      memoryRegions := regions;
    }

    ghost predicate Distinct()
      reads this
    {
      forall i, j :: 0 <= i < j < |memoryRegions| ==> memoryRegions[i] != memoryRegions[j]
    }

    ghost function Views(): (v: seq<Region>)
      reads this, memoryRegions
      ensures |v| == |memoryRegions|
      ensures forall i :: 0 <= i < |v| ==> v[i] == memoryRegions[i].View()
    {
      seq(|memoryRegions|, i requires 0 <= i < |memoryRegions| reads this, memoryRegions => memoryRegions[i].View())
    }

    method FreePointer(p: nat)
      requires Distinct()
      modifies memoryRegions
      ensures Views() == FreeFirst(old(Views()), p)
    {
      ghost var was := Views();
      var k := 0;
      while k < |memoryRegions|
        invariant 0 <= k <= |memoryRegions|
        invariant forall i :: 0 <= i < |memoryRegions| ==> memoryRegions[i].View() == was[i]
        invariant forall j :: 0 <= j < k ==> !Live(was[j], p)
      {
        var freed := memoryRegions[k].Free(p);
        if freed {
          OwnerFound(was, p, k);
          assert Views() == was[k := FreeIn(was[k], p)];
          return;
        }
        k := k + 1;
      }
      OwnerFound(was, p, k);
      assert Views() == was;
    }
  }
}
