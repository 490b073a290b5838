/** Remainders, as they place a packet index in its ring slot and an address on its alignment. */
module Modular {

  /** `id % size`, as ModIsRemainder shows. The recursive form keeps the proofs that use it linear. */
  function Mod(id: nat, size: nat): (s: nat)
    requires 0 < size
    ensures s < size
    decreases id
  {
    if id < size then id else Mod(id - size, size)
  }

  /** Conversion of a 64-bit value to the `int` that holds the number of packets to check. */
  function ToInt32(x: int): int {
    (x + 0x8000_0000) % 0x1_0000_0000 - 0x8000_0000
  }

  /** The one int with the same low 32 bits. */
  lemma ToInt32Meaning(x: int, y: int)
    ensures -0x8000_0000 <= ToInt32(x) < 0x8000_0000
    ensures -0x8000_0000 <= y < 0x8000_0000 ==> (ToInt32(x) == y <==> exists k: int :: x == y + k * 0x1_0000_0000)
  {
    var k := (x + 0x8000_0000) / 0x1_0000_0000;
    assert x == ToInt32(x) + k * 0x1_0000_0000;
  }

  lemma {:induction false} ModIsRemainder(id: nat, size: nat)
    requires 0 < size
    ensures Mod(id, size) == id % size
  {
    if id < size {
      DivisionUnique(id / size, id % size, 0, id, size);
    } else {
      var k, r := id / size, id % size;
      var k', r' := (id - size) / size, (id - size) % size;
      ModIsRemainder(id - size, size);
      assert id == k * size + r;
      assert id - size == k' * size + r';
      assert (k' + 1) * size == k' * size + size;
      DivisionUnique(k, r, k' + 1, r', size);
    }
  }

  /** Quotient and remainder are unique. */
  lemma DivisionUnique(k: int, r: nat, k': int, r': nat, size: nat)
    requires r < size && r' < size
    requires k * size + r == k' * size + r'
    ensures k == k' && r == r'
  {
    if k < k' {
      Wide(k, k', size);
    } else if k' < k {
      Wide(k', k, size);
    }
  }

  lemma Wide(p: int, q: int, size: nat)
    requires p < q
    ensures p * size + size <= q * size
  {
    var d := q - p - 1;
    assert q * size == p * size + size + d * size;
    assert d * size >= 0;
  }

  lemma ModShift(a: nat, size: nat)
    requires 0 < size
    ensures Mod(a + size, size) == Mod(a, size)
  {
  }

  /** Inside one window of `size` numbers a remainder identifies its number. */
  lemma {:induction false} ModUnique(a: nat, b: nat, size: nat)
    requires 0 < size
    requires Mod(a, size) == Mod(b, size)
    requires a < b + size && b < a + size
    ensures a == b
    decreases a + b
  {
    if a >= size && b >= size {
      ModUnique(a - size, b - size, size);
    }
  }
}
