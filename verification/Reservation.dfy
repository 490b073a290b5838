/** Reserving packet indices: fetch-add and compare-exchange on the write index. */
module Reservation {

  datatype Op =
    | Add(n: nat)                              // addWriteIndex
    | CompareExchange(expected: nat, value: nat)

  /** The write index after an operation. */
  function After(w: nat, op: Op): nat {
    match op
    case Add(n) => w + n
    case CompareExchange(expected, value) => if w == expected then value else w
  }

  /** Both operations return the write index they found. */
  function Returned(w: nat, op: Op): nat {
    match op
    case Add(n) => w
    case CompareExchange(expected, value) => if w == expected then expected else w
  }

  /** A producer that uses compare-exchange does not move the index back. */
  predicate Legal(op: Op) {
    op.CompareExchange? ==> op.expected <= op.value
  }

  /** Whether index x belongs to the caller of `op` that got `returned`: the caller knows no more. */
  predicate Owns(op: Op, returned: nat, x: nat) {
    match op
    case Add(n) => returned <= x < returned + n
    case CompareExchange(expected, value) => returned == expected && expected <= x < value
  }

  /** The write index after a sequence of operations on a new queue. */
  function WriteIndex(ops: seq<Op>): nat
    decreases |ops|
  {
    if ops == [] then 0 else After(WriteIndex(ops[..|ops| - 1]), ops[|ops| - 1])
  }

  /** What the i-th caller of a sequence got back. */
  function Result(ops: seq<Op>, i: nat): nat
    requires i < |ops|
  {
    Returned(WriteIndex(ops[..i]), ops[i])
  }

  /** The i-th caller owns index x. */
  predicate OwnedBy(ops: seq<Op>, i: nat, x: nat) {
    i < |ops| && Owns(ops[i], Result(ops, i), x)
  }

  /** Reservations tile the index space: below the write index every index has exactly one owner,
      and no other index has any. */
  lemma {:induction false} ReservationsTile(ops: seq<Op>, x: nat)
    requires forall i :: 0 <= i < |ops| ==> Legal(ops[i])
    ensures x < WriteIndex(ops) <==> exists i :: OwnedBy(ops, i, x)
    ensures forall i, j :: OwnedBy(ops, i, x) && OwnedBy(ops, j, x) ==> i == j
    decreases |ops|
  {
    if ops != [] {
      var n := |ops| - 1;
      var before := ops[..n];
      ReservationsTile(before, x);
      OwnedLast(ops, x);
      forall i: nat | i < n ensures OwnedBy(ops, i, x) <==> OwnedBy(before, i, x) {
        assert ops[..i] == before[..i];
      }
      if x < WriteIndex(before) {
        var i :| OwnedBy(before, i, x);
        assert OwnedBy(ops, i, x);
      } else if x < WriteIndex(ops) {
        assert OwnedBy(ops, n, x);
      }
    }
  }

  /** The last caller owns exactly what the last operation added. */
  lemma OwnedLast(ops: seq<Op>, x: nat)
    requires ops != [] && Legal(ops[|ops| - 1])
    ensures Owns(ops[|ops| - 1], Result(ops, |ops| - 1), x) <==> WriteIndex(ops[..|ops| - 1]) <= x < WriteIndex(ops)
  {
  }

  /** A failed compare-exchange is recognised by its result and reserves nothing. */
  lemma FailedExchangeReservesNothing(ops: seq<Op>, i: nat)
    requires i < |ops| && ops[i].CompareExchange? && Result(ops, i) != ops[i].expected
    ensures forall x :: !Owns(ops[i], Result(ops, i), x)
    ensures WriteIndex(ops[..i + 1]) == WriteIndex(ops[..i])
  {
    assert ops[..i + 1][..i] == ops[..i];
  }
}
