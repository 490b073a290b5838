/** The byte form of a finalized program: its ELF image, prefixed with its size and followed by the
    ISA handle, the rounding mode, the profile and the machine model. */
module CodeObject {
  import opened Modular

  type Byte = n: int | 0 <= n < 0x100
  type U32 = n: int | 0 <= n < 0x1_0000_0000
  type U64 = n: int | 0 <= n < 0x1_0000_0000_0000_0000

  datatype Program = Program(elf: seq<Byte>, isa: U64, rounding: U32, profile: U32, machine: U32)

  /** The size of an image is held in a size_t. */
  predicate Fits(p: Program) {
    |p.elf| < 0x1_0000_0000_0000_0000
  }

  // Numbers in memory.

  function Power256(width: nat): (r: nat)
    ensures r > 0
  {
    if width == 0 then 1 else 256 * Power256(width - 1)
  }

  function ByteAt(value: nat, i: nat): Byte
    decreases i
  {
    if i == 0 then value % 256 else ByteAt(value / 256, i - 1)
  }

  /** How memory holds a number: the least significant byte first. */
  function Bytes(value: nat, width: nat): (r: seq<Byte>)
    ensures |r| == width
  {
    seq(width, i requires 0 <= i => ByteAt(value, i))
  }

  lemma {:induction false} ByteAtMeaning(value: nat, i: nat)
    ensures ByteAt(value, i) == value / Power256(i) % 256
    decreases i
  {
    if i > 0 {
      ByteAtMeaning(value / 256, i - 1);
      NestedDivision(value, Power256(i - 1));
    }
  }

  lemma NestedDivision(value: nat, d: nat)
    requires 0 < d
    ensures value / 256 / d == value / (256 * d)
  {
    var q := value / 256;
    assert q == q / d * d + q % d;
    assert value == 256 * q + value % 256;
    assert value == (q / d) * (256 * d) + (256 * (q % d) + value % 256);
    QuotientUnique(value, 256 * d, q / d, 256 * (q % d) + value % 256);
  }

  lemma QuotientUnique(value: nat, d: nat, k: nat, r: nat)
    requires value == k * d + r && r < d
    ensures value / d == k
  {
    DivisionUnique(value / d, value % d, k, r, d);
  }

  /** The least significant byte comes first: byte i has weight 256 to the i. */
  lemma ByteHasWeight(value: nat, width: nat, i: nat)
    requires i < width
    ensures Bytes(value, width)[i] == value / Power256(i) % 256
  {
    ByteAtMeaning(value, i);
  }

  function Number(bytes: seq<Byte>): nat {
    if bytes == [] then 0 else bytes[0] + 256 * Number(bytes[1..])
  }

  lemma {:induction false} NumberOfBytes(value: nat, width: nat)
    requires value < Power256(width)
    ensures Number(Bytes(value, width)) == value
    decreases width
  {
    if width > 0 {
      NumberOfBytes(value / 256, width - 1);
      assert Bytes(value, width)[1..] == Bytes(value / 256, width - 1);
    }
  }

  lemma {:induction false} BytesOfNumber(bytes: seq<Byte>)
    ensures Number(bytes) < Power256(|bytes|)
    ensures Bytes(Number(bytes), |bytes|) == bytes
  {
    if bytes != [] {
      BytesOfNumber(bytes[1..]);
      var b := Bytes(Number(bytes), |bytes|);
      assert b[1..] == Bytes(Number(bytes[1..]), |bytes| - 1);
      assert bytes == [bytes[0]] + bytes[1..] && b == [b[0]] + b[1..];
    }
  }

  lemma Widths()
    ensures Power256(4) == 0x1_0000_0000
    ensures Power256(8) == 0x1_0000_0000_0000_0000
  {
    assert Power256(1) == 0x100;
    assert Power256(2) == 0x1_0000;
    assert Power256(3) == 0x100_0000;
    assert Power256(4) == 0x1_0000_0000;
    assert Power256(5) == 0x100_0000_0000;
    assert Power256(6) == 0x1_0000_0000_0000;
    assert Power256(7) == 0x100_0000_0000_0000;
  }

  // The format.

  function Length(p: Program): nat {
    |p.elf| + 28
  }

  function Tail(p: Program): (r: seq<Byte>)
    ensures |r| == 20
  {
    Bytes(p.isa, 8) + Bytes(p.rounding, 4) + Bytes(p.profile, 4) + Bytes(p.machine, 4)
  }

  function Serialized(p: Program): (r: seq<Byte>)
    ensures |r| == Length(p)
  {
    Bytes(|p.elf|, 8) + p.elf + Tail(p)
  }

  /** The number of `width` bytes at offset `at`. */
  function At(b: seq<Byte>, at: nat, width: nat): nat
    requires at + width <= |b|
  {
    Number(b[at..at + width])
  }

  /** The buffer is as long as the size in front of it says. */
  predicate Readable(b: seq<Byte>) {
    8 <= |b| && At(b, 0, 8) + 28 <= |b|
  }

  lemma AtFits(b: seq<Byte>, at: nat)
    ensures at + 4 <= |b| ==> At(b, at, 4) < 0x1_0000_0000
    ensures at + 8 <= |b| ==> At(b, at, 8) < 0x1_0000_0000_0000_0000
  {
    Widths();
    if at + 4 <= |b| {
      BytesOfNumber(b[at..at + 4]);
    }
    if at + 8 <= |b| {
      BytesOfNumber(b[at..at + 8]);
    }
  }

  lemma AtBytes(b: seq<Byte>, at: nat, width: nat, value: nat)
    requires at + width <= |b| && value < Power256(width)
    ensures b[at..at + width] == Bytes(value, width) <==> At(b, at, width) == value
  {
    NumberOfBytes(value, width);
    BytesOfNumber(b[at..at + width]);
  }

  /** The fields of p are found at their offsets in b. */
  predicate Holds(b: seq<Byte>, p: Program) {
    && Readable(b) && At(b, 0, 8) == |p.elf|
    && b[8..8 + |p.elf|] == p.elf
    && At(b, 8 + |p.elf|, 8) == p.isa
    && At(b, 16 + |p.elf|, 4) == p.rounding
    && At(b, 20 + |p.elf|, 4) == p.profile
    && At(b, 24 + |p.elf|, 4) == p.machine
  }

  lemma TailSlices(p: Program)
    ensures Tail(p)[0..8] == Bytes(p.isa, 8)
    ensures Tail(p)[8..12] == Bytes(p.rounding, 4)
    ensures Tail(p)[12..16] == Bytes(p.profile, 4)
    ensures Tail(p)[16..20] == Bytes(p.machine, 4)
  {
  }

  /** Where each part of a program lies in its byte form. */
  lemma Layout(p: Program)
    ensures var s, n := Serialized(p), |p.elf|;
            && |s| == n + 28
            && s[..8] == Bytes(n, 8) && s[8..8 + n] == p.elf
            && s[8 + n..16 + n] == Bytes(p.isa, 8)
            && s[16 + n..20 + n] == Bytes(p.rounding, 4)
            && s[20 + n..24 + n] == Bytes(p.profile, 4)
            && s[24 + n..28 + n] == Bytes(p.machine, 4)
  {
    var s, n := Serialized(p), |p.elf|;
    assert s[8 + n..28 + n] == Tail(p);
    TailAt(s, 8 + n, p);
  }

  lemma Slice(b: seq<Byte>, from: nat, to: nat, lo: nat, hi: nat)
    requires from <= to <= |b| && lo <= hi <= to - from
    ensures b[from..to][lo..hi] == b[from + lo..from + hi]
  {
    assert forall k :: 0 <= k < hi - lo ==> b[from..to][lo..hi][k] == b[from + lo..from + hi][k];
  }

  lemma TailAt(b: seq<Byte>, from: nat, p: Program)
    requires from + 20 <= |b|
    ensures b[from..from + 20] == Tail(p) <==>
            && b[from..from + 8] == Bytes(p.isa, 8)
            && b[from + 8..from + 12] == Bytes(p.rounding, 4)
            && b[from + 12..from + 16] == Bytes(p.profile, 4)
            && b[from + 16..from + 20] == Bytes(p.machine, 4)
  {
    TailSlices(p);
    Slice(b, from, from + 20, 0, 8);
    Slice(b, from, from + 20, 8, 12);
    Slice(b, from, from + 20, 12, 16);
    Slice(b, from, from + 20, 16, 20);
    var t := b[from..from + 20];
    assert t == t[0..8] + t[8..12] + t[12..16] + t[16..20];
  }

  lemma SerializedAt(b: seq<Byte>, p: Program)
    requires Length(p) <= |b|
    ensures b[..Length(p)] == Serialized(p) <==>
            && b[0..8] == Bytes(|p.elf|, 8)
            && b[8..8 + |p.elf|] == p.elf
            && b[8 + |p.elf|..28 + |p.elf|] == Tail(p)
  {
    var n := |p.elf|;
    var s, head := Serialized(p), b[..Length(p)];
    assert s[0..8] == Bytes(n, 8) && s[8..8 + n] == p.elf && s[8 + n..28 + n] == Tail(p);
    assert head[0..8] == b[0..8] && head[8..8 + n] == b[8..8 + n] && head[8 + n..28 + n] == b[8 + n..28 + n];
    assert head == head[0..8] + head[8..8 + n] + head[8 + n..28 + n];
    assert s == s[0..8] + s[8..8 + n] + s[8 + n..28 + n];
  }

  /** A buffer starts with the byte form of p if and only if p is what its offsets hold. */
  lemma SerializedIffHolds(b: seq<Byte>, p: Program)
    requires Fits(p)
    ensures Length(p) <= |b| && b[..Length(p)] == Serialized(p) <==> Holds(b, p)
  {
    var n := |p.elf|;
    Widths();
    if n + 28 <= |b| {
      SerializedAt(b, p);
      TailAt(b, 8 + n, p);
      AtBytes(b, 0, 8, n);
      AtBytes(b, 8 + n, 8, p.isa);
      AtBytes(b, 16 + n, 4, p.rounding);
      AtBytes(b, 20 + n, 4, p.profile);
      AtBytes(b, 24 + n, 4, p.machine);
    }
  }

  /** Any trailing bytes may follow: whatever is read from a buffer that starts with the byte form of p
      is p. In particular no program's byte form is a proper prefix of another's. */
  lemma RoundTrip(p: Program, q: Program, trailing: seq<Byte>, b: seq<Byte>)
    requires Fits(p) && b == Serialized(p) + trailing
    ensures Readable(b)
    ensures Holds(b, q) <==> q == p
  {
    assert b[..Length(p)] == Serialized(p);
    SerializedIffHolds(b, p);
  }

  // The code.

  /** `serializedSize`. */
  method SerializedSize(p: Program) returns (size: nat)
    ensures size == |Serialized(p)|
  {
    size := 0;
    size := size + 8;
    size := size + |p.elf|;
    size := size + 8;
    size := size + 4;
    size := size + 4;
    size := size + 4;
  }

  /** `memcpy` to the position behind the bytes already written, over what the buffer held. */
  method Append(buffer: array<Byte>, at: nat, bytes: seq<Byte>, ghost written: seq<Byte>, ghost was: seq<Byte>)
      returns (next: nat)
    requires at == |written| && at + |bytes| <= buffer.Length == |was|
    requires buffer[..] == written + was[at..]
    modifies buffer
    ensures next == |written + bytes|
    ensures buffer[..] == written + bytes + was[next..]
  {
    var i := 0;
    while i < |bytes|
      invariant 0 <= i <= |bytes|
      invariant buffer[..] == written + bytes[..i] + was[at + i..]
    {
      buffer[at + i] := bytes[i];
      i := i + 1;
    }
    next := at + |bytes|;
  }

  /** `serializeTo`: fills exactly the serialized size and leaves the rest of the buffer alone. */
  method SerializeTo(p: Program, buffer: array<Byte>)
    requires Fits(p) && |Serialized(p)| <= buffer.Length
    modifies buffer
    ensures buffer[..] == Serialized(p) + old(buffer[..])[|Serialized(p)|..]
  {
    ghost var was := buffer[..];
    ghost var s0 := Bytes(|p.elf|, 8);
    ghost var s1 := s0 + p.elf;
    ghost var s2 := s1 + Bytes(p.isa, 8);
    ghost var s3 := s2 + Bytes(p.rounding, 4);
    ghost var s4 := s3 + Bytes(p.profile, 4);
    assert s4 + Bytes(p.machine, 4) == Serialized(p);
    var at := Append(buffer, 0, Bytes(|p.elf|, 8), [], was);
    at := Append(buffer, at, p.elf, s0, was);
    at := Append(buffer, at, Bytes(p.isa, 8), s1, was);
    at := Append(buffer, at, Bytes(p.rounding, 4), s2, was);
    at := Append(buffer, at, Bytes(p.profile, 4), s3, was);
    at := Append(buffer, at, Bytes(p.machine, 4), s4, was);
  }

  /** A number copied from the buffer, and the position after it. */
  method CopyNumber(buffer: array<Byte>, at: nat, width: nat) returns (value: nat, next: nat)
    requires at + width <= buffer.Length
    ensures next == at + width && value == At(buffer[..], at, width)
  {
    value := 0;
    var i := width;
    while i > 0
      invariant 0 <= i <= width
      invariant value == Number(buffer[at + i..at + width])
    {
      i := i - 1;
      value := buffer[at + i] + 256 * value;
      assert buffer[at + i..at + width][1..] == buffer[at + i + 1..at + width];
    }
    next := at + width;
    assert buffer[..][at..next] == buffer[at..next];
  }

  /** `deserialize`: the program whose byte form the buffer starts with, whatever follows it. */
  method Deserialize(buffer: array<Byte>) returns (p: Program)
    requires Readable(buffer[..])
    ensures Fits(p) && Holds(buffer[..], p)
    ensures |Serialized(p)| <= buffer.Length && buffer[..|Serialized(p)|] == Serialized(p)
  {
    ghost var b := buffer[..];
    AtFits(b, 0);
    var size, at := CopyNumber(buffer, 0, 8);
    var elf := buffer[at..at + size];
    assert elf == b[8..8 + size];
    at := at + size;
    AtFits(b, at);
    AtFits(b, at + 8);
    AtFits(b, at + 12);
    AtFits(b, at + 16);
    var isa, rounding, profile, machine;
    isa, at := CopyNumber(buffer, at, 8);
    rounding, at := CopyNumber(buffer, at, 4);
    profile, at := CopyNumber(buffer, at, 4);
    machine, at := CopyNumber(buffer, at, 4);
    p := Program(elf, isa, rounding, profile, machine);
    SerializedIffHolds(b, p);
    assert buffer[..Length(p)] == b[..Length(p)];
  }

  /** A program written to a buffer of any size large enough is read back from it. */
  method WriteThenRead(p: Program, buffer: array<Byte>) returns (q: Program)
    requires Fits(p) && |Serialized(p)| <= buffer.Length
    modifies buffer
    ensures q == p
  {
    ghost var trailing := buffer[|Serialized(p)|..];
    SerializeTo(p, buffer);
    assert buffer[..] == Serialized(p) + trailing;
    RoundTrip(p, p, trailing, buffer[..]);
    q := Deserialize(buffer);
    RoundTrip(p, q, trailing, buffer[..]);
  }
}
