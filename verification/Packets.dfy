/** AQL packets and what the CPU kernel agent makes of a kernel dispatch packet. */
module Packets {

  /** The value of an opaque HSA handle; 0 is the null handle. */
  type Handle = nat

  /** The five dependency signals of a barrier packet. */
  type DepList = deps: seq<Handle> | |deps| == 5 witness [0, 0, 0, 0, 0]

  datatype KernelPacket = KernelPacket(
    header: nat,
    setup: nat,
    gridSizeY: nat,
    gridSizeZ: nat,
    workgroupSizeX: nat,
    workgroupSizeY: nat,
    workgroupSizeZ: nat,
    groupSegmentSize: nat,
    kernelObject: Handle)

  datatype Packet =
    | KernelDispatch(kernel: DispatchPacket, completion: Handle)
    | BarrierAnd(deps: DepList, completion: Handle)
    | BarrierOr(deps: DepList, completion: Handle)
    | Unsupported(packetType: OtherType, completion: Handle)
  {
    predicate IsBarrier() {
      BarrierAnd? || BarrierOr?
    }
  }

  const TYPE_INVALID := 1
  const TYPE_KERNEL_DISPATCH := 2
  const TYPE_BARRIER_AND := 3
  const TYPE_BARRIER_OR := 5

  /** The packet type is the low byte of the 16-bit header. */
  function PacketType(header: nat): nat {
    header % 256
  }

  /** The header's type is what makes a packet a kernel dispatch. */
  type DispatchPacket = p: KernelPacket | PacketType(p.header) == TYPE_KERNEL_DISPATCH
    witness KernelPacket(TYPE_KERNEL_DISPATCH, 1, 1, 1, 1, 1, 1, 0, 1)

  /** Vendor packets, agent dispatches and undefined types. */
  type OtherType = t: nat |
    t < 256 && t != TYPE_INVALID && t != TYPE_KERNEL_DISPATCH && t != TYPE_BARRIER_AND && t != TYPE_BARRIER_OR

  predicate IsPacketTypeValid(header: nat) {
    TYPE_INVALID < PacketType(header) <= TYPE_BARRIER_OR
  }

  /** The two low bits of the setup field give the number of dimensions. */
  predicate AreDimensionsValid(p: KernelPacket) {
    match p.setup % 4
    case 1 => p.gridSizeY == 1 && p.gridSizeZ == 1 && p.workgroupSizeY == 1 && p.workgroupSizeZ == 1
    case 2 => p.gridSizeZ == 1 && p.workgroupSizeZ == 1
    case 3 => true
    case _ => false
  }

  datatype Status = InvalidPacketFormat | IncompatibleArguments | InvalidAllocation | InvalidCodeObject

  datatype Outcome = Launched | Callback(status: Status)

  /** What becomes of a dispatch packet, given whether its kernel object is known
      and whether the group memory region could serve it. */
  function DispatchOutcome(p: KernelPacket, kernelFound: bool, groupGranted: bool): Outcome {
    var hasIterations := !(p.workgroupSizeX == 0 || p.workgroupSizeY == 0 || p.workgroupSizeZ == 0);
    var validGroupMemory := groupGranted || p.groupSegmentSize == 0;
    if kernelFound && hasIterations && AreDimensionsValid(p) && IsPacketTypeValid(p.header) && validGroupMemory then
      Launched
    else if !IsPacketTypeValid(p.header) then Callback(InvalidPacketFormat)
    else if !AreDimensionsValid(p) then Callback(IncompatibleArguments)
    else if !validGroupMemory then Callback(InvalidAllocation)
    else Callback(InvalidCodeObject)
  }

  /** The sizes along dimension k, from 0. The sizes along x are free. */
  function GridSize(p: KernelPacket, k: nat): nat
    requires 1 <= k < 3
  {
    if k == 1 then p.gridSizeY else p.gridSizeZ
  }

  function WorkgroupSize(p: KernelPacket, k: nat): nat
    requires k < 3
  {
    if k == 0 then p.workgroupSizeX else if k == 1 then p.workgroupSizeY else p.workgroupSizeZ
  }

  /** The dimensions are valid if and only if there are one to three of them and nothing extends
      along any further one. */
  lemma DimensionsMeaning(p: KernelPacket)
    ensures AreDimensionsValid(p) <==>
            && p.setup % 4 != 0
            && forall k :: p.setup % 4 <= k < 3 ==> GridSize(p, k) == 1 && WorkgroupSize(p, k) == 1
  {
    if p.setup % 4 != 0 && forall k :: p.setup % 4 <= k < 3 ==> GridSize(p, k) == 1 && WorkgroupSize(p, k) == 1 {
      assert p.setup % 4 <= 1 ==> GridSize(p, 1) == 1 && WorkgroupSize(p, 1) == 1;
      assert p.setup % 4 <= 2 ==> GridSize(p, 2) == 1 && WorkgroupSize(p, 2) == 1;
    }
  }

  /** Only the low byte of the header counts: the barrier bit and the fences above it do not. */
  lemma TypeIsLowByte(packetType: nat, rest: nat)
    requires packetType < 256
    ensures PacketType(packetType + 256 * rest) == packetType
    ensures IsPacketTypeValid(packetType + 256 * rest) <==> 2 <= packetType <= 5
  {
  }

  /** The numbers behind the types: dispatches are 2, and what is not supported is 0, 4 or above 5. */
  lemma TypeNumbers(p: DispatchPacket, t: OtherType)
    ensures p.header % 256 == 2 && (t == 0 || t == 4 || 5 < t < 256)
  {
  }

  /** What the outcome of a dispatch packet has to be, each with its exact condition. The last error also
      covers an empty work-group, although the kernel is known then. */
  ghost predicate OutcomeIs(p: KernelPacket, kernelFound: bool, groupGranted: bool, outcome: Outcome) {
    var empty := exists k :: 0 <= k < 3 && WorkgroupSize(p, k) == 0;
    var memory := groupGranted || p.groupSegmentSize == 0;
    && outcome != Callback(InvalidPacketFormat)
    && (outcome == Callback(IncompatibleArguments) <==> !AreDimensionsValid(p))
    && (outcome == Callback(InvalidAllocation) <==> AreDimensionsValid(p) && !memory)
    && (outcome == Callback(InvalidCodeObject) <==> AreDimensionsValid(p) && memory && (!kernelFound || empty))
    && (outcome == Launched <==> AreDimensionsValid(p) && memory && kernelFound && !empty)
  }

  /** A packet that was recognised as a kernel dispatch is never reported as malformed, and each other
      outcome has its exact condition. */
  lemma DispatchOutcomeMeaning(p: DispatchPacket, kernelFound: bool, groupGranted: bool)
    ensures OutcomeIs(p, kernelFound, groupGranted, DispatchOutcome(p, kernelFound, groupGranted))
  {
    assert WorkgroupSize(p, 0) == p.workgroupSizeX && WorkgroupSize(p, 1) == p.workgroupSizeY &&
           WorkgroupSize(p, 2) == p.workgroupSizeZ;
  }
}
