/** The queue object: its fields and the operations on its write index, proved to be steps of the queue
    protocol. */
module UserModeQueues {
  import opened QueueProtocol
  import R = Reservation

  class UserModeQueue {
    const kind: QueueType
    const slots: array<Slot>
    var readIndex: nat
    var writeIndex: nat
    var doorbell: int
    var lastHandledDoorBell: int
    var packetIsProcessed: seq<bool>
    /** The protocol state: these fields, the worker's position and the history. */
    ghost var state: Queue

    ghost predicate Valid()
      reads this, slots
    {
      && WellFormed(state)
      && state.size == slots.Length && state.kind == kind && state.slots == slots[..]
      && state.readIndex == readIndex && state.writeIndex == writeIndex
      && state.doorbell == doorbell && state.lastHandled == lastHandledDoorBell
      && state.processed == packetIsProcessed
    }

    constructor (size: nat, kind: QueueType)
      requires 0 < size < 0x8000_0000
      ensures Valid() && Init(state) && state.size == size && state.kind == kind && fresh(slots)
    {
      this.kind := kind;
      slots := new Slot[size];
      readIndex, writeIndex := 0, 0;
      doorbell, lastHandledDoorBell := NEVER_RUNG, NEVER_RUNG;
      packetIsProcessed := [];
      new;
      var i := 0;
      while i < size
        invariant 0 <= i <= size
        invariant forall s :: 0 <= s < i ==> slots[s] == Invalid
        modifies slots
      {
        slots[i] := Invalid;
        i := i + 1;
      }
      state := Queue(size, kind, slots[..], [], 0, 0, NEVER_RUNG, NEVER_RUNG, Idle,
                     map[], {}, [], [], [], None, 0, map[], false);
    }

    method AddWriteIndex(increment: nat) returns (was: nat)
      requires Valid()
      modifies this`writeIndex, this`state
      ensures Valid() && state == Next(old(state), Reserve(increment))
      ensures was == R.Returned(old(writeIndex), R.Add(increment))
      ensures writeIndex == R.After(old(writeIndex), R.Add(increment))
    {
      was := writeIndex;
      writeIndex := writeIndex + increment;
      state := Next(state, Reserve(increment));
    }

    /** Any value is accepted; one that is not below the expected index makes it a reservation. */
    method CompareExchangeWriteIndex(expected: nat, value: nat) returns (found: nat)
      requires Valid()
      modifies this`writeIndex, this`state
      ensures Valid()
      ensures state == if old(writeIndex) == expected then old(state).(writeIndex := value) else old(state)
      ensures old(writeIndex) == expected && R.Legal(R.CompareExchange(expected, value)) ==>
                state == Next(old(state), Reserve(value - expected))
      ensures found == R.Returned(old(writeIndex), R.CompareExchange(expected, value))
      ensures writeIndex == R.After(old(writeIndex), R.CompareExchange(expected, value))
    {
      found := expected;
      if writeIndex == expected {
        writeIndex := value;
        state := state.(writeIndex := value);
      } else {
        found := writeIndex;
      }
    }

    method MarkProcessed(s: nat, flag: bool)
      requires s < slots.Length && (|packetIsProcessed| == 0 || |packetIsProcessed| == slots.Length)
      modifies this`packetIsProcessed
      ensures packetIsProcessed == SetPacketProcessed(old(packetIsProcessed), slots.Length, s, flag)
    {
      if |packetIsProcessed| == 0 {
        packetIsProcessed := seq(slots.Length, _ => false);
      }
      packetIsProcessed := packetIsProcessed[s := flag];
    }
  }
}
