/**
 * The DSP_DSP system-service stubs: each service call reads its arguments
 * from the IPC command buffer and overwrites result words in place.
 * The three statics of the service (the canned-pipe cursor and the two
 * event handles) are the fields of `Interface`. Kernel calls and guest
 * memory writes are recorded, in order, as events.
 */
module DspDsp {

  type u16 = x: int | 0 <= x < 0x1_0000
  type u32 = x: int | 0 <= x < 0x1_0000_0000

  /** Virtual address of DSP RAM; the service adds 0x40000 to it. */
  const DSP_MEMORY_VADDR: u32 := 0x1FF0_0000

  /** Responses captured from hardware, handed out one per pipe read. */
  const CANNED_READ_PIPE: seq<u16> := [
    0x000F, 0xBFFF, 0x9E8E, 0x8680, 0xA78E, 0x9430, 0x8400, 0x8540,
    0x948E, 0x8710, 0x8410, 0xA90E, 0xAA0E, 0xAACE, 0xAC4E, 0xAC58
  ]

  /** Effects outside the service's own state. */
  datatype Event =
    | Write16(addr: u32, value: u16)   // Memory::Write16
    | SignalEvent(handle: u32)         // Kernel::SignalEvent

  /** Unsigned 32-bit wrap-around. */
  function Wrap32(x: int): u32 { x % 0x1_0000_0000 }

  /** `c++` on a u32. */
  function Inc32(c: u32): (r: u32)
    ensures r == Wrap32(c + 1)
  {
    if c == 0xFFFF_FFFF then 0 else c + 1
  }

  /** Subtracting the start of a u32 counter recovers how far it advanced. */
  lemma WrapDistance(a: u32, n: nat)
    requires n < 0x1_0000_0000
    ensures Wrap32(Wrap32(a + n) - a) == n
  {
    if a + n >= 0x1_0000_0000 {
      assert Wrap32(a + n) == a + n - 0x1_0000_0000;
    }
  }

  /** Advancing a wrapped cursor once more is the wrap of one more step. */
  lemma CursorStep(c: u32, start: u32, k: nat)
    requires c == Wrap32(start + k)
    ensures Inc32(c) == Wrap32(start + (k + 1))
  {
  }

  /** The byte count of `n` u16 slots, recovered from the cursor before and after them. */
  lemma BytesRead(before: u32, after: u32, n: nat)
    requires n < 0x1_0000 && after == Wrap32(before + n)
    ensures Wrap32(Wrap32(after - before) * 2) == 2 * n
  {
    WrapDistance(before, n);
  }

  /** The value `(addr << 1) + (DSP_MEMORY_VADDR + 0x40000)` as u32 arithmetic. */
  function DspDramAddress(addr: u32): (r: u32)
    ensures r == (2 * addr + 0x1FF4_0000) % 0x1_0000_0000
    ensures addr < 0x7006_0000 ==> r == 0x1FF4_0000 + 2 * addr
  {
    var shifted := Wrap32(2 * addr);
    Wrap32(shifted + (DSP_MEMORY_VADDR + 0x40000))
  }

  /** Number of loop iterations of ReadPipeIfPossible: one per started u16. */
  function PipeIterations(size: nat): (n: nat)
    ensures 2 * n >= size && 2 * n < size + 2
  {
    (size + 1) / 2
  }

  /**
   * The writes ReadPipeIfPossible makes from byte `offset` on, when the
   * cursor stands at `count`: a slot writes the canned entry only while the
   * cursor is inside the table, and every slot advances the cursor.
   */
  function PipeWrites(count: u32, addr: u32, offset: nat, size: nat): seq<Event>
    decreases size - offset
  {
    if offset >= size then []
    else PipeSlot(count, addr, offset) + PipeWrites(Inc32(count), addr, offset + 2, size)
  }

  /** The write of one slot: the table entry under the cursor, if there is one. */
  function PipeSlot(count: u32, addr: u32, offset: nat): seq<Event>
  {
    if count < |CANNED_READ_PIPE|
    then [Write16(Wrap32(addr as int + offset), CANNED_READ_PIPE[count])]
    else []
  }

  /** Peeling the first slot off the writes that follow a prefix. */
  lemma PeelSlot(before: seq<Event>, count: u32, addr: u32, offset: nat, size: nat)
    requires offset < size
    ensures before + PipeWrites(count, addr, offset, size)
         == (before + PipeSlot(count, addr, offset)) + PipeWrites(Inc32(count), addr, offset + 2, size)
  {
    var head, rest := PipeSlot(count, addr, offset), PipeWrites(Inc32(count), addr, offset + 2, size);
    assert PipeWrites(count, addr, offset, size) == head + rest;
    assert before + (head + rest) == (before + head) + rest;
  }

  /** The values of a sequence of Write16 events. */
  function WrittenValues(es: seq<Event>): seq<u16>
  {
    if es == [] then []
    else (if es[0].Write16? then [es[0].value] else []) + WrittenValues(es[1..])
  }

  lemma {:induction false} WrittenValuesAppend(a: seq<Event>, b: seq<Event>)
    ensures WrittenValues(a + b) == WrittenValues(a) + WrittenValues(b)
  {
    if a == [] {
      assert a + b == b;
    } else {
      var h := if a[0].Write16? then [a[0].value] else [];
      assert (a + b)[0] == a[0];
      assert (a + b)[1..] == a[1..] + b;
      WrittenValuesAppend(a[1..], b);
      calc {
        WrittenValues(a + b);
        h + WrittenValues(a[1..] + b);
        h + (WrittenValues(a[1..]) + WrittenValues(b));
        (h + WrittenValues(a[1..])) + WrittenValues(b);
      }
    }
  }

  function Min(a: int, b: int): int { if a <= b then a else b }

  /**
   * Absent wrap-around of the cursor, the slots from `offset` on write
   * exactly the table entries from the cursor up to the cursor plus the
   * number of remaining slots, cut off at the end of the table.
   */
  lemma {:induction false} PipeWritesFrom(count: u32, addr: u32, offset: nat, size: nat, slots: nat)
    requires size <= offset + 2 * slots < size + 2
    requires count + slots < 0x1_0000_0000
    ensures WrittenValues(PipeWrites(count, addr, offset, size))
         == CANNED_READ_PIPE[Min(count, 16)..Min(count + slots, 16)]
    decreases slots
  {
    if offset < size {
      var head := PipeSlot(count, addr, offset);
      var tail := PipeWrites(Inc32(count), addr, offset + 2, size);
      assert WrittenValues(PipeWrites(count, addr, offset, size))
          == WrittenValues(head) + WrittenValues(tail) by {
        assert PipeWrites(count, addr, offset, size) == head + tail;
        WrittenValuesAppend(head, tail);
      }
      assert WrittenValues(tail) == CANNED_READ_PIPE[Min(count + 1, 16)..Min(count + slots, 16)] by {
        assert Inc32(count) == count + 1;
        PipeWritesFrom(count + 1, addr, offset + 2, size, slots - 1);
      }
      assert WrittenValues(head) == if count < 16 then [CANNED_READ_PIPE[count]] else [];
      SlotThenRest(count, slots - 1);
    }
  }

  /** The table entry under the cursor followed by the next `rest` ones. */
  lemma SlotThenRest(count: nat, rest: nat)
    ensures (if count < 16 then [CANNED_READ_PIPE[count]] else [])
            + CANNED_READ_PIPE[Min(count + 1, 16)..Min(count + 1 + rest, 16)]
         == CANNED_READ_PIPE[Min(count, 16)..Min(count + 1 + rest, 16)]
  {
  }

  /** Absent wrap-around of the cursor, the slots from `offset` on make one write per table entry they reach. */
  lemma {:induction false} PipeWritesLength(count: u32, addr: u32, offset: nat, size: nat, slots: nat)
    requires size <= offset + 2 * slots < size + 2
    requires count + slots < 0x1_0000_0000
    ensures |PipeWrites(count, addr, offset, size)| == Min(count + slots, 16) - Min(count, 16)
    decreases slots
  {
    if offset < size {
      assert Inc32(count) == count + 1;
      PipeWritesLength(count + 1, addr, offset + 2, size, slots - 1);
    }
  }

  /** Absent wrap-around of the cursor, write `i` from `offset` on puts entry `count + i` at `addr + offset + 2i`. */
  lemma {:induction false} PipeWritesAt(count: u32, addr: u32, offset: nat, size: nat, slots: nat, i: nat)
    requires size <= offset + 2 * slots < size + 2
    requires count + slots < 0x1_0000_0000
    requires i < |PipeWrites(count, addr, offset, size)|
    ensures count + i < 16
    ensures PipeWrites(count, addr, offset, size)[i]
         == Write16(Wrap32(addr as int + offset + 2 * i), CANNED_READ_PIPE[count + i])
    decreases slots
  {
    PipeWritesLength(count, addr, offset, size, slots);
    var head := PipeSlot(count, addr, offset);
    var tail := PipeWrites(Inc32(count), addr, offset + 2, size);
    assert PipeWrites(count, addr, offset, size) == head + tail;
    assert Inc32(count) == count + 1;
    if i > 0 {
      PipeWritesAt(count + 1, addr, offset + 2, size, slots - 1, i - 1);
      assert (head + tail)[i] == tail[i - 1];
    }
  }


  /**
   * The memory side of one call: write `i` stores the canned entry
   * `count + i` at `addr + 2i`, and there is one write for each entry the
   * call reaches before the table runs out.
   */
  lemma PipeWriteAddresses(count: u32, addr: u32, size: nat, i: nat)
    requires count + PipeIterations(size) < 0x1_0000_0000
    ensures |PipeWrites(count, addr, 0, size)| == Min(count + PipeIterations(size), 16) - Min(count, 16)
    ensures i < |PipeWrites(count, addr, 0, size)| ==>
      count + i < 16 &&
      PipeWrites(count, addr, 0, size)[i] == Write16(Wrap32(addr as int + 2 * i), CANNED_READ_PIPE[count + i])
  {
    PipeWritesLength(count, addr, 0, size, PipeIterations(size));
    if i < |PipeWrites(count, addr, 0, size)| {
      PipeWritesAt(count, addr, 0, size, PipeIterations(size), i);
    }
  }

  /**
   * One call reads the canned entries from the cursor on, one per u16 slot,
   * until the table runs out.
   */
  lemma {:induction false} PipeValuesConsecutive(count: u32, addr: u32, size: nat)
    requires count + PipeIterations(size) < 0x1_0000_0000
    ensures WrittenValues(PipeWrites(count, addr, 0, size))
         == CANNED_READ_PIPE[Min(count, 16)..Min(count + PipeIterations(size), 16)]
  {
    PipeWritesFrom(count, addr, 0, size, PipeIterations(size));
  }

  /**
   * Two successive calls hand out consecutive table entries: the second
   * continues where the first stopped, whatever the two sizes are.
   */
  lemma {:induction false} SuccessiveReadsContinue(count: u32, addr1: u32, size1: nat, addr2: u32, size2: nat)
    requires count + PipeIterations(size1) + PipeIterations(size2) < 0x1_0000_0000
    ensures WrittenValues(PipeWrites(count, addr1, 0, size1))
          + WrittenValues(PipeWrites(count + PipeIterations(size1), addr2, 0, size2))
         == CANNED_READ_PIPE[Min(count, 16)..Min(count + PipeIterations(size1) + PipeIterations(size2), 16)]
  {
    var n1, n2 := PipeIterations(size1), PipeIterations(size2);
    var a, b, c := Min(count, 16), Min(count + n1, 16), Min(count + n1 + n2, 16);
    assert WrittenValues(PipeWrites(count, addr1, 0, size1)) == CANNED_READ_PIPE[a..b] by {
      PipeValuesConsecutive(count, addr1, size1);
    }
    assert WrittenValues(PipeWrites(count + n1, addr2, 0, size2)) == CANNED_READ_PIPE[b..c] by {
      PipeValuesConsecutive(count + n1, addr2, size2);
    }
    SlicesJoin(CANNED_READ_PIPE, a, b, c);
  }

  /** Adjacent slices of a sequence join into one. */
  lemma SlicesJoin(s: seq<u16>, a: nat, b: nat, c: nat)
    requires a <= b <= c <= |s|
    ensures s[a..b] + s[b..c] == s[a..c]
  {
  }

  /** ConvertProcessAddressFromDspDram: word 1 is the result, word 2 the converted address. */
  method ConvertProcessAddressFromDspDram(cmdBuff: array<u32>)
    requires cmdBuff.Length > 2
    modifies cmdBuff
    ensures cmdBuff[1] == 0
    ensures cmdBuff[2] == DspDramAddress(old(cmdBuff[1]))
    ensures forall i :: 0 <= i < cmdBuff.Length && i != 1 && i != 2 ==> cmdBuff[i] == old(cmdBuff[i])
  {
    var addr := cmdBuff[1];
    cmdBuff[1] := 0;
    cmdBuff[2] := DspDramAddress(addr);
  }

  /** LoadComponent: reports success and a loaded component without loading anything. */
  method LoadComponent(cmdBuff: array<u32>)
    requires cmdBuff.Length > 2
    modifies cmdBuff
    ensures cmdBuff[1] == 0 && cmdBuff[2] == 1
    ensures forall i :: 0 <= i < cmdBuff.Length && i != 1 && i != 2 ==> cmdBuff[i] == old(cmdBuff[i])
  {
    cmdBuff[1] := 0;
    cmdBuff[2] := 1;
  }

  /** The service's statics. */
  class Interface {
    var readPipeCount: u32
    var semaphoreEvent: u32
    var interruptEvent: u32
    /** Foreign effects, oldest first. */
    var events: seq<Event>

    /**
     * The constructor; `semaphore` is the handle Kernel::CreateEvent
     * returned for the semaphore event.
     */
    constructor (semaphore: u32)
      ensures semaphoreEvent == semaphore
      ensures interruptEvent == 0 && readPipeCount == 0
      ensures events == []
    {
      semaphoreEvent := semaphore;
      interruptEvent := 0;
      readPipeCount := 0;
      events := [];
    }

    /** GetSemaphoreEventHandle: word 1 is the result, word 3 the handle. */
    method GetSemaphoreEventHandle(cmdBuff: array<u32>)
      requires cmdBuff.Length > 3
      modifies cmdBuff
      ensures cmdBuff[1] == 0 && cmdBuff[3] == semaphoreEvent
      ensures forall i :: 0 <= i < cmdBuff.Length && i != 1 && i != 3 ==> cmdBuff[i] == old(cmdBuff[i])
    {
      cmdBuff[1] := 0;
      cmdBuff[3] := semaphoreEvent;
    }

    /** RegisterInterruptEvents: remembers the handle in word 4. */
    method RegisterInterruptEvents(cmdBuff: array<u32>)
      requires cmdBuff.Length > 4
      modifies this`interruptEvent, cmdBuff
      ensures interruptEvent == old(cmdBuff[4])
      ensures cmdBuff[1] == 0
      ensures forall i :: 0 <= i < cmdBuff.Length && i != 1 ==> cmdBuff[i] == old(cmdBuff[i])
    {
      interruptEvent := cmdBuff[4];
      cmdBuff[1] := 0;
    }

    /** WriteReg0x10: signals the registered interrupt event. */
    method WriteReg0x10(cmdBuff: array<u32>)
      requires cmdBuff.Length > 1
      modifies this`events, cmdBuff
      ensures events == old(events) + [SignalEvent(interruptEvent)]
      ensures cmdBuff[1] == 0
      ensures forall i :: 0 <= i < cmdBuff.Length && i != 1 ==> cmdBuff[i] == old(cmdBuff[i])
    {
      events := events + [SignalEvent(interruptEvent)];
      cmdBuff[1] := 0;
    }

    /**
     * ReadPipeIfPossible: one u16 slot per two bytes of the requested size
     * (the low half of word 3), written to the address in word 0x41.
     */
    method ReadPipeIfPossible(cmdBuff: array<u32>)
      requires cmdBuff.Length > 0x41
      modifies this`readPipeCount, this`events, cmdBuff
      ensures readPipeCount == Wrap32(old(readPipeCount) + PipeIterations(old(cmdBuff[3]) % 0x1_0000))
      ensures events == old(events)
                        + PipeWrites(old(readPipeCount), old(cmdBuff[0x41]), 0, old(cmdBuff[3]) % 0x1_0000)
      ensures cmdBuff[1] == 0
      ensures cmdBuff[2] == 2 * PipeIterations(old(cmdBuff[3]) % 0x1_0000)
      ensures forall i :: 0 <= i < cmdBuff.Length && i != 1 && i != 2 ==> cmdBuff[i] == old(cmdBuff[i])
    {
      var size: nat := cmdBuff[3] % 0x1_0000;
      var addr := cmdBuff[0x41];
      var initialSize := readPipeCount;
      ReadPipe(addr, size);
      BytesRead(initialSize, readPipeCount, PipeIterations(size));
      cmdBuff[1] := 0;
      cmdBuff[2] := Wrap32(Wrap32(readPipeCount - initialSize) * 2);
    }

    /** The loop of ReadPipeIfPossible over the u16 slots of `size` bytes at `addr`. */
    method ReadPipe(addr: u32, size: nat)
      requires size < 0x1_0000
      modifies this`readPipeCount, this`events
      ensures readPipeCount == Wrap32(old(readPipeCount) + PipeIterations(size))
      ensures events == old(events) + PipeWrites(old(readPipeCount), addr, 0, size)
    {
      var offset: nat := 0;
      ghost var slots: nat := 0;
      ghost var start, target := readPipeCount, events + PipeWrites(readPipeCount, addr, 0, size);
      while offset < size
        invariant offset == 2 * slots && offset <= size + 1
        invariant readPipeCount == Wrap32(start + slots)
        invariant events + PipeWrites(readPipeCount, addr, offset, size) == target
        decreases size - offset
      {
        PeelSlot(events, readPipeCount, addr, offset, size);
        CursorStep(readPipeCount, start, slots);
        ReadSlot(addr, offset);
        offset := offset + 2;
        slots := slots + 1;
      }
      assert slots == PipeIterations(size);
    }

    /** One iteration of that loop: write the entry under the cursor, if any, and advance it. */
    method ReadSlot(addr: u32, offset: nat)
      modifies this`readPipeCount, this`events
      ensures readPipeCount == Inc32(old(readPipeCount))
      ensures events == old(events) + PipeSlot(old(readPipeCount), addr, offset)
    {
      if readPipeCount < |CANNED_READ_PIPE| {
        events := events + [Write16(Wrap32(addr as int + offset), CANNED_READ_PIPE[readPipeCount])];
      }
      readPipeCount := Inc32(readPipeCount);
    }
  }
}
