/**
 * The GPU register front end: a bounds-guarded register file at physical
 * address 0x1EF00000, the memory-fill and display-transfer operations that
 * writing a trigger register starts, the command-list trigger, and the
 * line/frame counter advanced by `Update`.
 *
 * Memory is one byte array indexed by physical address (the address
 * translation of the emulator is not modelled).  The bit layout of the
 * registers is not known here: a `Layout` value names, for every register
 * field the code touches, the word that holds it, and each such field is
 * taken to occupy its whole word.
 */
module Gpu {

  type u8 = x: int | 0 <= x < 0x100
  type u32 = x: int | 0 <= x < 0x1_0000_0000
  type u64 = x: int | 0 <= x < 0x1_0000_0000_0000_0000

  /** Physical address of register word 0. */
  const REGS_BASE: u32 := 0x1EF0_0000

  /** Word indices of the two memory-fill value registers, fixed by the switch labels. */
  const FILL0_VALUE: nat := 0x4 + 0x3
  const FILL1_VALUE: nat := 0x8 + 0x3

  datatype Option<T> = None | Some(value: T)

  datatype Interrupt = PDC0 | PDC1

  /** Calls into the renderer, the kernel and the command processor, recorded in order. */
  datatype Event =
    | SwapBuffers
    | WaitVBlank
    | SignalInterrupt(id: Interrupt)
    | Reschedule
    | ProcessCommandList(address: nat, size: u32)

  function Wrap32(x: int): u32 { x % 0x1_0000_0000 }
  function Wrap64(x: int): u64 { x % 0x1_0000_0000_0000_0000 }

  // ---------------------------------------------------------------------
  // Register layout
  // ---------------------------------------------------------------------

  datatype FillRegs = FillRegs(addressStart: nat, addressEnd: nat)

  datatype FramebufferRegs = FramebufferRegs(
    addressLeft1: nat, addressLeft2: nat, addressRight1: nat, addressRight2: nat,
    width: nat, height: nat, stride: nat, colorFormat: nat, activeFb: nat)

  datatype TransferRegs = TransferRegs(
    inputAddress: nat, outputAddress: nat, inputWidth: nat, outputWidth: nat,
    outputHeight: nat, inputFormat: nat, outputFormat: nat, trigger: nat)

  datatype CommandRegs = CommandRegs(address: nat, size: nat, trigger: nat)

  /**
   * Where each field lives, how an address register decodes to a physical
   * address, and the codes of the two framebuffer formats the code names.
   */
  datatype Layout = Layout(
    numIds: nat,
    fill0: FillRegs, fill1: FillRegs,
    top: FramebufferRegs, sub: FramebufferRegs,
    transfer: TransferRegs, command: CommandRegs,
    decodeAddress: u32 -> nat,
    rgba8: u32, rgb8: u32)
  {
    /** The fields `Init` assigns, in the order it assigns them. */
    function InitFields(): seq<nat>
    {
      [top.addressLeft1, top.addressLeft2, top.addressRight1, top.addressRight2,
       sub.addressLeft1, sub.addressRight1,
       top.width, top.height, top.stride, top.colorFormat, top.activeFb,
       sub.width, sub.height, sub.stride, sub.colorFormat, sub.activeFb]
    }

    predicate Valid()
    {
      // the register window does not wrap around the 32-bit address space
      && 4 * numIds <= 0x1_0000_0000 - REGS_BASE
      && FILL0_VALUE < numIds && FILL1_VALUE < numIds
      && fill0.addressStart < numIds && fill0.addressEnd < numIds && fill1.addressStart < numIds
      && fill1.addressEnd < numIds && transfer.inputAddress < numIds && transfer.outputAddress < numIds
      && transfer.inputWidth < numIds && transfer.outputWidth < numIds && transfer.outputHeight < numIds
      && transfer.inputFormat < numIds && transfer.outputFormat < numIds && transfer.trigger < numIds
      && command.address < numIds && command.size < numIds && command.trigger < numIds
      && top.addressLeft1 < numIds && top.addressLeft2 < numIds && top.addressRight1 < numIds
      && top.addressRight2 < numIds && top.width < numIds && top.height < numIds
      && top.stride < numIds && top.colorFormat < numIds && top.activeFb < numIds
      && sub.addressLeft1 < numIds && sub.addressRight1 < numIds && sub.width < numIds
      && sub.height < numIds && sub.stride < numIds && sub.colorFormat < numIds
      && sub.activeFb < numIds
      // the switch labels are distinct
      && top.activeFb != FILL0_VALUE && top.activeFb != FILL1_VALUE
      && transfer.trigger != FILL0_VALUE && transfer.trigger != FILL1_VALUE
      && transfer.trigger != top.activeFb
      && command.trigger != FILL0_VALUE && command.trigger != FILL1_VALUE
      && command.trigger != top.activeFb && command.trigger != transfer.trigger
      // one field per word
      && Distinct(InitFields())
    }

    predicate InWindow(addr: u32)
    {
      REGS_BASE <= addr < REGS_BASE + 4 * numIds
    }
  }

  /** The register index `Read` and `Write` compute from an address. */
  function RegisterIndex(addr: u32): nat
  {
    Wrap32(addr - REGS_BASE) / 4
  }

  lemma RegisterIndexInRange(l: Layout, addr: u32)
    requires l.Valid()
    ensures RegisterIndex(addr) < l.numIds <==> l.InWindow(addr)
    ensures l.InWindow(addr) ==> RegisterIndex(addr) == (addr - REGS_BASE) / 4
  {
    if addr < REGS_BASE {
      assert Wrap32(addr - REGS_BASE) == addr - REGS_BASE + 0x1_0000_0000;
    }
  }

  // ---------------------------------------------------------------------
  // Bytes and words
  // ---------------------------------------------------------------------

  /** Byte k, least significant first, of w. */
  function ByteOf(w: u32, k: nat): u8
    requires k < 4
  {
    if k == 0 then w % 0x100
    else if k == 1 then (w / 0x100) % 0x100
    else if k == 2 then (w / 0x1_0000) % 0x100
    else w / 0x100_0000
  }

  function FromBytes(b0: u8, b1: u8, b2: u8, b3: u8): u32
  {
    b0 + 0x100 * b1 + 0x1_0000 * b2 + 0x100_0000 * b3
  }

  /** Dividing `lo + 0x100 * hi` by 0x100, for a byte `lo`. */
  lemma ByteSplit(v: int, lo: int, hi: int)
    requires 0 <= lo < 0x100 && v == lo + 0x100 * hi
    ensures v % 0x100 == lo && v / 0x100 == hi
  {
  }

  lemma HalfWordSplit(v: int, lo: int, hi: int)
    requires 0 <= lo < 0x1_0000 && v == lo + 0x1_0000 * hi
    ensures v / 0x1_0000 == hi
  {
  }

  lemma ThreeBytesSplit(v: int, lo: int, hi: int)
    requires 0 <= lo < 0x100_0000 && v == lo + 0x100_0000 * hi
    ensures v / 0x100_0000 == hi
  {
  }

  lemma BytesOfFromBytes(b0: u8, b1: u8, b2: u8, b3: u8)
    ensures var w := FromBytes(b0, b1, b2, b3);
      ByteOf(w, 0) == b0 && ByteOf(w, 1) == b1 && ByteOf(w, 2) == b2 && ByteOf(w, 3) == b3
  {
    var w := FromBytes(b0, b1, b2, b3);
    var h2 := b2 + 0x100 * b3;
    var h1 := b1 + 0x100 * h2;
    ByteSplit(w, b0, h1);
    ByteSplit(h1, b1, h2);
    HalfWordSplit(w, b0 + 0x100 * b1, h2);
    ByteSplit(h2, b2, b3);
    ThreeBytesSplit(w, b0 + 0x100 * b1 + 0x1_0000 * b2, b3);
  }

  lemma FromBytesOfBytes(w: u32)
    ensures FromBytes(ByteOf(w, 0), ByteOf(w, 1), ByteOf(w, 2), ByteOf(w, 3)) == w
  {
    var q1 := w / 0x100;
    var q2 := q1 / 0x100;
    assert w == ByteOf(w, 0) + 0x100 * q1;
    assert q1 == ByteOf(w, 1) + 0x100 * q2;
    assert q2 == w / 0x1_0000;
    assert q2 == ByteOf(w, 2) + 0x100 * ByteOf(w, 3);
  }

  /** Reverses the byte order of a 32-bit word. */
  function BSwap32(w: u32): u32
  {
    FromBytes(ByteOf(w, 3), ByteOf(w, 2), ByteOf(w, 1), ByteOf(w, 0))
  }

  lemma BSwap32Bytes(w: u32, k: nat)
    requires k < 4
    ensures ByteOf(BSwap32(w), k) == ByteOf(w, 3 - k)
  {
    BytesOfFromBytes(ByteOf(w, 3), ByteOf(w, 2), ByteOf(w, 1), ByteOf(w, 0));
  }

  lemma BSwap32Involution(w: u32)
    ensures BSwap32(BSwap32(w)) == w
  {
    BytesOfFromBytes(ByteOf(w, 3), ByteOf(w, 2), ByteOf(w, 1), ByteOf(w, 0));
    FromBytesOfBytes(w);
  }

  /** A read of memory; bytes past the end of the modelled memory read as 0. */
  function Peek(m: seq<u8>, i: int): u8
  {
    if 0 <= i < |m| then m[i] else 0
  }

  /** A byte store; stores past the end of the modelled memory are dropped. */
  function Poke(m: seq<u8>, i: int, v: u8): (r: seq<u8>)
    ensures |r| == |m|
    ensures forall j :: 0 <= j < |m| ==> r[j] == if j == i then v else m[j]
  {
    if 0 <= i < |m| then m[i := v] else m
  }

  /** Byte stores of b0, b1 and b2 at d, d + 1 and d + 2; those past the end are dropped. */
  function Store3(m: seq<u8>, d: int, b0: u8, b1: u8, b2: u8): (r: seq<u8>)
    ensures |r| == |m|
  {
    seq(|m|, j requires 0 <= j < |m| => if j == d then b0 else if j == d + 1 then b1 else if j == d + 2 then b2 else m[j])
  }

  /** The little-endian word at address a. */
  function LoadWord(m: seq<u8>, a: int): u32
  {
    FromBytes(Peek(m, a), Peek(m, a + 1), Peek(m, a + 2), Peek(m, a + 3))
  }

  /** A little-endian store of w at address a. */
  function StoreWord(m: seq<u8>, a: int, w: u32): (r: seq<u8>)
    ensures |r| == |m|
  {
    Poke(Poke(Poke(Poke(m, a, ByteOf(w, 0)), a + 1, ByteOf(w, 1)), a + 2, ByteOf(w, 2)), a + 3, ByteOf(w, 3))
  }

  lemma StoreWordThenLoad(m: seq<u8>, a: nat, w: u32)
    requires a + 4 <= |m|
    ensures LoadWord(StoreWord(m, a, w), a) == w
  {
    FromBytesOfBytes(w);
  }

  lemma StoreWordFrame(m: seq<u8>, a: nat, w: u32, i: nat)
    requires i < |m| && !(a <= i < a + 4)
    ensures StoreWord(m, a, w)[i] == m[i]
  {
  }

  // ---------------------------------------------------------------------
  // Memory fill
  // ---------------------------------------------------------------------

  datatype FillConfig = FillConfig(enabled: bool, start: nat, end: nat, value: u32)

  function FillConfigOf(l: Layout, regs: seq<u32>, second: bool): FillConfig
    requires l.Valid() && |regs| == l.numIds
  {
    var f := if second then l.fill1 else l.fill0;
    FillConfig(regs[f.addressStart] != 0,
               l.decodeAddress(regs[f.addressStart]), l.decodeAddress(regs[f.addressEnd]),
               regs[if second then FILL1_VALUE else FILL0_VALUE])
  }

  /** How many times the word pointer loop runs from start while below end. */
  function FillWordCount(start: nat, end: nat): (n: nat)
    ensures forall k: nat :: start + 4 * k < end <==> k < n
  {
    if start < end then (end - start + 3) / 4 else 0
  }

  /** The first n words from start set to w. */
  function Filled(m: seq<u8>, start: nat, n: nat, w: u32): (r: seq<u8>)
    ensures |r| == |m|
  {
    if n == 0 then m else StoreWord(Filled(m, start, n - 1, w), start + 4 * (n - 1), w)
  }

  lemma {:induction false} FilledFrame(m: seq<u8>, start: nat, n: nat, w: u32, i: nat)
    requires i < |m| && !(start <= i < start + 4 * n)
    ensures Filled(m, start, n, w)[i] == m[i]
  {
    if n > 0 {
      FilledFrame(m, start, n - 1, w, i);
    }
  }

  lemma {:induction false} FilledWords(m: seq<u8>, start: nat, n: nat, w: u32, k: nat)
    requires k < n && start + 4 * k + 4 <= |m|
    ensures LoadWord(Filled(m, start, n, w), start + 4 * k) == w
  {
    var prev := Filled(m, start, n - 1, w);
    if k == n - 1 {
      StoreWordThenLoad(prev, start + 4 * k, w);
    } else {
      FilledWords(m, start, n - 1, w, k);
      var a, b := start + 4 * k, start + 4 * (n - 1);
      StoreWordFrame(prev, b, w, a);
      StoreWordFrame(prev, b, w, a + 1);
      StoreWordFrame(prev, b, w, a + 2);
      StoreWordFrame(prev, b, w, a + 3);
    }
  }

  /** The memory after a fill with the given configuration. */
  function FillResult(m: seq<u8>, c: FillConfig): (r: seq<u8>)
    ensures |r| == |m|
  {
    if c.enabled then Filled(m, c.start, FillWordCount(c.start, c.end), BSwap32(c.value)) else m
  }

  /**
   * A fill that is enabled sets every word from start while below end to
   * the byte-swapped value, and nothing else changes; the size is not used.
   */
  lemma FillEffect(m: seq<u8>, c: FillConfig)
    ensures forall k: nat :: c.enabled && c.start + 4 * k < c.end && c.start + 4 * k + 4 <= |m| ==>
      LoadWord(FillResult(m, c), c.start + 4 * k) == BSwap32(c.value)
    ensures forall i :: 0 <= i < |m| && (!c.enabled || i < c.start || c.start + 4 * FillWordCount(c.start, c.end) <= i) ==>
      FillResult(m, c)[i] == m[i]
  {
    var n := FillWordCount(c.start, c.end);
    forall k: nat | c.enabled && c.start + 4 * k < c.end && c.start + 4 * k + 4 <= |m|
      ensures LoadWord(FillResult(m, c), c.start + 4 * k) == BSwap32(c.value)
    {
      FilledWords(m, c.start, n, BSwap32(c.value), k);
    }
    forall i | 0 <= i < |m| && (!c.enabled || i < c.start || c.start + 4 * n <= i)
      ensures FillResult(m, c)[i] == m[i]
    {
      if c.enabled {
        FilledFrame(m, c.start, n, BSwap32(c.value), i);
      }
    }
  }

  // ---------------------------------------------------------------------
  // Display transfer
  // ---------------------------------------------------------------------

  datatype TransferConfig = TransferConfig(
    input: nat, output: nat, inputWidth: u32, outputWidth: u32, outputHeight: u32,
    inputRGBA8: bool, outputRGB8: bool)

  function TransferConfigOf(l: Layout, regs: seq<u32>): TransferConfig
    requires l.Valid() && |regs| == l.numIds
  {
    var t := l.transfer;
    TransferConfig(l.decodeAddress(regs[t.inputAddress]), l.decodeAddress(regs[t.outputAddress]),
                   regs[t.inputWidth], regs[t.outputWidth], regs[t.outputHeight],
                   regs[t.inputFormat] == l.rgba8, regs[t.outputFormat] == l.rgb8)
  }

  /** Pixels per output row: the register holds twice the width. */
  function RowPixels(t: TransferConfig): nat { t.outputWidth / 2 }

  /**
   * The product a * b, written as repeated addition so that the solver
   * treats the row arithmetic by the lemmas below rather than by
   * nonlinear search.
   */
  function Mul(a: nat, b: nat): (p: nat)
  {
    if a == 0 then 0 else b + Mul(a - 1, b)
  }

  lemma {:induction false} MulIsProduct(a: nat, b: nat)
    ensures Mul(a, b) == a * b
  {
    if a > 0 {
      MulIsProduct(a - 1, b);
    }
  }

  lemma {:induction false} MulMono(a: nat, b: nat, c: nat)
    requires a <= b
    ensures Mul(a, c) <= Mul(b, c)
  {
    if a < b {
      MulMono(a, b - 1, c);
    }
  }

  /**
   * Offset of input pixel (x, y) from the input address.  The width is a
   * u32, so `y * input_width * 4` wraps before it is halved, and adding
   * `x * 4` wraps again.
   */
  function SourceOffset(t: TransferConfig, x: nat, y: nat): u32
  {
    Wrap32(x * 4 + Wrap32(Mul(y, t.inputWidth) * 4) / 2)
  }

  /** Start of output row y, with the same u32 wrap before the halving. */
  function RowStart(t: TransferConfig, y: nat): u32
  {
    Wrap32(Mul(y, t.outputWidth) * 3) / 2
  }

  function DestOffset(t: TransferConfig, x: nat, y: nat): u32
  {
    Wrap32(x * 3 + RowStart(t, y))
  }

  /**
   * No offset of the transfer reaches 2^32: the byte counts of all the
   * output rows and of all the input rows, and the last input pixel, stay
   * below it.
   */
  predicate OffsetsFit(t: TransferConfig)
  {
    && Mul(t.outputHeight, t.outputWidth) * 3 < 0x1_0000_0000
    && Mul(t.outputHeight, t.inputWidth) * 4 < 0x1_0000_0000
    && RowPixels(t) * 4 + Mul(t.outputHeight, t.inputWidth) * 2 < 0x1_0000_0000
  }

  /** When the offsets fit, row y starts at `y * output_width * 3 / 2`. */
  lemma RowStartFits(t: TransferConfig, y: nat)
    requires OffsetsFit(t) && y <= t.outputHeight
    ensures RowStart(t, y) == Mul(y, t.outputWidth) * 3 / 2
  {
    MulMono(y, t.outputHeight, t.outputWidth);
  }

  /** When the offsets fit, pixel x of row y is `3x` past the row start. */
  lemma DestOffsetFits(t: TransferConfig, x: nat, y: nat)
    requires OffsetsFit(t) && x < RowPixels(t) && y < t.outputHeight
    ensures DestOffset(t, x, y) == x * 3 + RowStart(t, y)
  {
    RowsDoNotOverlap(t, y, y + 1);
    RowStartFits(t, y + 1);
  }

  /** When the offsets fit, input pixel (x, y) is at `x*4 + y*input_width*2`. */
  lemma SourceOffsetFits(t: TransferConfig, x: nat, y: nat)
    requires OffsetsFit(t) && x < RowPixels(t) && y < t.outputHeight
    ensures SourceOffset(t, x, y) == x * 4 + Mul(y, t.inputWidth) * 2
  {
    MulMono(y, t.outputHeight, t.inputWidth);
    var row := Mul(y, t.inputWidth);
    assert Wrap32(row * 4) == row * 4;
    assert Wrap32(row * 4) / 2 == row * 2;
    assert x * 4 + row * 2 < 0x1_0000_0000;
  }

  /**
   * The wrap is real: with an output width of 2^31, row 1 starts at
   * 2^30, not at 3 * 2^30.
   */
  lemma RowStartWraps(t: TransferConfig)
    requires t.outputWidth == 0x8000_0000
    ensures RowStart(t, 1) == 0x4000_0000
  {
    assert Mul(1, t.outputWidth) == 0x8000_0000;
  }

  /** Component k (r, g, b = source bytes 0, 1, 2) of the source colour. */
  function SourceByte(m: seq<u8>, t: TransferConfig, x: nat, y: nat, k: nat): u8
  {
    if t.inputRGBA8 then Peek(m, t.input + SourceOffset(t, x, y) + k) else 0
  }

  /** One iteration of the inner loop: read the colour, then store three bytes. */
  function TransferPixel(m: seq<u8>, t: TransferConfig, x: nat, y: nat): (r: seq<u8>)
    ensures |r| == |m|
  {
    if t.outputRGB8 then
      var r, g, b := SourceByte(m, t, x, y, 0), SourceByte(m, t, x, y, 1), SourceByte(m, t, x, y, 2);
      Store3(m, t.output + DestOffset(t, x, y), r, g, b)
    else
      m
  }

  /** The first x pixels of row y. */
  function TransferRow(m: seq<u8>, t: TransferConfig, y: nat, x: nat): (r: seq<u8>)
    ensures |r| == |m|
  {
    if x == 0 then m else TransferPixel(TransferRow(m, t, y, x - 1), t, x - 1, y)
  }

  /** The first y rows. */
  function TransferRows(m: seq<u8>, t: TransferConfig, y: nat): (r: seq<u8>)
    ensures |r| == |m|
  {
    if y == 0 then m else TransferRow(TransferRows(m, t, y - 1), t, y - 1, RowPixels(t))
  }

  function Transferred(m: seq<u8>, t: TransferConfig): (r: seq<u8>)
    ensures |r| == |m|
  {
    TransferRows(m, t, t.outputHeight)
  }

  /** Bytes the transfer may read, counted from the input address. */
  function SourceSpan(t: TransferConfig): nat
  {
    if RowPixels(t) == 0 || t.outputHeight == 0 then 0
    else SourceOffset(t, RowPixels(t) - 1, t.outputHeight - 1) + 3
  }

  /** Row y ends before any later row starts. */
  lemma RowsDoNotOverlap(t: TransferConfig, y: nat, y2: nat)
    requires OffsetsFit(t) && y < y2 <= t.outputHeight
    ensures RowStart(t, y) + 3 * RowPixels(t) <= RowStart(t, y2)
  {
    RowStartFits(t, y);
    RowStartFits(t, y2);
    MulMono(y + 1, y2, t.outputWidth);
    assert Mul(y + 1, t.outputWidth) == t.outputWidth + Mul(y, t.outputWidth);
  }

  lemma SourceWithinSpan(t: TransferConfig, x: nat, y: nat)
    requires OffsetsFit(t) && x < RowPixels(t) && y < t.outputHeight
    ensures SourceOffset(t, x, y) + 3 <= SourceSpan(t)
  {
    SourceOffsetFits(t, x, y);
    SourceOffsetFits(t, RowPixels(t) - 1, t.outputHeight - 1);
    MulMono(y, t.outputHeight - 1, t.inputWidth);
  }

  lemma {:induction false} RowFrame(m: seq<u8>, t: TransferConfig, y: nat, x: nat, i: nat)
    requires OffsetsFit(t) && x <= RowPixels(t) && y < t.outputHeight && i < |m|
    requires i < t.output + RowStart(t, y) || t.output + RowStart(t, y) + 3 * x <= i
    ensures TransferRow(m, t, y, x)[i] == m[i]
  {
    if x > 0 {
      DestOffsetFits(t, x - 1, y);
      RowFrame(m, t, y, x - 1, i);
    }
  }

  lemma {:induction false} RowsFrame(m: seq<u8>, t: TransferConfig, y: nat, i: nat)
    requires OffsetsFit(t) && y <= t.outputHeight && i < |m|
    requires i < t.output || t.output + RowStart(t, y) <= i
    ensures TransferRows(m, t, y)[i] == m[i]
  {
    if y > 0 {
      RowsDoNotOverlap(t, y - 1, y);
      RowFrame(TransferRows(m, t, y - 1), t, y - 1, RowPixels(t), i);
      RowsFrame(m, t, y - 1, i);
    }
  }

  /** Byte k of pixel x holds what was read when pixel x was reached. */
  lemma {:induction false} RowWritten(m: seq<u8>, t: TransferConfig, y: nat, n: nat, x: nat, k: nat)
    requires OffsetsFit(t) && t.outputRGB8 && x < n <= RowPixels(t) && y < t.outputHeight && k < 3
    requires t.output + DestOffset(t, x, y) + k < |m|
    ensures TransferRow(m, t, y, n)[t.output + DestOffset(t, x, y) + k]
         == SourceByte(TransferRow(m, t, y, x), t, x, y, k)
  {
    if x < n - 1 {
      DestOffsetFits(t, x, y);
      DestOffsetFits(t, n - 1, y);
      RowWritten(m, t, y, n - 1, x, k);
    }
  }

  lemma {:induction false} RowsWritten(m: seq<u8>, t: TransferConfig, n: nat, x: nat, y: nat, k: nat)
    requires OffsetsFit(t) && t.outputRGB8 && x < RowPixels(t) && y < n <= t.outputHeight && k < 3
    requires t.output + DestOffset(t, x, y) + k < |m|
    ensures TransferRows(m, t, n)[t.output + DestOffset(t, x, y) + k]
         == SourceByte(TransferRow(TransferRows(m, t, y), t, y, x), t, x, y, k)
  {
    var i := t.output + DestOffset(t, x, y) + k;
    var before := TransferRows(m, t, n - 1);
    assert TransferRows(m, t, n) == TransferRow(before, t, n - 1, RowPixels(t));
    if y == n - 1 {
      assert TransferRows(m, t, y) == before;
      RowWritten(before, t, y, RowPixels(t), x, k);
      assert TransferRows(m, t, n)[i] == TransferRow(before, t, y, RowPixels(t))[i];
    } else {
      assert i < t.output + RowStart(t, n - 1) by {
        DestOffsetFits(t, x, y);
        RowsDoNotOverlap(t, y, n - 1);
      }
      assert TransferRow(before, t, n - 1, RowPixels(t))[i] == before[i] by {
        RowFrame(before, t, n - 1, RowPixels(t), i);
      }
      RowsWritten(m, t, n - 1, x, y, k);
      assert TransferRows(m, t, n)[i] == before[i];
    }
  }

  /** What the transfer stores at byte k of output pixel (x, y): the source byte as the memory held it then. */
  lemma TransferStores(m: seq<u8>, t: TransferConfig, x: nat, y: nat, k: nat)
    requires OffsetsFit(t) && t.inputRGBA8 && t.outputRGB8
    requires x < RowPixels(t) && y < t.outputHeight && k < 3
    requires t.output + DestOffset(t, x, y) + k < |m|
    ensures Transferred(m, t)[t.output + DestOffset(t, x, y) + k]
         == Peek(TransferRow(TransferRows(m, t, y), t, y, x), t.input + SourceOffset(t, x, y) + k)
  {
    RowsWritten(m, t, t.outputHeight, x, y, k);
  }

  /** A byte outside the output area, and outside rows y and later, is what it was before the transfer. */
  lemma TransferKeeps(m: seq<u8>, t: TransferConfig, y: nat, x: nat, i: nat)
    requires OffsetsFit(t) && x <= RowPixels(t) && y < t.outputHeight && i < |m|
    requires i < t.output || t.output + RowStart(t, y) + 3 * x <= i
    ensures TransferRow(TransferRows(m, t, y), t, y, x)[i] == m[i]
  {
    var rows := TransferRows(m, t, y);
    assert TransferRow(rows, t, y, x)[i] == rows[i] by {
      RowFrame(rows, t, y, x, i);
    }
    RowsFrame(m, t, y, i);
  }

  /**
   * RGBA8 to RGB8 with the input and output areas apart: byte k < 3 of
   * output pixel (x, y) is byte k of input pixel (x, y); alpha is dropped.
   */
  lemma TransferCopiesPixels(m: seq<u8>, t: TransferConfig, x: nat, y: nat, k: nat)
    requires OffsetsFit(t) && t.inputRGBA8 && t.outputRGB8
    requires x < RowPixels(t) && y < t.outputHeight && k < 3
    requires t.output + RowStart(t, t.outputHeight) <= |m| && t.input + SourceSpan(t) <= |m|
    requires t.output + RowStart(t, t.outputHeight) <= t.input || t.input + SourceSpan(t) <= t.output
    ensures t.output + DestOffset(t, x, y) + k < |m| && t.input + SourceOffset(t, x, y) + k < |m|
    ensures Transferred(m, t)[t.output + DestOffset(t, x, y) + k] == m[t.input + SourceOffset(t, x, y) + k]
  {
    var h := t.outputHeight;
    var src := t.input + SourceOffset(t, x, y) + k;
    assert RowStart(t, y) + 3 * RowPixels(t) <= RowStart(t, h) by {
      RowsDoNotOverlap(t, y, h);
    }
    DestOffsetFits(t, x, y);
    assert src < t.input + SourceSpan(t) by {
      SourceWithinSpan(t, x, y);
    }
    var d := t.output + DestOffset(t, x, y) + k;
    var mid := TransferRow(TransferRows(m, t, y), t, y, x);
    TransferStores(m, t, x, y, k);
    assert mid[src] == m[src] by {
      TransferKeeps(m, t, y, x, src);
    }
  }

  /** An unknown input format contributes zeros. */
  lemma TransferUnknownInput(m: seq<u8>, t: TransferConfig, x: nat, y: nat, k: nat)
    requires OffsetsFit(t) && !t.inputRGBA8 && t.outputRGB8
    requires x < RowPixels(t) && y < t.outputHeight && k < 3
    requires t.output + RowStart(t, t.outputHeight) <= |m|
    ensures t.output + DestOffset(t, x, y) + k < |m|
    ensures Transferred(m, t)[t.output + DestOffset(t, x, y) + k] == 0
  {
    DestOffsetFits(t, x, y);
    RowsDoNotOverlap(t, y, t.outputHeight);
    RowsWritten(m, t, t.outputHeight, x, y, k);
  }

  /** Bytes outside the output area are never written. */
  lemma TransferFrame(m: seq<u8>, t: TransferConfig, i: nat)
    requires OffsetsFit(t) && i < |m| && (i < t.output || t.output + RowStart(t, t.outputHeight) <= i)
    ensures Transferred(m, t)[i] == m[i]
  {
    RowsFrame(m, t, t.outputHeight, i);
  }

  /** An unknown output format writes nothing. */
  lemma {:induction false} TransferUnknownOutput(m: seq<u8>, t: TransferConfig, y: nat)
    requires !t.outputRGB8
    ensures TransferRows(m, t, y) == m
  {
    if y > 0 {
      TransferUnknownOutputRow(TransferRows(m, t, y - 1), t, y - 1, RowPixels(t));
      TransferUnknownOutput(m, t, y - 1);
    }
  }

  lemma {:induction false} TransferUnknownOutputRow(m: seq<u8>, t: TransferConfig, y: nat, x: nat)
    requires !t.outputRGB8
    ensures TransferRow(m, t, y, x) == m
  {
    if x > 0 {
      TransferUnknownOutputRow(m, t, y, x - 1);
    }
  }

  // ---------------------------------------------------------------------
  // Register writes
  // ---------------------------------------------------------------------

  function CommandListEvent(l: Layout, regs: seq<u32>): Event
    requires l.Valid() && |regs| == l.numIds
  {
    ProcessCommandList(l.decodeAddress(regs[l.command.address]), Wrap32(regs[l.command.size] as int * 8))
  }

  predicate Triggered(l: Layout, regs: seq<u32>, index: nat)
    requires |regs| == l.numIds && index < l.numIds
  {
    regs[index] % 2 == 1
  }

  /** Memory after the trigger dispatch of a write to register index. */
  function MemoryAfterWrite(l: Layout, m: seq<u8>, regs: seq<u32>, index: nat): seq<u8>
    requires l.Valid() && |regs| == l.numIds && index < l.numIds
  {
    if index == FILL0_VALUE || index == FILL1_VALUE then
      FillResult(m, FillConfigOf(l, regs, index != FILL0_VALUE))
    else if index == l.transfer.trigger && Triggered(l, regs, index) then
      Transferred(m, TransferConfigOf(l, regs))
    else
      m
  }

  /** Calls made by the trigger dispatch of a write to register index. */
  function EventsOfWrite(l: Layout, regs: seq<u32>, index: nat): seq<Event>
    requires l.Valid() && |regs| == l.numIds && index < l.numIds
  {
    if index == FILL0_VALUE || index == FILL1_VALUE then []
    else if index == l.top.activeFb then [SwapBuffers, WaitVBlank]
    else if index == l.transfer.trigger then []
    else if index == l.command.trigger && Triggered(l, regs, index) then [CommandListEvent(l, regs)]
    else []
  }

  /** Writes to registers that are not triggers only store the word. */
  lemma PlainRegisterWrite(l: Layout, m: seq<u8>, regs: seq<u32>, index: nat)
    requires l.Valid() && |regs| == l.numIds && index < l.numIds
    requires index != FILL0_VALUE && index != FILL1_VALUE && index != l.top.activeFb
    requires index != l.transfer.trigger && index != l.command.trigger
    ensures MemoryAfterWrite(l, m, regs, index) == m && EventsOfWrite(l, regs, index) == []
  {
  }

  /** A trigger word with bit 0 clear only stores the word. */
  lemma UntriggeredWrite(l: Layout, m: seq<u8>, regs: seq<u32>, index: nat)
    requires l.Valid() && |regs| == l.numIds && index < l.numIds
    requires index == l.transfer.trigger || index == l.command.trigger
    requires regs[index] % 2 == 0
    ensures MemoryAfterWrite(l, m, regs, index) == m && EventsOfWrite(l, regs, index) == []
  {
  }

  // ---------------------------------------------------------------------
  // The line counter
  // ---------------------------------------------------------------------

  /** Whether a line's worth of ticks has passed since the last line. */
  predicate LineElapsed(current: u64, last: u64, frameTicks: nat, height: u32)
    requires height > 0
  {
    Wrap64(current - last) >= frameTicks / height
  }

  /** The current line after `Update`, given whether a line elapsed. */
  function NextLine(line: u32, height: u32, elapsed: bool): (r: u32)
    requires height > 0
    ensures r < height
  {
    var advanced := if elapsed then Wrap32(line + 1) else line;
    if advanced >= height then 0 else advanced
  }

  /** Whether `Update` ends a frame. */
  predicate FrameEnds(line: u32, height: u32, elapsed: bool)
  {
    (if elapsed then Wrap32(line + 1) else line) >= height
  }

  function UpdateEvents(line: u32, height: u32, elapsed: bool): seq<Event>
  {
    (if elapsed then [SignalInterrupt(PDC0)] else [])
    + (if FrameEnds(line, height, elapsed) then [SignalInterrupt(PDC1), SwapBuffers, WaitVBlank, Reschedule] else [])
  }

  /** From a line inside the frame the counter advances modulo the height. */
  lemma LineCounterCycles(line: u32, height: u32, elapsed: bool)
    requires 0 < height && line < height
    ensures NextLine(line, height, elapsed) == (line + (if elapsed then 1 else 0)) % height
    ensures FrameEnds(line, height, elapsed) <==> elapsed && line + 1 == height
  {
    if elapsed && line + 1 < height {
      ModSmall(line + 1, height);
    } else if elapsed {
      ModSelf(height);
    } else {
      ModSmall(line, height);
    }
  }

  lemma ModSmall(a: int, n: int)
    requires 0 <= a < n
    ensures a % n == a
  {
  }

  lemma ModSelf(n: int)
    requires 0 < n
    ensures n % n == 0
  {
  }

  // ---------------------------------------------------------------------
  // Initial framebuffer setup
  // ---------------------------------------------------------------------

  predicate Distinct(f: seq<nat>)
  {
    forall i, j :: 0 <= i < j < |f| ==> f[i] != f[j]
  }

  /** Word stores f[0] := v[0], then f[1] := v[1], and so on. */
  function Stores(r: seq<u32>, f: seq<nat>, v: seq<u32>): (r': seq<u32>)
    requires |f| == |v| && forall i :: 0 <= i < |f| ==> f[i] < |r|
    ensures |r'| == |r|
  {
    if |f| == 0 then r
    else Stores(r, f[..|f| - 1], v[..|v| - 1])[f[|f| - 1] := v[|v| - 1]]
  }

  /** With distinct words, each word holds the value stored to it and the rest keep theirs. */
  lemma {:induction false} StoresEffect(r: seq<u32>, f: seq<nat>, v: seq<u32>)
    requires |f| == |v| && forall i :: 0 <= i < |f| ==> f[i] < |r|
    requires Distinct(f)
    ensures forall p :: 0 <= p < |f| ==> Stores(r, f, v)[f[p]] == v[p]
    ensures forall i :: 0 <= i < |r| && i !in f ==> Stores(r, f, v)[i] == r[i]
  {
    if |f| > 0 {
      var n := |f| - 1;
      StoresEffect(r, f[..n], v[..n]);
    }
  }

  /** The values `Init` stores, in the order of `InitFields`. */
  function InitValues(l: Layout): seq<u32>
  {
    [0x181E_6000, 0x1822_C800, 0x1827_3000, 0x182B_9800, 0x1848_F000, 0x184C_7800,
     480, 400, 480 * 3, l.rgb8, 0,
     480, 400, 480 * 3, l.rgb8, 0]
  }

  /** The register file after the stores of `Init`. */
  function InitRegisters(l: Layout, r: seq<u32>): (r': seq<u32>)
    requires l.Valid() && |r| == l.numIds
    ensures |r'| == |r|
  {
    Stores(r, l.InitFields(), InitValues(l))
  }

  /**
   * Both framebuffers end up 480 wide, 400 high, with stride 480*3, format
   * RGB8 and buffer 0 active, at the default addresses; no other word changes.
   */
  lemma InitRegistersEffect(l: Layout, r: seq<u32>)
    requires l.Valid() && |r| == l.numIds
    ensures var r' := InitRegisters(l, r);
      && r'[l.top.addressLeft1] == 0x181E_6000 && r'[l.top.addressLeft2] == 0x1822_C800
      && r'[l.top.addressRight1] == 0x1827_3000 && r'[l.top.addressRight2] == 0x182B_9800
      && r'[l.sub.addressLeft1] == 0x1848_F000 && r'[l.sub.addressRight1] == 0x184C_7800
      && r'[l.top.width] == 480 && r'[l.top.height] == 400 && r'[l.top.stride] == 480 * 3
      && r'[l.top.colorFormat] == l.rgb8 && r'[l.top.activeFb] == 0
      && r'[l.sub.width] == 480 && r'[l.sub.height] == 400 && r'[l.sub.stride] == 480 * 3
      && r'[l.sub.colorFormat] == l.rgb8 && r'[l.sub.activeFb] == 0
    ensures forall i :: 0 <= i < |r| && i !in l.InitFields() ==> InitRegisters(l, r)[i] == r[i]
  {
    InitFieldsNamed(l);
    InitFieldsBelow(l);
    StoresEffect(r, l.InitFields(), InitValues(l));
  }

  /** Names the entries of `InitFields`. */
  lemma InitFieldsNamed(l: Layout)
    ensures var f := l.InitFields();
      && |f| == 16
      && f[0] == l.top.addressLeft1 && f[1] == l.top.addressLeft2
      && f[2] == l.top.addressRight1 && f[3] == l.top.addressRight2
      && f[4] == l.sub.addressLeft1 && f[5] == l.sub.addressRight1
      && f[6] == l.top.width && f[7] == l.top.height && f[8] == l.top.stride
      && f[9] == l.top.colorFormat && f[10] == l.top.activeFb
      && f[11] == l.sub.width && f[12] == l.sub.height && f[13] == l.sub.stride
      && f[14] == l.sub.colorFormat && f[15] == l.sub.activeFb
  {
  }

  /** Every field `Init` assigns is a word of the register file. */
  lemma InitFieldsBelow(l: Layout)
    requires l.Valid()
    ensures forall i :: 0 <= i < |l.InitFields()| ==> l.InitFields()[i] < l.numIds
  {
    var f := l.InitFields();
    forall i | 0 <= i < |f|
      ensures f[i] < l.numIds
    {
      if i < 4 {
        assert f[i] in [f[0], f[1], f[2], f[3]];
      } else if i < 8 {
        assert f[i] in [f[4], f[5], f[6], f[7]];
      } else if i < 12 {
        assert f[i] in [f[8], f[9], f[10], f[11]];
      } else {
        assert f[i] in [f[12], f[13], f[14], f[15]];
      }
    }
  }

  // ---------------------------------------------------------------------
  // The hardware state
  // ---------------------------------------------------------------------

  class Gpu {
    const layout: Layout
    /** Ticks per frame, a constant of the emulator. */
    const frameTicks: nat
    /** The register file. */
    var regs: seq<u32>
    /** Physical memory, byte-addressed. */
    const mem: array<u8>
    var curLine: u32
    var lastLineTicks: u64
    var events: seq<Event>

    ghost predicate Valid()
      reads this
    {
      layout.Valid() && |regs| == layout.numIds
    }

    constructor (layout: Layout, frameTicks: nat, mem: array<u8>)
      requires layout.Valid()
      ensures Valid()
      ensures this.layout == layout && this.frameTicks == frameTicks && this.mem == mem
      ensures regs == seq(layout.numIds, _ => 0)
      ensures curLine == 0 && lastLineTicks == 0 && events == []
    {
      this.layout := layout;
      this.frameTicks := frameTicks;
      this.mem := mem;
      this.regs := seq(layout.numIds, _ => 0);
      curLine := 0;
      lastLineTicks := 0;
      events := [];
    }

    /** A register read; None leaves the caller's variable as it was. */
    method Read(rawAddr: u32, width: nat) returns (value: Option<u32>)
      requires Valid()
      ensures value.Some? <==> width == 32 && layout.InWindow(rawAddr)
      ensures value.Some? ==> value.value == regs[(rawAddr - REGS_BASE) / 4]
    {
      var index := RegisterIndex(rawAddr);
      RegisterIndexInRange(layout, rawAddr);
      if index >= layout.numIds || width != 32 {
        return None;
      }
      value := Some(regs[index]);
    }

    /** A register write: store the word, then dispatch on its index. */
    method Write(addr: u32, data: u32, width: nat)
      requires Valid()
      modifies mem, this`regs, this`events
      ensures Valid()
      ensures !(width == 32 && layout.InWindow(addr)) ==>
        regs == old(regs) && mem[..] == old(mem[..]) && events == old(events)
      ensures width == 32 && layout.InWindow(addr) ==>
        var index := (addr - REGS_BASE) / 4;
        && regs == old(regs)[index := data]
        && mem[..] == MemoryAfterWrite(layout, old(mem[..]), regs, index)
        && events == old(events) + EventsOfWrite(layout, regs, index)
    {
      var index := RegisterIndex(addr);
      RegisterIndexInRange(layout, addr);
      if index >= layout.numIds || width != 32 {
        return;
      }
      regs := regs[index := data];
      if index == FILL0_VALUE || index == FILL1_VALUE {
        MemoryFill(index != FILL0_VALUE);
      } else if index == layout.top.activeFb {
        events := events + [SwapBuffers, WaitVBlank];
      } else if index == layout.transfer.trigger {
        if regs[index] % 2 == 1 {
          DisplayTransfer();
        }
      } else if index == layout.command.trigger {
        if regs[index] % 2 == 1 {
          events := events + [CommandListEvent(layout, regs)];
        }
      }
    }

    method MemoryFill(second: bool)
      requires Valid()
      modifies mem
      ensures mem[..] == FillResult(old(mem[..]), FillConfigOf(layout, regs, second))
    {
      var c := FillConfigOf(layout, regs, second);
      if c.enabled {
        FillWords(c.start, c.end, BSwap32(c.value));
      }
    }

    /** The pointer loop: one word per step from start while below end. */
    method FillWords(start: nat, end: nat, value: u32)
      modifies mem
      ensures mem[..] == Filled(old(mem[..]), start, FillWordCount(start, end), value)
    {
      var ptr := start;
      ghost var k: nat := 0;
      while ptr < end
        invariant ptr == start + 4 * k
        invariant k <= FillWordCount(start, end)
        invariant mem[..] == Filled(old(mem[..]), start, k, value)
        decreases end - ptr
      {
        StoreWordAt(ptr, value);
        ptr := ptr + 4;
        k := k + 1;
      }
    }

    method StoreWordAt(a: nat, w: u32)
      modifies mem
      ensures mem[..] == StoreWord(old(mem[..]), a, w)
    {
      if a < mem.Length { mem[a] := ByteOf(w, 0); }
      if a + 1 < mem.Length { mem[a + 1] := ByteOf(w, 1); }
      if a + 2 < mem.Length { mem[a + 2] := ByteOf(w, 2); }
      if a + 3 < mem.Length { mem[a + 3] := ByteOf(w, 3); }
    }

    method DisplayTransfer()
      requires Valid()
      modifies mem
      ensures mem[..] == Transferred(old(mem[..]), TransferConfigOf(layout, regs))
    {
      var t := TransferConfigOf(layout, regs);
      var y := 0;
      while y < t.outputHeight
        invariant y <= t.outputHeight
        invariant mem[..] == TransferRows(old(mem[..]), t, y)
      {
        var x := 0;
        while x < t.outputWidth / 2
          invariant x <= RowPixels(t)
          invariant mem[..] == TransferRow(TransferRows(old(mem[..]), t, y), t, y, x)
        {
          CopyPixel(t, x, y);
          x := x + 1;
        }
        y := y + 1;
      }
    }

    method CopyPixel(t: TransferConfig, x: nat, y: nat)
      modifies mem
      ensures mem[..] == TransferPixel(old(mem[..]), t, x, y)
    {
      MulIsProduct(y, t.inputWidth);
      MulIsProduct(y, t.outputWidth);
      var r, g, b := 0, 0, 0;
      if t.inputRGBA8 {
        var src := t.input + Wrap32(x * 4 + Wrap32(y * t.inputWidth * 4) / 2);
        r := if src < mem.Length then mem[src] else 0;
        g := if src + 1 < mem.Length then mem[src + 1] else 0;
        b := if src + 2 < mem.Length then mem[src + 2] else 0;
      }
      if t.outputRGB8 {
        var dst := t.output + Wrap32(x * 3 + Wrap32(y * t.outputWidth * 3) / 2);
        if dst < mem.Length { mem[dst] := r; }
        if dst + 1 < mem.Length { mem[dst + 1] := g; }
        if dst + 2 < mem.Length { mem[dst + 2] := b; }
      }
    }

    /** Advances the line counter at the given tick count. */
    method Update(currentTicks: u64)
      requires Valid() && regs[layout.top.height] > 0
      modifies this`curLine, this`lastLineTicks, this`events
      ensures Valid()
      ensures var height := regs[layout.top.height];
        var elapsed := LineElapsed(currentTicks, old(lastLineTicks), frameTicks, height);
        && curLine == NextLine(old(curLine), height, elapsed)
        && lastLineTicks == (if elapsed then currentTicks else old(lastLineTicks))
        && events == old(events) + UpdateEvents(old(curLine), height, elapsed)
    {
      var height := regs[layout.top.height];
      if Wrap64(currentTicks - lastLineTicks) >= frameTicks / height {
        events := events + [SignalInterrupt(PDC0)];
        curLine := Wrap32(curLine + 1);
        lastLineTicks := currentTicks;
      }
      if curLine >= height {
        curLine := 0;
        events := events + [SignalInterrupt(PDC1), SwapBuffers, WaitVBlank, Reschedule];
      }
    }

    /** Resets the counter and sets up both framebuffers. */
    method Init(currentTicks: u64)
      requires Valid()
      modifies this`regs, this`curLine, this`lastLineTicks
      ensures Valid()
      ensures curLine == 0 && lastLineTicks == currentTicks
      ensures regs == InitRegisters(layout, old(regs))
    {
      curLine := 0;
      lastLineTicks := currentTicks;
      // the sixteen framebuffer stores, in source order
      regs := Stores(regs, layout.InitFields(), InitValues(layout));
    }
  }
}
