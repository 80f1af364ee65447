/** The ADXL345 accelerometer driver of adxl345.c: the SPI command byte,
    register reads and writes framed by chip select, the little-endian
    decoding of the three axes with per-axis offsets, and the offset table
    set by `ADXL345Init` and `ADXL345Calibrate`.

    The bus is abstract: `spiTransfer` is a byte source (the k-th transfer
    returns `miso[k]`) and every chip-select edge and transfer is recorded
    in a trace. */
module Adxl345 {
  import opened Bits

  const DATA_FORMAT: Byte := 0x31
  const DATAX0: Byte := 0x32
  const READ_BIT: Byte := 0x80       // command bit 7: read
  const MULTI_BIT: Byte := 0x40      // command bit 6: multi-byte transfer
  const REGISTER_MASK: Byte := 0x3F  // command bits 5..0: register address
  const ACC_BYTES := 6               // DATAX0, DATAX1, ..., DATAZ1
  const ONE_G := 256                 // the 1 g count `ADXL345Calibrate` takes off the Z offset

  /***** The SPI command byte (ADXL345Read) *****/

  /** `0x80 | address`, with 0x40 added for a multi-byte read. */
  function Command(address: Byte, num: int): (cmd: Byte)
    ensures cmd & READ_BIT != 0
    ensures cmd & REGISTER_MASK == address & REGISTER_MASK
    ensures (cmd & MULTI_BIT != 0) <==> (num > 1 || address & MULTI_BIT != 0)
  {
    var addr := READ_BIT | address;
    if num > 1 then addr | MULTI_BIT else addr
  }

  /** What the ADXL345 makes of a command byte, as the SPI section of its
      data sheet lays the bits out: read/write, multi-byte, register. */
  datatype Request = Request(read: bool, multi: bool, register: Byte)

  function ParseCommand(cmd: Byte): Request {
    Request(cmd & READ_BIT != 0, cmd & MULTI_BIT != 0, cmd & REGISTER_MASK)
  }

  /** For every register address (all below 0x40) the device sees a read
      of that register, multi-byte exactly when more than one byte is
      asked for. */
  lemma CommandRoundTrip(address: Byte, num: int)
    requires address <= REGISTER_MASK
    ensures ParseCommand(Command(address, num)) == Request(true, num > 1, address)
  {
    assert address & MULTI_BIT == 0;
    assert address & REGISTER_MASK == address;
  }

  /***** Bus traces *****/

  datatype BusEvent = CsLow | CsHigh | Transfer(mosi: Byte, miso: Byte)

  /** What the device shifts back: a byte for every transfer number. */
  type Stream = m: imap<nat, Byte> | forall k: nat :: k in m
    ghost witness imap k: nat | true :: 0x00

  /** The bytes the device returns for transfers from..from+n-1. */
  function Received(miso: Stream, from: nat, n: nat): (r: seq<Byte>)
    ensures |r| == n && forall k :: 0 <= k < n ==> r[k] == miso[from + k]
    decreases n
  {
    if n == 0 then [] else Received(miso, from, n - 1) + [miso[from + n - 1]]
  }

  /** A buffer filled with the device's answers holds the bytes received. */
  lemma ReceivedIs(a: array<Byte>, miso: Stream, from: nat)
    requires forall k :: 0 <= k < a.Length ==> a[k] == miso[from + k]
    ensures a[..] == Received(miso, from, a.Length)
  {
  }

  /** The bus activity of `ADXL345Write(address, data)` starting at
      transfer number `c`. */
  function WriteTrace(address: Byte, data: Byte, miso: Stream, c: nat): seq<BusEvent> {
    [CsLow, Transfer(address, miso[c]), Transfer(data, miso[c + 1]), CsHigh]
  }

  function Count(num: int): nat { if num > 0 then num else 0 }

  /** `n` transfers of the dummy byte 0x00, from transfer number `from`. */
  function Dummies(miso: Stream, from: nat, n: nat): seq<BusEvent>
    decreases n
  {
    if n == 0 then [] else Dummies(miso, from, n - 1) + [Transfer(0x00, miso[from + n - 1])]
  }

  /** Transfer `from + k` of the dummy run sends 0x00 and receives
      `miso[from + k]`. */
  lemma {:induction false} DummiesAt(miso: Stream, from: nat, n: nat)
    ensures |Dummies(miso, from, n)| == n
    ensures forall k :: 0 <= k < n ==> Dummies(miso, from, n)[k] == Transfer(0x00, miso[from + k])
    decreases n
  {
    if n > 0 {
      DummiesAt(miso, from, n - 1);
    }
  }

  lemma AppendAssoc<T>(a: seq<T>, b: seq<T>, c: seq<T>)
    ensures (a + b) + c == a + (b + c)
  {
  }

  /** The bus activity of `ADXL345Read(address, num, ...)` starting at
      transfer number `c`: the command, then `num` dummy transfers. */
  function ReadTrace(address: Byte, num: int, miso: Stream, c: nat): seq<BusEvent> {
    [CsLow, Transfer(Command(address, num), miso[c])] + Dummies(miso, c + 1, Count(num)) + [CsHigh]
  }

  /** Chip select goes low before the first transfer and high after the
      last, and nothing but transfers happens in between. */
  predicate Framed(t: seq<BusEvent>) {
    |t| >= 2 && t[0] == CsLow && t[|t| - 1] == CsHigh &&
    forall k :: 0 < k < |t| - 1 ==> t[k].Transfer?
  }

  /** The bytes sent, in order. */
  function Sent(t: seq<BusEvent>): seq<Byte> {
    if t == [] then []
    else (if t[0].Transfer? then [t[0].mosi] else []) + Sent(t[1..])
  }

  lemma {:induction false} SentAppend(a: seq<BusEvent>, b: seq<BusEvent>)
    ensures Sent(a + b) == Sent(a) + Sent(b)
  {
    if a == [] {
      assert a + b == b;
    } else {
      var h: seq<Byte> := if a[0].Transfer? then [a[0].mosi] else [];
      assert (a + b)[0] == a[0];
      assert (a + b)[1..] == a[1..] + b;
      SentAppend(a[1..], b);
      calc {
        Sent(a + b);
        h + Sent((a + b)[1..]);
        h + Sent(a[1..] + b);
        h + (Sent(a[1..]) + Sent(b));
        (h + Sent(a[1..])) + Sent(b);
        Sent(a) + Sent(b);
      }
    }
  }

  /** Of a trace made only of transfers, every byte is sent, in order. */
  lemma {:induction false} SentTransfers(t: seq<BusEvent>)
    requires forall k :: 0 <= k < |t| ==> t[k].Transfer?
    ensures |Sent(t)| == |t| && forall k :: 0 <= k < |t| ==> Sent(t)[k] == t[k].mosi
  {
    if t != [] {
      SentTransfers(t[1..]);
    }
  }

  /** Transfers between a chip-select low and a chip-select high form a
      framed exchange that sends exactly their bytes. */
  lemma FrameOf(xfers: seq<BusEvent>)
    requires forall k :: 0 <= k < |xfers| ==> xfers[k].Transfer?
    ensures Framed([CsLow] + xfers + [CsHigh])
    ensures Sent([CsLow] + xfers + [CsHigh]) == Sent(xfers)
  {
    var t := [CsLow] + xfers + [CsHigh];
    assert forall k :: 0 < k < |t| - 1 ==> t[k] == xfers[k - 1];
    SentAppend([CsLow] + xfers, [CsHigh]);
    SentAppend([CsLow], xfers);
  }

  /** A write is one framed exchange of exactly two bytes: the register
      address, then the data. */
  lemma WriteIsFramed(address: Byte, data: Byte, miso: Stream, c: nat)
    ensures Framed(WriteTrace(address, data, miso, c))
    ensures Sent(WriteTrace(address, data, miso, c)) == [address, data]
  {
    var xfers := [Transfer(address, miso[c]), Transfer(data, miso[c + 1])];
    assert WriteTrace(address, data, miso, c) == [CsLow] + xfers + [CsHigh];
    FrameOf(xfers);
    SentTransfers(xfers);
  }

  /** The transfers of a read: the command byte, then `Count(num)` zero
      bytes. */
  lemma ReadTransfers(address: Byte, num: int, miso: Stream, c: nat)
    ensures var xfers := [Transfer(Command(address, num), miso[c])] + Dummies(miso, c + 1, Count(num));
      |xfers| == 1 + Count(num) && forall k :: 0 <= k < |xfers| ==>
        xfers[k].Transfer? && xfers[k].mosi == if k == 0 then Command(address, num) else 0x00
  {
    var d := Dummies(miso, c + 1, Count(num));
    var xfers := [Transfer(Command(address, num), miso[c])] + d;
    DummiesAt(miso, c + 1, Count(num));
    assert forall k :: 0 <= k < |xfers| ==> xfers[k] == if k == 0 then xfers[0] else d[k - 1];
  }

  /** A read is one framed exchange of 1 + num bytes: the command byte,
      then num zero bytes clocking the data out. */
  lemma ReadIsFramed(address: Byte, num: int, miso: Stream, c: nat)
    ensures Framed(ReadTrace(address, num, miso, c))
    ensures var sent := Sent(ReadTrace(address, num, miso, c));
      |sent| == 1 + Count(num) && sent[0] == Command(address, num) &&
      forall k :: 1 <= k < |sent| ==> sent[k] == 0x00
  {
    var xfers := [Transfer(Command(address, num), miso[c])] + Dummies(miso, c + 1, Count(num));
    assert ReadTrace(address, num, miso, c) == [CsLow] + xfers + [CsHigh] by {
      AppendAssoc([CsLow], [Transfer(Command(address, num), miso[c])], Dummies(miso, c + 1, Count(num)));
    }
    ReadTransfers(address, num, miso, c);
    FrameOf(xfers);
    SentTransfers(xfers);
  }

  /***** Decoding the axes (ADXL345ReadAcc) *****/

  /** `(read[2k+1] << 8) | read[2k]` with the bytes taken as unsigned and
      the result stored in a 16-bit `int`: the two's-complement value of
      the register pair, high byte second. */
  function DecodeAxis(lo: Byte, hi: Byte): (v: int)
    ensures InInt16(v)
  {
    Wrap16(Pattern(lo, hi))
  }

  /** The register pair the device holds for a 16-bit value. */
  function EncodeAxis(v: int): (pair: (Byte, Byte))
    requires InInt16(v)
  {
    var u := v % WORD;
    ((u % 0x100) as Byte, (u / 0x100) as Byte)
  }

  /** Decoding is the inverse of the device's encoding, both ways round. */
  lemma DecodeEncode(v: int)
    requires InInt16(v)
    ensures DecodeAxis(EncodeAxis(v).0, EncodeAxis(v).1) == v
  {
    var u := if v >= 0 then v else v + WORD;
    DivModUnique(v, WORD, if v >= 0 then 0 else -1, u);
    ByteValue(u / 0x100);
    ByteValue(u % 0x100);
    var (lo, hi) := EncodeAxis(v);
    assert Pattern(lo, hi) == u;
    Wrap16Is(u, if v >= 0 then 0 else 1, v);
  }

  lemma EncodeDecode(lo: Byte, hi: Byte)
    ensures EncodeAxis(DecodeAxis(lo, hi)) == (lo, hi)
  {
    var w := Pattern(lo, hi);
    var v := if w <= INT16_MAX then w else w - WORD;
    assert DecodeAxis(lo, hi) == v by { DecodeIsPattern(lo, hi); }
    assert EncodeAxis(v) == (lo, hi) by {
      EncodeOf(v, w);
      PatternBytes(lo, hi);
    }
  }

  /** The 16-bit pattern of a register pair, unsigned. */
  function Pattern(lo: Byte, hi: Byte): (w: int)
    ensures 0 <= w < WORD
  {
    hi as int * 0x100 + lo as int
  }

  /** The decoded value is the pattern, less 2^16 when bit 15 is set. */
  lemma DecodeIsPattern(lo: Byte, hi: Byte)
    ensures var w := Pattern(lo, hi);
      DecodeAxis(lo, hi) == if w <= INT16_MAX then w else w - WORD
  {
    var w := Pattern(lo, hi);
    Wrap16Is(w, if w <= INT16_MAX then 0 else 1, if w <= INT16_MAX then w else w - WORD);
  }

  /** The low and high bytes of the pattern are the pair itself. */
  lemma PatternBytes(lo: Byte, hi: Byte)
    ensures (Pattern(lo, hi) % 0x100) as Byte == lo
    ensures (Pattern(lo, hi) / 0x100) as Byte == hi
  {
    DivModUnique(Pattern(lo, hi), 0x100, hi as int, lo as int);
    ByteOfValue(lo);
    ByteOfValue(hi);
  }

  /** The pair for `v` is that of its 16-bit pattern `w`. */
  lemma EncodeOf(v: int, w: int)
    requires InInt16(v) && 0 <= w < WORD && (v == w || v == w - WORD)
    ensures EncodeAxis(v) == ((w % 0x100) as Byte, (w / 0x100) as Byte)
  {
    DivModUnique(v, WORD, if v == w then 0 else -1, w);
  }

  /** One axis of `ADXL345ReadAcc`: the decoded pair less its offset, in
      16-bit arithmetic. */
  function AxisReading(lo: Byte, hi: Byte, offset: int): int {
    Wrap16(DecodeAxis(lo, hi) - offset)
  }

  /** The three axes `ADXL345ReadAcc` stores for the six data bytes `raw`
      (DATAX0..DATAZ1) and the offsets `ofs`. */
  function AccReading(raw: seq<Byte>, ofs: seq<int>): (r: seq<int>)
    requires |raw| == ACC_BYTES && |ofs| == 3
    ensures |r| == 3 && forall a :: 0 <= a < 3 ==> InInt16(r[a])
  {
    [AxisReading(raw[0], raw[1], ofs[0]),
     AxisReading(raw[2], raw[3], ofs[1]),
     AxisReading(raw[4], raw[5], ofs[2])]
  }

  /** Adding each offset back to its axis' reading gives the decoded
      register pair. */
  lemma AccReadingUndo(raw: seq<Byte>, ofs: seq<int>)
    requires |raw| == ACC_BYTES && |ofs| == 3
    ensures forall a :: 0 <= a < 3 ==>
      Wrap16(AccReading(raw, ofs)[a] + ofs[a]) == DecodeAxis(raw[2 * a], raw[2 * a + 1])
  {
    AxisUndo(raw[0], raw[1], ofs[0]);
    AxisUndo(raw[2], raw[3], ofs[1]);
    AxisUndo(raw[4], raw[5], ofs[2]);
  }

  /** Adding an axis' offset back to its reading gives the decoded pair. */
  lemma AxisUndo(lo: Byte, hi: Byte, offset: int)
    ensures Wrap16(AxisReading(lo, hi, offset) + offset) == DecodeAxis(lo, hi)
  {
    var d := DecodeAxis(lo, hi);
    Wrap16Shift(d - offset, offset);
    assert d - offset + offset == d;
  }

  /** The offsets `ADXL345Calibrate` leaves: the reading taken under the
      old offsets, with ONE_G taken off the Z axis. */
  function CalibratedOffsets(raw: seq<Byte>, ofs: seq<int>): seq<int>
    requires |raw| == ACC_BYTES && |ofs| == 3
  {
    var r := AccReading(raw, ofs);
    r[2 := Wrap16(r[2] - ONE_G)]
  }

  /** Reading the calibration sample again under the new offsets gives the
      old offsets back, with ONE_G added on Z. */
  lemma CalibrateThenRead(raw: seq<Byte>, ofs: seq<int>)
    requires |raw| == ACC_BYTES && |ofs| == 3
    requires forall a :: 0 <= a < 3 ==> InInt16(ofs[a])
    ensures AccReading(raw, CalibratedOffsets(raw, ofs)) ==
            [ofs[0], ofs[1], Wrap16(ofs[2] + ONE_G)]
  {
    var x0 := AxisReading(raw[0], raw[1], ofs[0]);
    var x1 := AxisReading(raw[2], raw[3], ofs[1]);
    var z := Wrap16(AxisReading(raw[4], raw[5], ofs[2]) - ONE_G);
    var c := CalibratedOffsets(raw, ofs);
    assert c == [x0, x1, z];
    assert AccReading(raw, c) ==
      [AxisReading(raw[0], raw[1], x0), AxisReading(raw[2], raw[3], x1), AxisReading(raw[4], raw[5], z)];
    assert AxisReading(raw[0], raw[1], x0) == ofs[0] by {
      AxisReread(raw[0], raw[1], ofs[0]);
    }
    assert AxisReading(raw[2], raw[3], x1) == ofs[1] by {
      AxisReread(raw[2], raw[3], ofs[1]);
    }
    assert AxisReading(raw[4], raw[5], z) == Wrap16(ofs[2] + ONE_G) by {
      AxisRecalibrated(raw[4], raw[5], ofs[2], ONE_G);
    }
  }

  /** One axis of the above: offset `o`, then the offset that the reading
      under `o` less `g` gives. */
  lemma AxisRecalibrated(lo: Byte, hi: Byte, o: int, g: int)
    ensures AxisReading(lo, hi, Wrap16(AxisReading(lo, hi, o) - g)) == Wrap16(o + g)
  {
    var d := DecodeAxis(lo, hi);
    var x := AxisReading(lo, hi, o);
    calc {
      AxisReading(lo, hi, Wrap16(x - g));
      Wrap16(d - Wrap16(x - g));
      { assert x - g == Wrap16(d - o) + -g;
        Wrap16Shift(d - o, -g); }
      Wrap16(d - Wrap16(d - o - g));
      { Wrap16Sub(d, d - o - g); }
      Wrap16(d - (d - o - g));
      { assert d - (d - o - g) == o + g; }
      Wrap16(o + g);
    }
  }

  /** The X and Y axes of the above: a reading taken as the offset reads
      the old offset back. */
  lemma AxisReread(lo: Byte, hi: Byte, o: int)
    requires InInt16(o)
    ensures AxisReading(lo, hi, AxisReading(lo, hi, o)) == o
  {
    var x := AxisReading(lo, hi, o);
    AxisRecalibrated(lo, hi, o, 0);
    assert Wrap16(x - 0) == x;
    assert Wrap16(o + 0) == o;
  }

  /***** The code as written with a signed plain `char` *****/

  /** Bits 8..15 of a `char` byte widened to a 16-bit `int` when the
      compiler treats plain `char` as signed: copies of bit 7. */
  function SignFill(b: Byte): (f: Byte)
    ensures f == 0x00 <==> b < 0x80
  {
    if b & 0x80 == 0 then 0x00 else 0xFF
  }

  /** `(int) ((read[1] << 8) | read[0])` when `read` is a signed `char`
      array: both bytes are widened before the shift and the `|`, so the
      low byte's sign fill is ORed into the high byte of the result. */
  function DecodeAxisSignedChar(lo: Byte, hi: Byte): (v: int)
    ensures InInt16(v)
  {
    DecodeAxis(lo, hi | SignFill(lo))
  }

  /** As written, the value is right when the low byte is below 0x80;
      otherwise it is the low byte alone, taken as negative. */
  lemma SignedCharDecode(lo: Byte, hi: Byte)
    ensures lo < 0x80 ==> DecodeAxisSignedChar(lo, hi) == DecodeAxis(lo, hi)
    ensures lo >= 0x80 ==> DecodeAxisSignedChar(lo, hi) == lo as int - 0x100
  {
    if lo >= 0x80 {
      assert hi | SignFill(lo) == 0xFF;
      Wrap16Is(0xFF00 + lo as int, 1, lo as int - 0x100);
    }
  }

  /** The two decodings agree exactly when the low byte is below 0x80 or
      the high byte already is 0xFF (values -256..-129). */
  lemma SignedCharAgrees(lo: Byte, hi: Byte)
    ensures DecodeAxisSignedChar(lo, hi) == DecodeAxis(lo, hi) <==> lo < 0x80 || hi == 0xFF
  {
    SignedCharDecode(lo, hi);
    if lo >= 0x80 {
      var w := Pattern(lo, hi);
      if w <= INT16_MAX {
        Wrap16Is(w, 0, w);
      } else {
        Wrap16Is(w, 1, w - WORD);
      }
    }
  }

  /** The register pair (0x80, 0x00) holds +128; as written it reads -128. */
  lemma SignedCharCounterexample()
    ensures DecodeAxis(0x80, 0x00) == 128
    ensures DecodeAxisSignedChar(0x80, 0x00) == -128
  {
    SignedCharDecode(0x80, 0x00);
  }

  /***** The bus and the driver *****/

  /** The SPI port with the ADXL345 on it. */
  class Bus {
    const miso: Stream     // the byte returned by the k-th transfer
    var count: nat              // transfers so far
    var trace: seq<BusEvent>

    constructor (miso: Stream)
      ensures this.miso == miso && count == 0 && trace == []
    {
      this.miso := miso;
      count, trace := 0, [];
    }

    /** `P1OUT &= ~CS`. */
    method Select()
      modifies this`trace
      ensures trace == old(trace) + [CsLow]
    {
      trace := trace + [CsLow];
    }

    /** `P1OUT |= CS`. */
    method Deselect()
      modifies this`trace
      ensures trace == old(trace) + [CsHigh]
    {
      trace := trace + [CsHigh];
    }

    /** `spiTransfer`: shift `data` out and the device's next byte in. */
    method Exchange(data: Byte) returns (r: Byte)
      modifies this`trace, this`count
      ensures count == old(count) + 1 && r == miso[count - 1]
      ensures trace == old(trace) + [Transfer(data, r)]
    {
      r := miso[count];
      count := count + 1;
      trace := trace + [Transfer(data, r)];
    }
  }

  /** The driver's global offset table and the bus it talks on. */
  class Driver {
    const bus: Bus
    const ofs: array<int>       // `int ofs[3]`

    ghost predicate Valid()
      reads this, ofs
    {
      ofs.Length == 3 && forall a :: 0 <= a < 3 ==> InInt16(ofs[a])
    }

    /** The zero-initialised table. */
    constructor (bus: Bus)
      ensures Valid() && this.bus == bus && fresh(ofs) && ofs[..] == [0, 0, 0]
    {
      this.bus := bus;
      ofs := new int[3](_ => 0);
      new;
      assert ofs[..] == [0, 0, 0];
    }

    /** `ADXL345Write`. */
    method Write(address: Byte, data: Byte)
      modifies bus
      ensures bus.count == old(bus.count) + 2
      ensures bus.trace == old(bus.trace) + WriteTrace(address, data, bus.miso, old(bus.count))
    {
      bus.Select();
      var _ := bus.Exchange(address);
      var _ := bus.Exchange(data);
      bus.Deselect();
    }

    /** `ADXL345Read`: the k-th byte clocked out after the command lands in
        `data[k]` for k < num; the rest of `data` is left alone. */
    method Read(address: Byte, num: int, data: array<Byte>)
      requires num <= data.Length
      modifies bus, data
      ensures bus.count == old(bus.count) + 1 + Count(num)
      ensures bus.trace == old(bus.trace) + ReadTrace(address, num, bus.miso, old(bus.count))
      ensures forall k :: 0 <= k < num ==> data[k] == bus.miso[old(bus.count) + 1 + k]
      ensures forall k :: Count(num) <= k < data.Length ==> data[k] == old(data[k])
    {
      var addr := READ_BIT | address;
      if num > 1 { addr := addr | MULTI_BIT; }
      ghost var c := bus.count;
      ghost var t := bus.trace;
      bus.Select();
      var _ := bus.Exchange(addr);
      ghost var head := [CsLow, Transfer(Command(address, num), bus.miso[c])];
      assert bus.trace == t + head;
      Receive(num, data);
      ghost var d := Dummies(bus.miso, c + 1, Count(num));
      bus.Deselect();
      assert bus.trace == t + (head + d + [CsHigh]) by {
        AppendAssoc(t, head, d);
        AppendAssoc(t, head + d, [CsHigh]);
      }
    }

    /** The data phase of `ADXL345Read`: for each of the `num` bytes, send
        0x00 and store the byte that comes back. */
    method Receive(num: int, data: array<Byte>)
      requires num <= data.Length
      modifies bus, data
      ensures bus.count == old(bus.count) + Count(num)
      ensures bus.trace == old(bus.trace) + Dummies(bus.miso, old(bus.count), Count(num))
      ensures forall k :: 0 <= k < num ==> data[k] == bus.miso[old(bus.count) + k]
      ensures forall k :: Count(num) <= k < data.Length ==> data[k] == old(data[k])
    {
      ghost var c := bus.count;
      ghost var t := bus.trace;
      var i := 0;
      while i < num
        invariant 0 <= i <= Count(num)
        invariant bus.count == c + i
        invariant bus.trace == t + Dummies(bus.miso, c, i)
        invariant forall k :: 0 <= k < i ==> data[k] == bus.miso[c + k]
        invariant forall k :: i <= k < data.Length ==> data[k] == old(data[k])
      {
        ghost var d := Dummies(bus.miso, c, i);
        var b := bus.Exchange(0x00);
        data[i] := b;
        ghost var x := Transfer(0x00, b);
        assert Dummies(bus.miso, c, i + 1) == d + [x];
        AppendAssoc(t, d, [x]);
        i := i + 1;
      }
    }

    /** `ADXL345ReadAcc`: read six bytes from DATAX0 and store each axis,
        decoded and less its offset, in `data`. `data` may be the offset
        table itself (as `ADXL345Calibrate` passes it): each axis reads its
        offset before overwriting it. */
    method ReadAcc(data: array<int>)
      requires Valid() && data.Length >= 3
      modifies bus, data
      ensures Valid()
      ensures bus.count == old(bus.count) + 1 + ACC_BYTES
      ensures bus.trace == old(bus.trace) + ReadTrace(DATAX0, ACC_BYTES, bus.miso, old(bus.count))
      ensures data[..3] == AccReading(Received(bus.miso, old(bus.count) + 1, ACC_BYTES), old(ofs[..]))
      ensures forall k :: 3 <= k < data.Length ==> data[k] == old(data[k])
    {
      var read := new Byte[ACC_BYTES];
      ghost var c := bus.count;
      Read(DATAX0, ACC_BYTES, read);
      ReceivedIs(read, bus.miso, c + 1);
      StoreAxes(read[..], data);
    }

    /** The stores of `ADXL345ReadAcc`, axis by axis, from the six bytes
        read. */
    method StoreAxes(read: seq<Byte>, data: array<int>)
      requires Valid() && |read| == ACC_BYTES && data.Length >= 3
      modifies data
      ensures Valid()
      ensures data[..3] == AccReading(read, old(ofs[..]))
      ensures forall k :: 3 <= k < data.Length ==> data[k] == old(data[k])
    {
      ghost var o := ofs[..];
      data[0] := AxisReading(read[0], read[1], ofs[0]);
      assert data[0] == AxisReading(read[0], read[1], o[0]);
      data[1] := AxisReading(read[2], read[3], ofs[1]);
      assert data[1] == AxisReading(read[2], read[3], o[1]);
      data[2] := AxisReading(read[4], read[5], ofs[2]);
      assert data[..3] == [AxisReading(read[0], read[1], o[0]),
                           AxisReading(read[2], read[3], o[1]),
                           AxisReading(read[4], read[5], o[2])];
    }

    /** `ADXL345Init`, less the port and USI set-up: write 0 to DATA_FORMAT,
        then load the offsets (16, -1, -36). */
    method Init()
      requires Valid()
      modifies bus, ofs
      ensures Valid()
      ensures ofs[..] == [16, -1, -36]
      ensures bus.count == old(bus.count) + 2
      ensures bus.trace == old(bus.trace) + WriteTrace(DATA_FORMAT, 0x00, bus.miso, old(bus.count))
    {
      Write(DATA_FORMAT, 0x00);
      ofs[0] := 16;
      ofs[1] := -1;
      ofs[2] := -36;
      assert ofs[..] == [16, -1, -36];
    }

    /** `ADXL345Calibrate`: `ADXL345ReadAcc(ofs)`, then ONE_G off Z. */
    method Calibrate()
      requires Valid()
      modifies bus, ofs
      ensures Valid()
      ensures ofs[..] == CalibratedOffsets(Received(bus.miso, old(bus.count) + 1, ACC_BYTES), old(ofs[..]))
      ensures bus.count == old(bus.count) + 1 + ACC_BYTES
      ensures bus.trace == old(bus.trace) + ReadTrace(DATAX0, ACC_BYTES, bus.miso, old(bus.count))
    {
      ghost var raw := Received(bus.miso, bus.count + 1, ACC_BYTES);
      ghost var r := AccReading(raw, ofs[..]);
      ghost var z := Wrap16(r[2] - ONE_G);
      assert CalibratedOffsets(raw, ofs[..]) == r[2 := z];
      ReadAcc(ofs);
      assert ofs[..] == ofs[..3] == r;
      var cur := ofs[2];
      assert cur == r[2];
      ofs[2] := Wrap16(cur - ONE_G);
      assert ofs[2] == z;
      assert ofs[..] == r[2 := z];
    }
  }
}
