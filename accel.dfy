/** The accelerometer client: identity check and configuration
    (`spi_init`, software/main.c:84-101) and the six-byte burst read of
    the three axes (`read_accel`, software/main.c:103-121). */
module Accel {
  import opened Bits
  import opened Mmio
  import opened Spi
  import Adxl345

  /** Settle delay after each configuration write, in microseconds. */
  const CONFIG_DELAY_US: nat := 10000

  /** DATA_FORMAT: full resolution, +-16 g range. */
  const FORMAT_FULL_RES_16G: Byte := 0x0B
  /** POWER_CTL: measurement mode. */
  const POWER_MEASURE: Byte := 0x08

  /** Bytes in a burst read: the command byte and DATAX0..DATAZ1. */
  const BURST_COUNT: Word := 7

  /** One reading of the three axes, each a C `short`. */
  datatype Axes = Axes(x: Short, y: Short, z: Short)

  /** The TX_DATA0 word of `read_accel`: `0xC0 | ADXL_DATA_X0`, a
      multi-byte read starting at DATAX0, alone in the word. */
  function BurstCommand(): (w: Word)
    ensures Adxl345.IsRead(ByteOf(w, 0)) && Adxl345.IsMultiByte(ByteOf(w, 0))
    ensures Adxl345.Register(ByteOf(w, 0)) == Adxl345.DATAX0
    ensures (w >> 8) == 0
  {
    0xC0 | (Adxl345.DATAX0 as Word)
  }

  /** The axis decode of `read_accel`, lines 118-120, on the two RX words. */
  function Decode(rxlo: Word, rxhi: Word): (a: Axes)
    ensures a.x == Join(ByteOf(rxlo, 1), ByteOf(rxlo, 2))
    ensures a.y == Join(ByteOf(rxlo, 3), ByteOf(rxhi, 0))
    ensures a.z == Join(ByteOf(rxhi, 1), ByteOf(rxhi, 2))
  {
    Axes(
      Truncate16(((rxlo >> 8) & 0xFF) | (((rxlo >> 16) & 0xFF) << 8)),
      Truncate16(((rxlo >> 24) & 0xFF) | (((rxhi >> 0) & 0xFF) << 8)),
      Truncate16(((rxhi >> 8) & 0xFF) | (((rxhi >> 16) & 0xFF) << 8)))
  }

  /** The RX words of a burst whose received bytes 1..6 are the three axes,
      little-endian; byte 0 (turnaround) and byte 7 (not transferred) are
      arbitrary. */
  function Encode(a: Axes, byte0: Byte, byte7: Byte): (Word, Word)
  {
    (Pack(byte0, Lo(a.x), Hi(a.x), Lo(a.y)), Pack(Hi(a.y), Lo(a.z), Hi(a.z), byte7))
  }

  /** Decoding the bytes of any three shorts gives those shorts back. */
  lemma DecodeEncode(a: Axes, byte0: Byte, byte7: Byte)
    ensures var (lo, hi) := Encode(a, byte0, byte7); Decode(lo, hi) == a
  {
    JoinOfBytes(a.x);
    JoinOfBytes(a.y);
    JoinOfBytes(a.z);
  }

  /** The decode looks at every received data byte: only byte 0 and byte 7
      are ignored. */
  lemma EncodeDecode(rxlo: Word, rxhi: Word)
    ensures Encode(Decode(rxlo, rxhi), ByteOf(rxlo, 0), ByteOf(rxhi, 3)) == (rxlo, rxhi)
  {
    PackOfBytes(rxlo);
    PackOfBytes(rxhi);
  }

  /** Each axis is negative exactly when its high byte has bit 7 set. */
  lemma DecodeSign(rxlo: Word, rxhi: Word)
    ensures var a := Decode(rxlo, rxhi);
            (Signed(a.x) < 0 <==> ByteOf(rxlo, 2) >= 0x80) &&
            (Signed(a.y) < 0 <==> ByteOf(rxhi, 0) >= 0x80) &&
            (Signed(a.z) < 0 <==> ByteOf(rxhi, 2) >= 0x80)
  {
    SignedNegativeIffHighBit(ByteOf(rxlo, 1), ByteOf(rxlo, 2));
    SignedNegativeIffHighBit(ByteOf(rxlo, 3), ByteOf(rxhi, 0));
    SignedNegativeIffHighBit(ByteOf(rxhi, 1), ByteOf(rxhi, 2));
  }

  /** Against the device: the burst sent by `read_accel` decodes to the
      ADXL345's axis registers DATAX0/X1, DATAY0/Y1, DATAZ0/Z1. */
  lemma BurstReadsAxisRegisters(regs: Adxl345.RegFile, junk: Byte, rxlo: Word, rxhi: Word)
    requires var answer := Adxl345.Respond(regs, TxBytes(BurstCommand(), 0, 7), junk);
             ByteOf(rxlo, 1) == answer[1] && ByteOf(rxlo, 2) == answer[2] &&
             ByteOf(rxlo, 3) == answer[3] && ByteOf(rxhi, 0) == answer[4] &&
             ByteOf(rxhi, 1) == answer[5] && ByteOf(rxhi, 2) == answer[6]
    ensures Decode(rxlo, rxhi) == Axes(Join(regs(0x32), regs(0x33)),
                                       Join(regs(0x34), regs(0x35)),
                                       Join(regs(0x36), regs(0x37)))
  {
    var tx := TxBytes(BurstCommand(), 0, 7);
    assert tx[0] == ByteOf(BurstCommand(), 0);
  }

  /** What `read_accel` does on the bus before it reads the answer. */
  function BurstRequest(): seq<Event>
  {
    [Store(SPI_TX_DATA0, BurstCommand()), Store(SPI_TX_DATA1, 0),
     Store(SPI_TX_CNT, BURST_COUNT), Sleep(SETTLE_US)]
  }

  /** The whole of `read_accel` when RX_DATA0 and RX_DATA1 read as rxlo, rxhi. */
  function BurstTranscript(rxlo: Word, rxhi: Word): seq<Event>
  {
    BurstRequest() + [Load(SPI_RX_DATA0, rxlo), Load(SPI_RX_DATA1, rxhi)]
  }

  /** A burst read prints nothing. */
  lemma BurstIsSilent(rxlo: Word, rxhi: Word)
    ensures Messages(BurstTranscript(rxlo, rxhi)) == []
  {
    SilentHasNoMessages(BurstTranscript(rxlo, rxhi));
  }

  /** `read_accel`: one burst transfer, then the decode of the two RX words
      as the hardware returned them. */
  method ReadAccel(bus: Bus) returns (a: Axes)
    modifies bus
    ensures var lo := bus.device(old(bus.trace) + BurstRequest(), SPI_RX_DATA0);
            var hi := bus.device(old(bus.trace) + BurstRequest() + [Load(SPI_RX_DATA0, lo)], SPI_RX_DATA1);
            bus.trace == old(bus.trace) + BurstTranscript(lo, hi) && a == Decode(lo, hi)
  {
    var txbuf0 := BurstCommand();
    bus.Write(SPI_TX_DATA0, txbuf0);
    bus.Write(SPI_TX_DATA1, 0x0000_0000);
    bus.Write(SPI_TX_CNT, BURST_COUNT);
    bus.Delay(SETTLE_US);
    assert bus.trace == old(bus.trace) + BurstRequest();
    var rxlo := bus.Read(SPI_RX_DATA0);
    var rxhi := bus.Read(SPI_RX_DATA1);
    a := Decode(rxlo, rxhi);
  }

  /** The identity check of `spi_init` when RX_DATA0 reads as `rx`. */
  function IdentifyTranscript(rx: Word): seq<Event>
  {
    var id := RxByte(rx);
    ReadTranscript(Adxl345.DEVID, rx) + [Say(DeviceId(id))]
    + (if id != Adxl345.EXPECTED_ID then [Say(WrongDeviceId)] else [])
  }

  /** The configuration writes of `spi_init`. */
  function ConfigureTranscript(): seq<Event>
  {
    WriteTranscript(Adxl345.DATA_FORMAT, FORMAT_FULL_RES_16G) + [Sleep(CONFIG_DELAY_US)]
    + WriteTranscript(Adxl345.POWER_CTL, POWER_MEASURE) + [Sleep(CONFIG_DELAY_US), Say(Configured)]
  }

  function InitTranscript(rx: Word): seq<Event>
  {
    IdentifyTranscript(rx) + ConfigureTranscript()
  }

  /** `spi_init`. */
  method Init(bus: Bus)
    modifies bus
    ensures var rx := bus.device(old(bus.trace) + ReadRequest(Adxl345.DEVID), SPI_RX_DATA0);
            bus.trace == old(bus.trace) + InitTranscript(rx)
  {
    ghost var t0 := bus.trace;
    ghost var rx := bus.device(t0 + ReadRequest(Adxl345.DEVID), SPI_RX_DATA0);
    var devid := ReadReg(bus, Adxl345.DEVID);
    assert devid == RxByte(rx);
    bus.Print(DeviceId(devid));
    ghost var ta := bus.trace;
    assert ta == t0 + (ReadTranscript(Adxl345.DEVID, rx) + [Say(DeviceId(devid))]);
    if devid != Adxl345.EXPECTED_ID {
      bus.Print(WrongDeviceId);
    }
    ghost var t1 := bus.trace;
    assert t1 == t0 + IdentifyTranscript(rx);
    WriteReg(bus, Adxl345.DATA_FORMAT, FORMAT_FULL_RES_16G);
    bus.Delay(CONFIG_DELAY_US);
    ghost var tb := bus.trace;
    assert tb == t1 + (WriteTranscript(Adxl345.DATA_FORMAT, FORMAT_FULL_RES_16G) + [Sleep(CONFIG_DELAY_US)]);
    WriteReg(bus, Adxl345.POWER_CTL, POWER_MEASURE);
    bus.Delay(CONFIG_DELAY_US);
    bus.Print(Configured);
    assert bus.trace == t1 + ConfigureTranscript();
  }

  /** The console output of `spi_init`: the identity read, the warning
      exactly when the identity is not 0xE5 (and then exactly once), and
      the completion line in every case. */
  lemma InitMessages(rx: Word)
    ensures var id := RxByte(rx);
            Messages(InitTranscript(rx)) ==
              [DeviceId(id)] + (if id != Adxl345.EXPECTED_ID then [WrongDeviceId] else []) + [Configured]
  {
    MessagesAppend(IdentifyTranscript(rx), ConfigureTranscript());
    IdentifyMessages(rx);
    ConfigureMessages();
  }

  lemma IdentifyMessages(rx: Word)
    ensures var id := RxByte(rx);
            Messages(IdentifyTranscript(rx)) ==
              [DeviceId(id)] + (if id != Adxl345.EXPECTED_ID then [WrongDeviceId] else [])
  {
    var id := RxByte(rx);
    var p1 := ReadTranscript(Adxl345.DEVID, rx);
    var say: seq<Event> := [Say(DeviceId(id))];
    var warn: seq<Event> := if id != Adxl345.EXPECTED_ID then [Say(WrongDeviceId)] else [];
    SilentHasNoMessages(p1);
    MessagesAppend(p1, say);
    MessagesAppend(p1 + say, warn);
    assert Messages(say) == Messages(say[..0]) + [DeviceId(id)];
    if id != Adxl345.EXPECTED_ID {
      assert Messages(warn) == Messages(warn[..0]) + [WrongDeviceId];
    }
  }

  lemma ConfigureMessages()
    ensures Messages(ConfigureTranscript()) == [Configured]
  {
    var p := WriteTranscript(Adxl345.DATA_FORMAT, FORMAT_FULL_RES_16G) + [Sleep(CONFIG_DELAY_US)]
             + WriteTranscript(Adxl345.POWER_CTL, POWER_MEASURE) + [Sleep(CONFIG_DELAY_US)];
    assert ConfigureTranscript() == p + [Say(Configured)];
    SilentHasNoMessages(p);
  }

  /** The register writes of `spi_init` do not depend on the identity
      read: the DEVID read request, then DATA_FORMAT = 0x0B, then
      POWER_CTL = 0x08, so a wrong identity is not fatal. */
  lemma InitWrites(rx: Word)
    ensures Stores(InitTranscript(rx)) ==
      [Store(SPI_TX_DATA0, ReadWord(Adxl345.DEVID)), Store(SPI_TX_CNT, REG_TRANSFER),
       Store(SPI_TX_DATA0, WriteWord(Adxl345.DATA_FORMAT, FORMAT_FULL_RES_16G)), Store(SPI_TX_CNT, REG_TRANSFER),
       Store(SPI_TX_DATA0, WriteWord(Adxl345.POWER_CTL, POWER_MEASURE)), Store(SPI_TX_CNT, REG_TRANSFER)]
  {
    StoresAppend(IdentifyTranscript(rx), ConfigureTranscript());
    IdentifyStores(rx);
    ConfigureStores();
  }

  lemma IdentifyStores(rx: Word)
    ensures Stores(IdentifyTranscript(rx)) ==
            [Store(SPI_TX_DATA0, ReadWord(Adxl345.DEVID)), Store(SPI_TX_CNT, REG_TRANSFER)]
  {
    var id := RxByte(rx);
    var tail: seq<Event> := [Load(SPI_RX_DATA0, rx), Say(DeviceId(id))]
                            + (if id != Adxl345.EXPECTED_ID then [Say(WrongDeviceId)] else []);
    assert IdentifyTranscript(rx) == ReadRequest(Adxl345.DEVID) + tail;
    StoresAppend(ReadRequest(Adxl345.DEVID), tail);
    StoresOfRequest(ReadWord(Adxl345.DEVID));
    NoStores(tail);
  }

  lemma ConfigureStores()
    ensures Stores(ConfigureTranscript()) ==
            [Store(SPI_TX_DATA0, WriteWord(Adxl345.DATA_FORMAT, FORMAT_FULL_RES_16G)), Store(SPI_TX_CNT, REG_TRANSFER),
             Store(SPI_TX_DATA0, WriteWord(Adxl345.POWER_CTL, POWER_MEASURE)), Store(SPI_TX_CNT, REG_TRANSFER)]
  {
    var w1 := WriteTranscript(Adxl345.DATA_FORMAT, FORMAT_FULL_RES_16G);
    var w2 := WriteTranscript(Adxl345.POWER_CTL, POWER_MEASURE);
    var d1: seq<Event> := [Sleep(CONFIG_DELAY_US)];
    var d2: seq<Event> := [Sleep(CONFIG_DELAY_US), Say(Configured)];
    assert ConfigureTranscript() == w1 + (d1 + (w2 + d2));
    StoresAppend(w1, d1 + (w2 + d2));
    StoresAppend(d1, w2 + d2);
    StoresAppend(w2, d2);
    StoresOfRequest(WriteWord(Adxl345.DATA_FORMAT, FORMAT_FULL_RES_16G));
    StoresOfRequest(WriteWord(Adxl345.POWER_CTL, POWER_MEASURE));
    NoStores(d1);
    NoStores(d2);
  }

  /** A piece of trace without register writes contributes none. */
  lemma {:induction false} NoStores(es: seq<Event>)
    requires forall i :: 0 <= i < |es| ==> !es[i].Store?
    ensures Stores(es) == []
    decreases |es|
  {
    if es != [] {
      NoStores(es[..|es| - 1]);
    }
  }

  /** The register writes of a three-event single-register transfer. */
  lemma StoresOfRequest(w: Word)
    ensures Stores([Store(SPI_TX_DATA0, w), Store(SPI_TX_CNT, REG_TRANSFER), Sleep(SETTLE_US)]) ==
            [Store(SPI_TX_DATA0, w), Store(SPI_TX_CNT, REG_TRANSFER)]
  {
    var t := [Store(SPI_TX_DATA0, w), Store(SPI_TX_CNT, REG_TRANSFER), Sleep(SETTLE_US)];
    var t2, t1 := t[..2], t[..1];
    assert t2[..1] == t1 && t1[..0] == [];
    assert Stores(t1) == [Store(SPI_TX_DATA0, w)];
    assert Stores(t2) == [Store(SPI_TX_DATA0, w), Store(SPI_TX_CNT, REG_TRANSFER)];
  }
}
