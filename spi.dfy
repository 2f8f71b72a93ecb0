/** The SPI master driver: single-register write and read of the
    accelerometer through the TX_DATA0 / TX_CNT / RX_DATA0 registers of
    the SPI master peripheral (software/main.c:54-82). */
module Spi {
  import opened Bits
  import opened Mmio
  import Adxl345

  /** `spi_wait_done`: the fixed settle delay after every transfer, in
      microseconds; it stands in for a transfer-complete handshake. */
  const SETTLE_US: nat := 5000

  /** Bytes in a single-register transfer: the command byte and one data byte. */
  const REG_TRANSFER: Word := 2

  /** The TX word of `spi_write_reg`: `((u32)addr << 0) | ((u32)data << 8)`.
      The address goes out first, the data byte second, nothing else is set. */
  function WriteWord(addr: Byte, data: Byte): (w: Word)
    ensures ByteOf(w, 0) == addr && ByteOf(w, 1) == data
    ensures (w >> 16) == 0
  {
    ((addr as Word) << 0) | ((data as Word) << 8)
  }

  /** The TX word of `spi_read_reg`: `0x80 | addr`. Bit 7 (read) is set,
      bits 0..6 are the address's, and no data byte is sent. */
  function ReadWord(addr: Byte): (w: Word)
    ensures (ByteOf(w, 0) & 0x80) == 0x80
    ensures (ByteOf(w, 0) & 0x7F) == (addr & 0x7F)
    ensures (w >> 8) == 0
  {
    0x80 | (addr as Word)
  }

  /** The answer of `spi_read_reg`: `(u8)((rxbuf >> 8) & 0xFF)`, the byte
      received one position after the command byte. */
  function RxByte(rx: Word): (b: Byte)
    ensures Pack(ByteOf(rx, 0), b, ByteOf(rx, 2), ByteOf(rx, 3)) == rx
  {
    ((rx >> 8) & 0xFF) as Byte
  }

  /** What `spi_write_reg(addr, data)` does on the bus, in order. */
  function WriteTranscript(addr: Byte, data: Byte): seq<Event>
  {
    [Store(SPI_TX_DATA0, WriteWord(addr, data)), Store(SPI_TX_CNT, REG_TRANSFER), Sleep(SETTLE_US)]
  }

  /** What `spi_read_reg(addr)` does on the bus before it reads the answer. */
  function ReadRequest(addr: Byte): seq<Event>
  {
    [Store(SPI_TX_DATA0, ReadWord(addr)), Store(SPI_TX_CNT, REG_TRANSFER), Sleep(SETTLE_US)]
  }

  /** The whole of `spi_read_reg(addr)` when RX_DATA0 reads as `rx`. */
  function ReadTranscript(addr: Byte, rx: Word): seq<Event>
  {
    ReadRequest(addr) + [Load(SPI_RX_DATA0, rx)]
  }

  /** `spi_write_reg`. */
  method WriteReg(bus: Bus, addr: Byte, data: Byte)
    modifies bus
    ensures bus.trace == old(bus.trace) + WriteTranscript(addr, data)
  {
    var txbuf := WriteWord(addr, data);
    bus.Write(SPI_TX_DATA0, txbuf);
    bus.Write(SPI_TX_CNT, REG_TRANSFER);
    bus.Delay(SETTLE_US);
  }

  /** `spi_read_reg`: the result is byte 1 of what RX_DATA0 held after the
      request was sent. */
  method ReadReg(bus: Bus, addr: Byte) returns (value: Byte)
    modifies bus
    ensures var rx := bus.device(old(bus.trace) + ReadRequest(addr), SPI_RX_DATA0);
            bus.trace == old(bus.trace) + ReadTranscript(addr, rx) && value == RxByte(rx)
  {
    var txbuf := ReadWord(addr);
    bus.Write(SPI_TX_DATA0, txbuf);
    bus.Write(SPI_TX_CNT, REG_TRANSFER);
    bus.Delay(SETTLE_US);
    assert bus.trace == old(bus.trace) + ReadRequest(addr);
    var rxbuf := bus.Read(SPI_RX_DATA0);
    value := RxByte(rxbuf);
  }

  /** The bytes the SPI master shifts out for a transfer of `count` bytes:
      TX_DATA0 least significant byte first, then TX_DATA1. */
  function TxBytes(tx0: Word, tx1: Word, count: nat): (bytes: seq<Byte>)
    requires count <= 8
    ensures |bytes| == count
    ensures forall k :: 0 <= k < count && k < 4 ==> bytes[k] == ByteOf(tx0, k)
    ensures forall k :: 4 <= k < count ==> bytes[k] == ByteOf(tx1, k - 4)
  {
    [ByteOf(tx0, 0), ByteOf(tx0, 1), ByteOf(tx0, 2), ByteOf(tx0, 3),
     ByteOf(tx1, 0), ByteOf(tx1, 1), ByteOf(tx1, 2), ByteOf(tx1, 3)][..count]
  }

  /** Against the device: `spi_write_reg(addr, data)` for a register
      address stores `data` in that register and nothing else changes,
      whatever TX_DATA1 holds. */
  lemma WriteRegStores(regs: Adxl345.RegFile, addr: Byte, data: Byte, tx1: Word)
    requires addr < 0x40
    ensures var regs' := Adxl345.Apply(regs, TxBytes(WriteWord(addr, data), tx1, 2));
            regs'(addr as nat) == data &&
            forall i: nat :: i != addr as nat ==> regs'(i) == regs(i)
  {
    var tx := TxBytes(WriteWord(addr, data), tx1, 2);
    assert tx[0] == addr && tx[1] == data;
    assert !Adxl345.IsRead(addr) && Adxl345.Register(addr) == addr;
  }

  /** Against the device: `spi_read_reg(addr)` for a register address sends
      a single-byte read of that register, and whatever RX word carries the
      device's answer in the received byte positions, the result is the
      register's content. */
  lemma ReadRegReturns(regs: Adxl345.RegFile, addr: Byte, tx1: Word, junk: Byte, rx: Word)
    requires addr < 0x40
    requires var answer := Adxl345.Respond(regs, TxBytes(ReadWord(addr), tx1, 2), junk);
             ByteOf(rx, 0) == answer[0] && ByteOf(rx, 1) == answer[1]
    ensures RxByte(rx) == regs(addr as nat)
  {
    var tx := TxBytes(ReadWord(addr), tx1, 2);
    var cmd := ByteOf(ReadWord(addr), 0);
    assert tx[0] == cmd;
    assert cmd == 0x80 | addr;
    assert Adxl345.IsRead(cmd) && !Adxl345.IsMultiByte(cmd) && Adxl345.Register(cmd) == addr;
    PackOfBytes(rx);
  }

  /** End to end: a register written with `spi_write_reg` reads back with
      `spi_read_reg` as the byte written. */
  lemma WriteThenReadBack(regs: Adxl345.RegFile, addr: Byte, data: Byte, tx1: Word, junk: Byte, rx: Word)
    requires addr < 0x40
    requires var regs' := Adxl345.Apply(regs, TxBytes(WriteWord(addr, data), tx1, 2));
             var answer := Adxl345.Respond(regs', TxBytes(ReadWord(addr), tx1, 2), junk);
             ByteOf(rx, 0) == answer[0] && ByteOf(rx, 1) == answer[1]
    ensures RxByte(rx) == data
  {
    var regs' := Adxl345.Apply(regs, TxBytes(WriteWord(addr, data), tx1, 2));
    WriteRegStores(regs, addr, data, tx1);
    ReadRegReturns(regs', addr, tx1, junk, rx);
  }
}
