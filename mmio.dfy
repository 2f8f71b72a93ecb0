/** The program's view of the outside world: memory-mapped register
    accesses (`WR_REG`/`RD_REG`), `usleep` delays and `xil_printf` lines,
    recorded in order as a trace of events. What a register read returns
    is decided by the hardware, modelled as an oracle that may depend on
    everything the program has done before. */
module Mmio {
  import opened Bits

  // Peripheral base addresses (AXI address map of the design).
  const SPI_BASE: nat := 0x43C1_0000
  const CORDIC_BASE: nat := 0x43C0_0000

  // SPI master register addresses.
  const SPI_CFG: nat := SPI_BASE + 0x00
  const SPI_TX_CNT: nat := SPI_BASE + 0x04
  const SPI_TX_DATA0: nat := SPI_BASE + 0x08
  const SPI_TX_DATA1: nat := SPI_BASE + 0x0C
  const SPI_RX_DATA0: nat := SPI_BASE + 0x18
  const SPI_RX_DATA1: nat := SPI_BASE + 0x1C

  // CORDIC engine register addresses.
  const CORDIC_Y: nat := CORDIC_BASE + 0x00
  const CORDIC_Z: nat := CORDIC_BASE + 0x04
  const CORDIC_CTRL: nat := CORDIC_BASE + 0x08
  const CORDIC_STATUS: nat := CORDIC_BASE + 0x0C
  const CORDIC_ANGLE: nat := CORDIC_BASE + 0x10

  /** The console lines the core prints, by content (formatting and the
      floating-point fields are not modelled). */
  datatype Message =
    | DeviceId(id: Byte)                              // "ADXL345 Device ID: 0x.."
    | WrongDeviceId                                   // "WARNING: Wrong device ID!"
    | Configured                                      // "ADXL345 configured"
    | TestCase(number: nat, y: Short, z: Short, hw: Short)
    | SampleReport(count: nat, y: Short, z: Short, hw: Short)

  datatype Event =
    | Store(addr: nat, value: Word)   // WR_REG
    | Load(addr: nat, value: Word)    // RD_REG, with the value the hardware returned
    | Sleep(us: nat)                  // usleep
    | Say(msg: Message)               // xil_printf

  /** The console lines of a trace, in order. */
  function Messages(es: seq<Event>): seq<Message>
  {
    if es == [] then []
    else Messages(es[..|es| - 1]) + (if es[|es| - 1].Say? then [es[|es| - 1].msg] else [])
  }

  /** The console output of consecutive trace pieces is the concatenation
      of their outputs. */
  lemma {:induction false} MessagesAppend(a: seq<Event>, b: seq<Event>)
    ensures Messages(a + b) == Messages(a) + Messages(b)
    decreases |b|
  {
    if b == [] {
      assert a + b == a;
    } else {
      var b' := b[..|b| - 1];
      assert (a + b)[..|a + b| - 1] == a + b';
      MessagesAppend(a, b');
    }
  }

  /** The register writes of a trace, in order. */
  function Stores(es: seq<Event>): seq<Event>
  {
    if es == [] then []
    else Stores(es[..|es| - 1]) + (if es[|es| - 1].Store? then [es[|es| - 1]] else [])
  }

  lemma {:induction false} StoresAppend(a: seq<Event>, b: seq<Event>)
    ensures Stores(a + b) == Stores(a) + Stores(b)
    decreases |b|
  {
    if b == [] {
      assert a + b == a;
    } else {
      var b' := b[..|b| - 1];
      assert (a + b)[..|a + b| - 1] == a + b';
      StoresAppend(a, b');
    }
  }

  /** A trace that prints nothing: every event is a register access or a delay. */
  ghost predicate Silent(es: seq<Event>)
  {
    forall i :: 0 <= i < |es| ==> !es[i].Say?
  }

  lemma {:induction false} SilentHasNoMessages(es: seq<Event>)
    requires Silent(es)
    ensures Messages(es) == []
    decreases |es|
  {
    if es != [] {
      SilentHasNoMessages(es[..|es| - 1]);
    }
  }

  datatype Option<T> = None | Some(value: T)

  /** A silent piece of trace followed by at most one console line adds
      just that line to the output. */
  lemma QuietPiece(pre: seq<Event>, piece: seq<Event>, line: Option<Message>)
    requires Messages(piece) == []
    ensures line.None? ==> Messages(pre + piece) == Messages(pre)
    ensures line.Some? ==> Messages(pre + piece + [Say(line.value)]) == Messages(pre) + [line.value]
  {
    MessagesAppend(pre, piece);
    if line.Some? {
      MessagesAppend(pre + piece, [Say(line.value)]);
      assert Messages([Say(line.value)]) == Messages([Say(line.value)][..0]) + [line.value];
    }
  }

  /** The hardware: the value a read of `addr` returns after `history`. */
  type Device = (seq<Event>, nat) -> Word

  /** The memory bus together with the console, as seen by the program. */
  class Bus {
    /** Everything the program has done so far, oldest first. */
    var trace: seq<Event>
    const device: Device

    constructor (device: Device)
      ensures trace == [] && this.device == device
    {
      this.device := device;
      trace := [];
    }

    /** `WR_REG(base, off, value)`. */
    method Write(addr: nat, value: Word)
      modifies this
      ensures trace == old(trace) + [Store(addr, value)]
    {
      trace := trace + [Store(addr, value)];
    }

    /** `RD_REG(base, off)`. */
    method Read(addr: nat) returns (value: Word)
      modifies this
      ensures value == device(old(trace), addr)
      ensures trace == old(trace) + [Load(addr, value)]
    {
      value := device(trace, addr);
      trace := trace + [Load(addr, value)];
    }

    /** `usleep(us)`. */
    method Delay(us: nat)
      modifies this
      ensures trace == old(trace) + [Sleep(us)]
    {
      trace := trace + [Sleep(us)];
    }

    /** `xil_printf(...)`. */
    method Print(msg: Message)
      modifies this
      ensures trace == old(trace) + [Say(msg)]
    {
      trace := trace + [Say(msg)];
    }
  }
}
