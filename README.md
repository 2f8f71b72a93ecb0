# CORDIC tilt-angle host program, modelled in Dafny

The host program on the Zynq processor (`software/main.c`) does four jobs:

- it talks to an ADXL345 accelerometer through an SPI master peripheral;
- it feeds accelerometer pairs (Y, Z) to a CORDIC angle engine in the programmable logic;
- it reads the angle back;
- it hands readings from a timer interrupt to the main loop through one shared slot.

This project models that host code and proves what it does on the bus and on the console.

- **Bits**: the C words as bit-vectors. `u8` is `bv8`, a C `short` is its 16-bit pattern (`bv16`), and `u32` is `bv32`. `Signed` gives the integer a `short` pattern stands for. There are also byte extraction, packing, sign extension and truncation.
- **Mmio**: the outside world as the program sees it. A `Bus` object records every `WR_REG`, `RD_REG`, `usleep` and `xil_printf` as a trace of events. Register reads are answered by a device oracle that may depend on the whole history. `Messages` and `Stores` project the console output and the register writes out of a trace.
- **Adxl345**: an independent reference for the accelerometer's side of an SPI transfer. It covers the command byte (read bit 7, multi-byte bit 6, register address), the answer one byte after the command, and register writes. The host's framing is proved against it.
- **Spi**: `spi_write_reg`, `spi_read_reg` and the settle delay.
- **Accel**: `spi_init` (identity check, configuration writes) and `read_accel` (burst read, little-endian decode of three axes).
- **Cordic**: `cordic_calc` (operand masks, start strobe, busy-wait, result mask) and the register side of the start-up battery `cordic_tests`.
- **Sampling**: the shared globals and the two pieces of code that use them.
  - The slot semantics are stated on values: `Slot`, `Tick`, `Consume`, `Run`, `Readings`, `Reports`.
  - The class `Sampler` holds the globals as fields. Its methods `TimerIsr` and `ConsumerStep`, and the scheduler `Execute`, are proved to follow those functions.

## Model

| member | source | states |
|---|---|---|
| Bits.Join | software/main.c:118-120 | the short `lo` OR (`hi` << 8) has `lo` as its low byte and `hi` as its high byte |
| Bits.JoinOfBytes | software/main.c:118-120 | every short is the join of its own low and high byte |
| Bits.Pack | software/main.c:115-120 | a word packed from four bytes yields those bytes back at positions 0..3 |
| Bits.PackOfBytes | software/main.c:115-120 | a 32-bit RX word is determined by its four bytes |
| Bits.Signed | software/main.c:46 | the value of a `short` lies in -32768..32767 |
| Bits.SignedEncodes | software/main.c:46 | the two's-complement encoding of a short's value is its bit pattern again |
| Bits.SignedNegativeIffHighBit | software/main.c:118-120 | a short built from (lo, hi) is negative exactly when hi >= 0x80 |
| Bits.SignedNegativeIffTopBit | software/main.c:124-125 | a short is negative exactly when bit 15 is set |
| Bits.SignExtend | software/main.c:124-125 | promotion of a short to `int` keeps the low 16 bits and fills bits 16..31 with copies of bit 15 |
| Bits.Truncate16 | software/main.c:118-120 | `(short)` of a word keeps exactly its bytes 0 and 1 |
| Mmio.Bus.Write | software/main.c:42 | a register write appends exactly one store event to the trace |
| Mmio.Bus.Read | software/main.c:43 | a register read returns what the hardware answers after the history so far, and records that value |
| Mmio.Bus.Delay | software/main.c:55 | `usleep` appends one delay event |
| Mmio.Bus.Print | software/main.c:88 | `xil_printf` appends one console line |
| Adxl345.Respond | software/main.c:80-81 | reference device: a single-byte read answers the addressed register at every position after the command; a multi-byte read answers consecutive registers; byte 0 is junk |
| Adxl345.Apply | software/main.c:61-64 | reference device: a two-byte write stores its data byte in the addressed register and changes no other; a read changes nothing |
| Spi.WriteWord | software/main.c:61 | the TX word has `addr` in bits 0-7, `data` in bits 8-15 and zero in bits 16-31 |
| Spi.ReadWord | software/main.c:73 | the TX word has bit 7 set, bits 0-6 equal to the address's, and bits 8-31 zero |
| Spi.RxByte | software/main.c:81 | the result is exactly byte 1 of RX_DATA0: with the other three bytes it packs back to the RX word |
| Spi.WriteReg | software/main.c:58-67 | the trace gains exactly: TX word to TX_DATA0, then 2 to TX_CNT, then the 5000 us settle delay |
| Spi.ReadReg | software/main.c:69-82 | the trace gains the read TX word, TX_CNT = 2, the delay, then one RX_DATA0 read; the result is byte 1 of the value that read returned |
| Spi.TxBytes | software/main.c:107-111 | the SPI master sends TX_DATA0 least significant byte first, then TX_DATA1, `count` bytes in all |
| Spi.WriteRegStores | software/main.c:58-67 | against the reference device, a register write stores `data` in register `addr` and leaves every other register unchanged |
| Spi.ReadRegReturns | software/main.c:69-82 | against the reference device, a register read returns that register's content |
| Spi.WriteThenReadBack | software/main.c:58-82 | a byte written with `spi_write_reg` reads back with `spi_read_reg` as that byte |
| Accel.BurstCommand | software/main.c:107 | the command is a multi-byte read starting at DATAX0 (0x32) and occupies only byte 0 of TX_DATA0 |
| Accel.Decode | software/main.c:118-120 | X is RX bytes 1,2; Y is bytes 3,4; Z is bytes 5,6; each is little-endian, across the two RX words |
| Accel.DecodeEncode | software/main.c:115-120 | for all shorts x, y, z, placing their little-endian bytes at RX positions 1..6 decodes to exactly (x, y, z), whatever bytes 0 and 7 hold |
| Accel.EncodeDecode | software/main.c:115-120 | conversely, the decode loses nothing from bytes 1..6: re-encoding the decoded axes with the original bytes 0 and 7 gives the RX words back |
| Accel.DecodeSign | software/main.c:118-120 | each decoded axis is negative exactly when its high byte is >= 0x80 |
| Accel.BurstReadsAxisRegisters | software/main.c:107-120 | against the reference device, the burst decodes to the registers DATAX0/1, DATAY0/1, DATAZ0/1 |
| Accel.BurstIsSilent | software/main.c:103-121 | a burst read prints nothing |
| Accel.ReadAccel | software/main.c:103-121 | the trace gains TX_DATA0 = 0xF2, TX_DATA1 = 0, TX_CNT = 7, the delay, then the RX_DATA0 and RX_DATA1 reads; the result is the decode of the two words read |
| Accel.Init | software/main.c:84-101 | the trace gains the DEVID read, the identity line, the warning iff the identity is not 0xE5, the DATA_FORMAT and POWER_CTL writes each followed by 10000 us, then the completion line |
| Accel.InitMessages | software/main.c:87-100 | the console shows the identity, then the warning exactly when the identity is not 0xE5 (at most once), then "configured" in every case |
| Accel.IdentifyMessages | software/main.c:87-92 | the identity check prints the identity line and, iff the identity is wrong, one warning |
| Accel.ConfigureMessages | software/main.c:94-100 | the configuration prints only the completion line |
| Accel.InitWrites | software/main.c:87-97 | whatever identity is read, the register writes are: the DEVID read request, then DATA_FORMAT = 0x0B, then POWER_CTL = 0x08, each as TX word then TX_CNT = 2, so a mismatch is not fatal |
| Accel.IdentifyStores | software/main.c:87 | the identity check writes only the DEVID read request |
| Accel.ConfigureStores | software/main.c:94-97 | the configuration writes DATA_FORMAT = 0x0B, then POWER_CTL = 0x08 |
| Cordic.Operand | software/main.c:124-125 | the written operand has bits 16-31 zero and its low 16 bits are the short's own pattern, so truncating it back to a short gives the original value |
| Cordic.AngleOf | software/main.c:132 | the result is bytes 0 and 1 of the ANGLE word; as a 16-bit pattern, its `int` value is in 0..65535 |
| Cordic.StatusAnswersAt | software/main.c:130 | the reference answers to consecutive STATUS reads: the i-th is the device's answer on the history of the request plus the i reads before it |
| Cordic.AwaitDone | software/main.c:130 | the busy-wait reads STATUS until bit 0 is set; every value it saw is the device's answer; without a done bit within the poll budget, every read said busy |
| Cordic.Calc | software/main.c:123-133 | on completion the trace is: Y, Z, CTRL = 0, CTRL = 1, status reads busy until the first done, then the ANGLE read. The statuses are the engine's answers, and the result is the low half-word of the engine's ANGLE answer after them. Without completion within the poll budget, every status read said busy |
| Cordic.FinishedOrder | software/main.c:127-132 | in a completed calculation, CTRL = 0 comes before CTRL = 1, every status read before the last says busy, and ANGLE is read only after a status read with bit 0 set |
| Cordic.PollsAreSilent | software/main.c:130 | the busy-wait prints nothing |
| Cordic.CalcIsSilent | software/main.c:123-133 | a calculation prints nothing, finished or not |
| Cordic.TestVectorValues | software/main.c:140-141 | the six test vectors have the C program's signed values, -4096 included |
| Cordic.TestLines | software/main.c:155 | line i of the battery is test case i + 1, with vector i and its result |
| Cordic.BatteryMessages | software/main.c:146-159 | the battery's console output is one line per test case, in order |
| Cordic.RunTest | software/main.c:147-155 | one test case: the calculation of vector n, then its line if it finished, with the engine's answers |
| Cordic.BatteryTurn | software/main.c:147-155 | the next test case on the trace the earlier ones left: if it finishes, the battery grows by its calculation, with the engine's answers, and by its line; otherwise it is spinning on busy statuses |
| Cordic.RunTests | software/main.c:139-160 | all six vectors go through the calculation in order, each followed by its line. Every calculation saw the engine's answers on the history left by the ones before it, so each printed angle is the engine's ANGLE answer. If one hangs, the trace ends in its unfinished busy-wait |
| Sampling.Tick | software/main.c:167-170 | after the ISR the slot holds the new pair, the flag is raised, and the counter is unchanged, whatever was pending |
| Sampling.Consume | software/main.c:273-298 | with the flag raised, the consumer clears it, keeps the pair and adds exactly 1 to the counter; with the flag down, nothing changes |
| Sampling.Run | software/main.c:272-299 | after a schedule, the flag is raised exactly when the last step was the ISR |
| Sampling.Reports | software/main.c:284 | a reading is reported exactly when it was taken and its counter value is a multiple of 10 |
| Sampling.IsrOnlyLastWins | software/main.c:167-170 | after any non-empty run of ISR steps, the slot holds the last pair, the flag is up and nothing has been taken |
| Sampling.ConsumerReadsLast | software/main.c:273-276 | the consumer step after such a run takes exactly the last pair written, clears the flag and counts it |
| Sampling.NoDoubleTake | software/main.c:273-276 | consumer steps with no ISR between them take at most one reading, the one pending before them; after the first they do nothing |
| Sampling.RunCount | software/main.c:298 | readings carry consecutive counter values from the initial one, and the final counter is the initial one plus their number |
| Sampling.SlotHoldsLatest | software/main.c:167-168 | the slot always holds the most recent ISR pair, so any reading taken is the latest pair delivered before it |
| Sampling.ReportsOfConsecutive | software/main.c:284 | over readings with consecutive counts c, c+1, ..., the reported counts are exactly the multiples of 10 in that range, in order |
| Sampling.ReportsOfRun | software/main.c:284-298 | from any counter value, under any schedule, reports fall exactly on the multiples of 10 passed |
| Sampling.Reports25 | software/main.c:284-298 | over the first 25 readings after reset, in any interleaving, reports are made for counts 0, 10 and 20 only |
| Sampling.MultiplesBelow25 | software/main.c:284 | the multiples of 10 below 25 are 0, 10, 20 |
| Sampling.ReportMessagesAreReports | software/main.c:284-296 | the printed sample reports are the gated readings, in order, with their counts and pairs |
| Sampling.ReportLineMessages | software/main.c:284-296 | one reading prints one sample report if its count is a multiple of 10, otherwise nothing |
| Sampling.Reports25Printed | software/main.c:284-296 | the console shows exactly three sample reports for the first 25 readings, for samples 0, 10 and 20 |
| Sampling.Sampler.constructor | software/main.c:46-48 | the globals start as zero, flag down, counter 0 |
| Sampling.Sampler.TimerIsr | software/main.c:162-175 | the trace gains one burst read; the globals become `Tick` of the old ones with the decoded Y and Z |
| Sampling.Report | software/main.c:284-296 | the detailed report line is printed exactly when the counter is a multiple of 10 |
| Sampling.Sampler.ConsumerStep | software/main.c:273-298 | idle iff the flag was down, and then nothing changes. Otherwise it takes (count, Y, Z), clears the flag, and runs the calculation on the engine's answers. If that finishes, the report line with the engine's angle appears iff the count is a multiple of 10, and the count advances by 1 |
| Sampling.StepOf | software/main.c:165-168 | an ISR turn stores exactly the Y and Z axes decoded from its two RX words |
| Sampling.TurnMessages | software/main.c:272-299 | a turn prints the report of the reading it takes, with its CORDIC angle, and nothing else |
| Sampling.TranscriptMessages | software/main.c:272-299 | the console output of any sequence of turns is the reports of exactly the readings taken, with the angles the engine gave for them |
| Sampling.ScheduleOutput | software/main.c:272-299 | the same, when the schedule ends in a calculation that is still spinning |
| Sampling.TakeTurn | software/main.c:272-299 | an ISR turn does one burst read of the device's answers and stores their decoded Y and Z. A loop turn either does nothing, or calculates the pending pair on the engine's answers and prints its report line; the globals change as `Apply` does |
| Sampling.ScheduleTurn | software/main.c:272-299 | one more turn extends the schedule's transcript, its state and its record of genuine answers |
| Sampling.Interleave | software/main.c:272-300 | for any order of ISR and main-loop turns, the trace is the concatenation of the turns' transcripts, each on the hardware's answers; the globals follow `Run` |
| Sampling.Execute | software/main.c:272-300 | as `Interleave`; in addition the console shows `ReportMessages` of exactly the readings taken, with the CORDIC angles the engine returned |

## Left out

- Floating point: `q312_to_rad`, `atan2f`, `fabsf`, the degree and error computations, and the battery's hardware-versus-software comparison. The CORDIC arithmetic itself runs in hardware outside this program.
- Console lines are recorded by content, one message per group of lines. A `TestCase` message stands for the four lines of one test case (software/main.c:155-158). It carries the test number, Y and Z as printed, and the raw angle that the float fields are computed from; the raw angle is not itself printed there. A `SampleReport` message stands for the five lines of a detailed report (software/main.c:286-296). It carries the sample count, Y, Z and the raw angle, which line 288 prints with `%d`.
- `%d.%02d` / `%d.%04d` formatting and the banner lines of `main` ("=====", "Initializing", "ADXL345 ready", "Running fixed", "Setting up timer", "Starting 500ms timer"). These are plain output with no data.
- `tmr_setup`, `setup_intr_sys`, their failure messages in `main`, and the timer CSR acknowledge in `tmr_isr` (software/main.c:172-174, 177-237). These are Xilinx driver calls whose code is not part of this model.
- The start-up sequence of `main`: `Init`, `RunTests` and `Execute` are each modelled, but not one method that chains them with the banner lines.
- Hardware behaviour: the SPI master, the ADXL345 and the CORDIC engine are a device oracle. Nothing is assumed about what they return, except where a lemma states it against the `Adxl345` reference.
- Cordic.Calc: the status poll at software/main.c:130 has no bound in C. The model stops after `maxPolls` status reads and reports `Stuck`; a real run would spin forever there.
- Sampling.Execute: `while(1)` is modelled as a finite schedule of turns. With a hung calculation, execution ends at that turn.
- Interrupt preemption: every ISR and every main-loop iteration is one atomic step. Torn reads of `glob_y`/`glob_z` are not modelled. Neither is the reading lost when the ISR fires between the copy and `data_rdy = 0` (software/main.c:274-276).
- Sampling.Sampler: `smpl_cnt` is an unbounded natural number, so the signed overflow after 2^31 readings is not modelled. `data_rdy` is a boolean.
- Sampling.ReportLine: the sample report records the 16-bit angle pattern. The C code prints it with `%d` as the unsigned value 0..65535 (`Cordic.AngleOf`), which the pattern determines.
- The `usleep` delays are recorded as events, with no timing meaning.
- `SPI_CFG_REG` is declared but never used by the program; the model declares the address and nothing uses it.
