/** The CORDIC angle engine client: operands in, rising-edge start strobe,
    busy-wait on the done bit, angle out (`cordic_calc`,
    software/main.c:123-133), and the start-up battery of fixed test
    vectors (`cordic_tests`, software/main.c:139-160) without its
    floating-point comparison. */
module Cordic {
  import opened Bits
  import opened Mmio
  import opened Seqs

  // CTRL register values: de-assert, then assert, the start line.
  const CTRL_IDLE: Word := 0x00
  const CTRL_START: Word := 0x01
  /** STATUS bit 0: the engine has finished. */
  const STATUS_DONE: Word := 0x01

  /** The value written to an operand register:
      `(unsigned int)(v & 0xFFFF)` of a `short` promoted to `int`. The sign
      extension of the promotion does not leak into bits 16..31, and the low
      16 bits are the short's own pattern, so reading them back as a signed
      16-bit value gives the short again. */
  function Operand(v: Short): (w: Word)
    ensures (w >> 16) == 0
    ensures Truncate16(w) == v
  {
    SignExtend(v) & 0xFFFF
  }

  /** The result of `cordic_calc`: `(int)(RD_REG(ANGLE) & 0xFFFF)`, the
      low half-word of the ANGLE register. Its value as a C `int` is
      `AngleOf(raw) as int`, in 0..65535 because it is a 16-bit pattern;
      `(short)` of it, as the callers apply, is `Signed(AngleOf(raw))`. */
  function AngleOf(raw: Word): (a: Short)
    ensures Lo(a) == ByteOf(raw, 0) && Hi(a) == ByteOf(raw, 1)
  {
    (raw & 0xFFFF) as Short
  }

  /** A status word that says the engine is still busy. */
  predicate Busy(status: Word) { (status & STATUS_DONE) == 0 }

  /** The operand writes and the start strobe of `cordic_calc(y, z)`. */
  function Request(y: Short, z: Short): seq<Event>
  {
    [Store(CORDIC_Y, Operand(y)), Store(CORDIC_Z, Operand(z)),
     Store(CORDIC_CTRL, CTRL_IDLE), Store(CORDIC_CTRL, CTRL_START)]
  }

  /** A run of STATUS reads that returned `statuses`. */
  function Polls(statuses: seq<Word>): (es: seq<Event>)
    ensures |es| == |statuses|
  {
    if statuses == [] then []
    else Polls(statuses[..|statuses| - 1]) + [Load(CORDIC_STATUS, statuses[|statuses| - 1])]
  }

  /** The `i`-th event of a run of status reads is the `i`-th read. */
  lemma {:induction false} PollsAt(statuses: seq<Word>, i: nat)
    requires i < |statuses|
    ensures Polls(statuses)[i] == Load(CORDIC_STATUS, statuses[i])
    decreases |statuses|
  {
    if i < |statuses| - 1 {
      PollsAt(statuses[..|statuses| - 1], i);
    }
  }

  /** The busy-wait stopped at the first status with the done bit set. */
  ghost predicate StoppedAtDone(statuses: seq<Word>)
  {
    |statuses| > 0 && !Busy(statuses[|statuses| - 1]) &&
    forall i :: 0 <= i < |statuses| - 1 ==> Busy(statuses[i])
  }

  /** Every status read said busy. */
  ghost predicate AllBusy(statuses: seq<Word>)
  {
    forall i :: 0 <= i < |statuses| ==> Busy(statuses[i])
  }

  /** The answers of the engine to `n` consecutive STATUS reads issued
      after the bus history `pre`: each read is answered on the history
      that includes the reads before it. */
  function StatusAnswers(device: Device, pre: seq<Event>, n: nat): (ss: seq<Word>)
    ensures |ss| == n
  {
    if n == 0 then []
    else
      var ss := StatusAnswers(device, pre, n - 1);
      ss + [device(pre + Polls(ss), CORDIC_STATUS)]
  }

  /** The first `k` of `n` status answers are the answers to `k` reads. */
  lemma {:induction false} StatusAnswersPrefix(device: Device, pre: seq<Event>, n: nat, k: nat)
    requires k <= n
    ensures StatusAnswers(device, pre, n)[..k] == StatusAnswers(device, pre, k)
    decreases n
  {
    if k < n {
      StatusAnswersPrefix(device, pre, n - 1, k);
      var ss := StatusAnswers(device, pre, n - 1);
      assert StatusAnswers(device, pre, n)[..n - 1] == ss;
    }
  }

  /** Read by read: the `i`-th status answer is what the device returns on
      the history of the request followed by the `i` reads before it. */
  lemma StatusAnswersAt(device: Device, pre: seq<Event>, statuses: seq<Word>)
    requires statuses == StatusAnswers(device, pre, |statuses|)
    ensures forall i :: 0 <= i < |statuses| ==>
              statuses[i] == device(pre + Polls(statuses[..i]), CORDIC_STATUS)
  {
    forall i | 0 <= i < |statuses|
      ensures statuses[i] == device(pre + Polls(statuses[..i]), CORDIC_STATUS)
    {
      StatusAnswersPrefix(device, pre, |statuses|, i + 1);
      StatusAnswersPrefix(device, pre, |statuses|, i);
      assert statuses[..i + 1][i] == statuses[i];
    }
  }

  /** The status reads after the request of (y, z) following `pre` returned
      the engine's answers `statuses`. */
  ghost predicate PolledFrom(device: Device, pre: seq<Event>, y: Short, z: Short, statuses: seq<Word>)
  {
    statuses == StatusAnswers(device, pre + Request(y, z), |statuses|)
  }

  /** The bus events of a `cordic_calc(y, z)` whose status reads returned
      `statuses` and whose ANGLE read returned `raw`. */
  function Finished(y: Short, z: Short, statuses: seq<Word>, raw: Word): seq<Event>
  {
    Request(y, z) + Polls(statuses) + [Load(CORDIC_ANGLE, raw)]
  }

  datatype Outcome = Done(angle: Short) | Stuck

  /** What one calculation saw: its status reads and its ANGLE word. */
  datatype Calculation = Calculation(statuses: seq<Word>, raw: Word)

  /** A calculation of (y, z) after `pre` saw the engine's answers: its
      status reads, and then the ANGLE read after the last of them. */
  ghost predicate AnsweredFrom(device: Device, pre: seq<Event>, y: Short, z: Short, c: Calculation)
  {
    PolledFrom(device, pre, y, z, c.statuses) &&
    c.raw == device(pre + Request(y, z) + Polls(c.statuses), CORDIC_ANGLE)
  }

  /** `cordic_calc`, with the busy-wait cut off after `maxPolls` status
      reads (the C loop has no bound). `statuses` are the values the status
      reads returned and `raw` the ANGLE word, both as the engine answered. */
  method Calc(bus: Bus, y: Short, z: Short, maxPolls: nat)
    returns (r: Outcome, ghost statuses: seq<Word>, ghost raw: Word)
    modifies bus
    ensures PolledFrom(bus.device, old(bus.trace), y, z, statuses)
    ensures r.Done? ==> AnsweredFrom(bus.device, old(bus.trace), y, z, Calculation(statuses, raw))
    ensures r.Done? ==> bus.trace == old(bus.trace) + Finished(y, z, statuses, raw)
    ensures r.Done? ==> StoppedAtDone(statuses) && r.angle == AngleOf(raw)
    ensures r.Stuck? ==> bus.trace == old(bus.trace) + Request(y, z) + Polls(statuses)
    ensures r.Stuck? ==> |statuses| == maxPolls && AllBusy(statuses)
  {
    ghost var t0 := bus.trace;
    bus.Write(CORDIC_Y, Operand(y));
    bus.Write(CORDIC_Z, Operand(z));
    bus.Write(CORDIC_CTRL, CTRL_IDLE);
    bus.Write(CORDIC_CTRL, CTRL_START);
    assert bus.trace == t0 + Request(y, z);
    var done;
    done, statuses := AwaitDone(bus, maxPolls);
    raw := 0;
    if !done {
      r := Stuck;
      return;
    }
    var angle := bus.Read(CORDIC_ANGLE);
    raw := angle;
    AppendAssoc(t0, Request(y, z), Polls(statuses));
    AppendAssoc(t0, Request(y, z) + Polls(statuses), [Load(CORDIC_ANGLE, raw)]);
    r := Done(AngleOf(angle));
  }

  /** The busy-wait of `cordic_calc`: STATUS reads until bit 0 is set, cut
      off after `maxPolls` reads. */
  method AwaitDone(bus: Bus, maxPolls: nat) returns (done: bool, ghost statuses: seq<Word>)
    modifies bus
    ensures bus.trace == old(bus.trace) + Polls(statuses)
    ensures statuses == StatusAnswers(bus.device, old(bus.trace), |statuses|)
    ensures done ==> StoppedAtDone(statuses)
    ensures !done ==> |statuses| == maxPolls && AllBusy(statuses)
  {
    ghost var t0 := bus.trace;
    statuses := [];
    var polls: nat := 0;
    done := false;
    while !done && polls < maxPolls
      invariant polls == |statuses| <= maxPolls
      invariant bus.trace == t0 + Polls(statuses)
      invariant statuses == StatusAnswers(bus.device, t0, |statuses|)
      invariant forall i :: 0 <= i < |statuses| - 1 ==> Busy(statuses[i])
      invariant done <==> |statuses| > 0 && !Busy(statuses[|statuses| - 1])
      decreases maxPolls - polls
    {
      var status := bus.Read(CORDIC_STATUS);
      PollStep(bus.device, t0, statuses, status);
      statuses := statuses + [status];
      polls := polls + 1;
      done := !Busy(status);
    }
  }

  /** One more status read extends both the read events and the answers. */
  lemma PollStep(device: Device, pre: seq<Event>, statuses: seq<Word>, status: Word)
    requires statuses == StatusAnswers(device, pre, |statuses|)
    requires status == device(pre + Polls(statuses), CORDIC_STATUS)
    ensures statuses + [status] == StatusAnswers(device, pre, |statuses| + 1)
    ensures pre + Polls(statuses) + [Load(CORDIC_STATUS, status)] == pre + Polls(statuses + [status])
  {
    assert (statuses + [status])[..|statuses|] == statuses;
    AppendAssoc(pre, Polls(statuses), [Load(CORDIC_STATUS, status)]);
  }

  /** The protocol order of a completed calculation: Y operand, Z operand,
      CTRL = 0, CTRL = 1, then status reads that say busy, one that says
      done, and only then the ANGLE read, whose low half-word is the result. */
  lemma FinishedOrder(y: Short, z: Short, statuses: seq<Word>, raw: Word)
    requires StoppedAtDone(statuses)
    ensures var es := Finished(y, z, statuses, raw);
      |es| >= 6 &&
      es[0] == Store(CORDIC_Y, Operand(y)) && es[1] == Store(CORDIC_Z, Operand(z)) &&
      es[2] == Store(CORDIC_CTRL, CTRL_IDLE) && es[3] == Store(CORDIC_CTRL, CTRL_START) &&
      (forall i :: 4 <= i < |es| - 2 ==> es[i].Load? && es[i].addr == CORDIC_STATUS && Busy(es[i].value)) &&
      es[|es| - 2].Load? && es[|es| - 2].addr == CORDIC_STATUS && !Busy(es[|es| - 2].value) &&
      es[|es| - 1] == Load(CORDIC_ANGLE, raw)
  {
    var es := Finished(y, z, statuses, raw);
    forall i | 4 <= i < |es| - 1
      ensures es[i] == Load(CORDIC_STATUS, statuses[i - 4])
    {
      PollsAt(statuses, i - 4);
    }
  }

  lemma {:induction false} PollsAreSilent(statuses: seq<Word>)
    ensures Messages(Polls(statuses)) == []
    decreases |statuses|
  {
    if statuses != [] {
      var pre := statuses[..|statuses| - 1];
      var e := Load(CORDIC_STATUS, statuses[|statuses| - 1]);
      PollsAreSilent(pre);
      MessagesAppend(Polls(pre), [e]);
      assert Messages([e]) == Messages([e][..0]);
    }
  }

  /** A calculation prints nothing, finished or not. */
  lemma CalcIsSilent(y: Short, z: Short, statuses: seq<Word>, raw: Word)
    ensures Messages(Request(y, z) + Polls(statuses)) == []
    ensures Messages(Finished(y, z, statuses, raw)) == []
  {
    SilentHasNoMessages(Request(y, z));
    PollsAreSilent(statuses);
    MessagesAppend(Request(y, z), Polls(statuses));
    var e := Load(CORDIC_ANGLE, raw);
    MessagesAppend(Request(y, z) + Polls(statuses), [e]);
    assert Messages([e]) == Messages([e][..0]);
  }

  // The start-up test vectors (Y, Z), in Q3.12.
  const TEST_Y: seq<Short> := [4096, 0, 4096, 2048, 0xF000, 256]
  const TEST_Z: seq<Short> := [4096, 4096, 0, 4096, 4096, 512]

  /** The test vectors as the C program's signed values. */
  lemma TestVectorValues()
    ensures |TEST_Y| == |TEST_Z| == 6
    ensures forall i :: 0 <= i < 6 ==>
              Signed(TEST_Y[i]) == [4096, 0, 4096, 2048, -4096, 256][i] &&
              Signed(TEST_Z[i]) == [4096, 4096, 0, 4096, 4096, 512][i]
  {
  }

  /** The console line of test case `i` (numbered from 1). */
  function TestLine(i: nat, angle: Short): Message
    requires i < 6
  {
    TestCase(i + 1, TEST_Y[i], TEST_Z[i], angle)
  }

  /** The console lines of the first |angles| test cases. */
  function TestLines(angles: seq<Short>): (ms: seq<Message>)
    requires |angles| <= 6
    ensures |ms| == |angles|
    ensures forall i :: 0 <= i < |angles| ==> ms[i] == TestLine(i, angles[i])
  {
    if angles == [] then []
    else TestLines(angles[..|angles| - 1]) + [TestLine(|angles| - 1, angles[|angles| - 1])]
  }

  /** The trace of the first |runs| test cases, each calculation followed
      by its console line. */
  function Battery(runs: seq<Calculation>): seq<Event>
    requires |runs| <= 6
  {
    if runs == [] then []
    else
      var n := |runs| - 1;
      Battery(runs[..n]) + Finished(TEST_Y[n], TEST_Z[n], runs[n].statuses, runs[n].raw)
        + [Say(TestLine(n, AngleOf(runs[n].raw)))]
  }

  lemma BatterySnoc(runs: seq<Calculation>, c: Calculation)
    requires |runs| < 6
    ensures Battery(runs + [c]) == Battery(runs) + Finished(TEST_Y[|runs|], TEST_Z[|runs|], c.statuses, c.raw)
                                     + [Say(TestLine(|runs|, AngleOf(c.raw)))]
  {
    assert (runs + [c])[..|runs|] == runs;
  }

  /** The console output of a battery is one line per test case, in order,
      numbered from 1, each with the case's inputs and its result. */
  lemma {:induction false} BatteryMessages(runs: seq<Calculation>, angles: seq<Short>)
    requires |runs| == |angles| <= 6
    requires forall i :: 0 <= i < |runs| ==> angles[i] == AngleOf(runs[i].raw)
    ensures Messages(Battery(runs)) == TestLines(angles)
    decreases |runs|
  {
    if runs != [] {
      var n := |runs| - 1;
      var c := runs[n];
      var b := Battery(runs[..n]);
      var f := Finished(TEST_Y[n], TEST_Z[n], c.statuses, c.raw);
      var l := TestLine(n, angles[n]);
      assert Battery(runs) == b + f + [Say(l)];
      BatteryMessages(runs[..n], angles[..n]);
      CalcIsSilent(TEST_Y[n], TEST_Z[n], c.statuses, c.raw);
      QuietPiece(b, f, Some(l));
      assert TestLines(angles) == TestLines(angles[..n]) + [l];
    }
  }

  /** One test case of `cordic_tests`: the calculation of vector `n`, then
      its console line if it finished. */
  method RunTest(bus: Bus, n: nat, maxPolls: nat) returns (r: Outcome, ghost c: Calculation)
    requires n < 6
    modifies bus
    ensures r.Done? ==> bus.trace == old(bus.trace) + Finished(TEST_Y[n], TEST_Z[n], c.statuses, c.raw)
                                     + [Say(TestLine(n, AngleOf(c.raw)))]
    ensures r.Done? ==> StoppedAtDone(c.statuses) && r.angle == AngleOf(c.raw)
    ensures r.Stuck? ==> bus.trace == old(bus.trace) + Request(TEST_Y[n], TEST_Z[n]) + Polls(c.statuses)
    ensures r.Stuck? ==> |c.statuses| == maxPolls && AllBusy(c.statuses)
    ensures PolledFrom(bus.device, old(bus.trace), TEST_Y[n], TEST_Z[n], c.statuses)
    ensures r.Done? ==> AnsweredFrom(bus.device, old(bus.trace), TEST_Y[n], TEST_Z[n], c)
  {
    ghost var statuses, raw;
    r, statuses, raw := Calc(bus, TEST_Y[n], TEST_Z[n], maxPolls);
    c := Calculation(statuses, raw);
    if r.Done? {
      bus.Print(TestLine(n, r.angle));
    }
  }

  /** Appending one finished test case to a battery's trace. */
  lemma BatteryStep(t0: seq<Event>, runs: seq<Calculation>, c: Calculation)
    requires |runs| < 6
    ensures t0 + Battery(runs + [c]) ==
            t0 + Battery(runs) + Finished(TEST_Y[|runs|], TEST_Z[|runs|], c.statuses, c.raw)
            + [Say(TestLine(|runs|, AngleOf(c.raw)))]
  {
    BatterySnoc(runs, c);
    var b, f, l := Battery(runs), Finished(TEST_Y[|runs|], TEST_Z[|runs|], c.statuses, c.raw),
                   [Say(TestLine(|runs|, AngleOf(c.raw)))];
    AppendAssoc(t0, b + f, l);
    AppendAssoc(t0, b, f);
  }

  /** Every calculation in `runs` stopped at its done status and gave the
      matching angle. */
  ghost predicate FinishedRuns(runs: seq<Calculation>, angles: seq<Short>)
    requires |runs| == |angles|
  {
    forall i :: 0 <= i < |runs| ==> StoppedAtDone(runs[i].statuses) && angles[i] == AngleOf(runs[i].raw)
  }

  /** Every calculation of the battery started after the ones before it
      and saw the engine's answers. */
  ghost predicate BatteryAnswered(device: Device, t0: seq<Event>, runs: seq<Calculation>)
    requires |runs| <= 6
  {
    runs == [] ||
    var n := |runs| - 1;
    BatteryAnswered(device, t0, runs[..n]) &&
    AnsweredFrom(device, t0 + Battery(runs[..n]), TEST_Y[n], TEST_Z[n], runs[n])
  }

  lemma BatteryAnsweredSnoc(device: Device, t0: seq<Event>, runs: seq<Calculation>, c: Calculation)
    requires |runs| < 6 && BatteryAnswered(device, t0, runs)
    requires AnsweredFrom(device, t0 + Battery(runs), TEST_Y[|runs|], TEST_Z[|runs|], c)
    ensures BatteryAnswered(device, t0, runs + [c])
  {
    SnocPrefix(runs, c);
  }

  lemma FinishedRunsSnoc(runs: seq<Calculation>, angles: seq<Short>, c: Calculation, a: Short)
    requires |runs| == |angles| && FinishedRuns(runs, angles)
    requires StoppedAtDone(c.statuses) && a == AngleOf(c.raw)
    ensures FinishedRuns(runs + [c], angles + [a])
  {
  }

  /** `cordic_tests`, register side: each test vector goes through `Calc`
      and its result is printed. A calculation that does not finish within
      `maxPolls` status reads ends the battery: the C program would still be
      spinning there, with the status reads `hang`. */
  method RunTests(bus: Bus, maxPolls: nat)
    returns (angles: seq<Short>, ghost runs: seq<Calculation>, ghost hang: seq<Word>)
    modifies bus
    ensures |angles| == |runs| <= 6
    ensures FinishedRuns(runs, angles)
    ensures |runs| == 6 ==> bus.trace == old(bus.trace) + Battery(runs)
    ensures |runs| < 6 ==>
              bus.trace == old(bus.trace) + Battery(runs) + Request(TEST_Y[|runs|], TEST_Z[|runs|]) + Polls(hang)
    ensures |runs| < 6 ==> |hang| == maxPolls && AllBusy(hang)
    ensures BatteryAnswered(bus.device, old(bus.trace), runs)
    ensures |runs| < 6 ==> PolledFrom(bus.device, old(bus.trace) + Battery(runs), TEST_Y[|runs|], TEST_Z[|runs|], hang)
  {
    angles, runs, hang := [], [], [];
    while |angles| < 6
      invariant |angles| == |runs| <= 6
      invariant FinishedRuns(runs, angles)
      invariant bus.trace == old(bus.trace) + Battery(runs)
      invariant BatteryAnswered(bus.device, old(bus.trace), runs)
    {
      var r;
      ghost var c;
      r, c := BatteryTurn(bus, maxPolls, old(bus.trace), angles, runs);
      if r.Stuck? {
        hang := c.statuses;
        return;
      }
      angles, runs := angles + [r.angle], runs + [c];
    }
  }

  /** The next test case of the battery, on a trace that holds the ones
      before it: a finished calculation extends the battery, an unfinished
      one leaves it spinning in the busy-wait. */
  method BatteryTurn(bus: Bus, maxPolls: nat, ghost t0: seq<Event>, angles: seq<Short>, ghost runs: seq<Calculation>)
    returns (r: Outcome, ghost c: Calculation)
    requires |angles| == |runs| < 6 && FinishedRuns(runs, angles)
    requires bus.trace == t0 + Battery(runs) && BatteryAnswered(bus.device, t0, runs)
    modifies bus
    ensures r.Done? ==> FinishedRuns(runs + [c], angles + [r.angle])
    ensures r.Done? ==> bus.trace == t0 + Battery(runs + [c]) && BatteryAnswered(bus.device, t0, runs + [c])
    ensures r.Stuck? ==> bus.trace == t0 + Battery(runs) + Request(TEST_Y[|runs|], TEST_Z[|runs|]) + Polls(c.statuses)
    ensures r.Stuck? ==> |c.statuses| == maxPolls && AllBusy(c.statuses)
    ensures r.Stuck? ==> PolledFrom(bus.device, t0 + Battery(runs), TEST_Y[|runs|], TEST_Z[|runs|], c.statuses)
  {
    r, c := RunTest(bus, |angles|, maxPolls);
    if r.Done? {
      BatteryStep(t0, runs, c);
      BatteryAnsweredSnoc(bus.device, t0, runs, c);
      FinishedRunsSnoc(runs, angles, c, r.angle);
    }
  }
}
