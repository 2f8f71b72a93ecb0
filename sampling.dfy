/** The hand-off between the timer interrupt and the main loop
    (software/main.c:45-48, 162-175, 272-299): a single slot of shared
    variables that `tmr_isr` overwrites and the main loop drains, and the
    sample counter that gates the detailed report to every tenth reading.

    The ISR and one iteration of the main loop are atomic steps; a run of
    the system is a schedule of such steps. `Slot`, `Run` and `Readings`
    describe the shared state and what the consumer takes on values; the
    class `Sampler` holds the same variables as fields and its methods are
    proved to follow that description. */
module Sampling {
  import opened Bits
  import opened Mmio
  import opened Seqs
  import Accel
  import Cordic

  /** The report period of the main loop: `smpl_cnt % 10 == 0`. */
  const REPORT_EVERY: nat := 10

  /** The shared variables: `glob_y`, `glob_z`, `data_rdy` and `smpl_cnt`. */
  datatype Slot = Slot(y: Short, z: Short, ready: bool, count: nat)

  /** Their values at reset (static storage is zero-initialised). */
  const Boot: Slot := Slot(0, 0, false, 0)

  /** One atomic step: the timer ISR delivering the reading (y, z), or one
      iteration of the main loop. */
  datatype Step = Isr(y: Short, z: Short) | Main

  /** A reading the main loop took, with the value `smpl_cnt` had when it
      was taken. */
  datatype Reading = Reading(count: nat, y: Short, z: Short)

  /** `tmr_isr`: the new pair replaces the old one, taken or not, and the
      flag is raised; the counter is not touched. */
  function Tick(s: Slot, y: Short, z: Short): (t: Slot)
    ensures t.ready && t.count == s.count
    ensures t.y == y && t.z == z
  {
    Slot(y, z, true, s.count)
  }

  /** An iteration of the main loop: when the flag is up it takes the pair,
      clears the flag and advances the counter by one; otherwise it does
      nothing. */
  function Consume(s: Slot): (t: Slot)
    ensures !t.ready && t.y == s.y && t.z == s.z
    ensures t.count == s.count + (if s.ready then 1 else 0)
    ensures !s.ready ==> t == s
  {
    if s.ready then Slot(s.y, s.z, false, s.count + 1) else s
  }

  function Apply(s: Slot, step: Step): Slot
  {
    match step
    case Isr(y, z) => Tick(s, y, z)
    case Main => Consume(s)
  }

  /** What one step takes: a reading when it is a main-loop iteration that
      finds the flag up. */
  function Took(s: Slot, step: Step): seq<Reading>
  {
    if step.Main? && s.ready then [Reading(s.count, s.y, s.z)] else []
  }

  /** The shared state after a schedule of steps. */
  function Run(s: Slot, steps: seq<Step>): (t: Slot)
    ensures steps != [] ==> (t.ready <==> steps[|steps| - 1].Isr?)
  {
    if steps == [] then s
    else Apply(Run(s, steps[..|steps| - 1]), steps[|steps| - 1])
  }

  /** The readings the main loop takes during a schedule, in order. */
  function Readings(s: Slot, steps: seq<Step>): seq<Reading>
  {
    if steps == [] then []
    else
      var pre := steps[..|steps| - 1];
      Readings(s, pre) + Took(Run(s, pre), steps[|steps| - 1])
  }

  predicate ReportDue(count: nat) { count % REPORT_EVERY == 0 }

  /** The readings that get a detailed report. */
  function Reports(rs: seq<Reading>): (out: seq<Reading>)
    ensures forall r :: r in out <==> r in rs && ReportDue(r.count)
  {
    if rs == [] then []
    else
      var last := rs[|rs| - 1];
      Reports(rs[..|rs| - 1]) + (if ReportDue(last.count) then [last] else [])
  }

  function Counts(rs: seq<Reading>): (cs: seq<nat>)
    ensures |cs| == |rs| && forall i :: 0 <= i < |rs| ==> cs[i] == rs[i].count
  {
    seq(|rs|, i requires 0 <= i < |rs| => rs[i].count)
  }

  /** The multiples of REPORT_EVERY among c, c + 1, ..., c + n - 1, in order. */
  function Multiples(c: nat, n: nat): seq<nat>
  {
    if n == 0 then []
    else Multiples(c, n - 1) + (if ReportDue(c + n - 1) then [c + n - 1] else [])
  }

  predicate OnlyIsr(steps: seq<Step>)
  {
    forall i :: 0 <= i < |steps| ==> steps[i].Isr?
  }

  predicate OnlyMain(steps: seq<Step>)
  {
    forall i :: 0 <= i < |steps| ==> steps[i].Main?
  }

  /** Last write wins: after any non-empty run of ISR steps with no
      main-loop step between them, the slot holds the pair of the last one,
      flagged, with the counter unchanged, and nothing has been taken. */
  lemma {:induction false} IsrOnlyLastWins(s: Slot, steps: seq<Step>)
    requires steps != [] && OnlyIsr(steps)
    ensures var last := steps[|steps| - 1];
            Run(s, steps) == Slot(last.y, last.z, true, s.count)
    ensures Readings(s, steps) == []
    decreases |steps|
  {
    var pre := steps[..|steps| - 1];
    if pre != [] {
      IsrOnlyLastWins(s, pre);
    }
  }

  /** The main loop then reads exactly the last pair written. */
  lemma ConsumerReadsLast(s: Slot, steps: seq<Step>)
    requires steps != [] && OnlyIsr(steps)
    ensures var last := steps[|steps| - 1];
            Readings(s, steps + [Main]) == [Reading(s.count, last.y, last.z)] &&
            Run(s, steps + [Main]) == Slot(last.y, last.z, false, s.count + 1)
  {
    IsrOnlyLastWins(s, steps);
    SnocPrefix(steps, Main);
  }

  /** No double take: main-loop iterations with no ISR between them take at
      most one reading, the one pending when they started. */
  lemma {:induction false} NoDoubleTake(s: Slot, steps: seq<Step>)
    requires OnlyMain(steps)
    ensures Readings(s, steps) == (if s.ready && steps != [] then [Reading(s.count, s.y, s.z)] else [])
    ensures Run(s, steps) == (if steps == [] then s else Consume(s))
    decreases |steps|
  {
    if steps != [] {
      NoDoubleTake(s, steps[..|steps| - 1]);
    }
  }

  /** Each taken reading advances the counter by exactly one, so the
      readings carry consecutive counter values starting from the initial
      one, and the final counter is the initial one plus their number. */
  lemma {:induction false} RunCount(s: Slot, steps: seq<Step>)
    ensures Run(s, steps).count == s.count + |Readings(s, steps)|
    ensures forall i :: 0 <= i < |Readings(s, steps)| ==> Readings(s, steps)[i].count == s.count + i
    decreases |steps|
  {
    if steps != [] {
      RunCount(s, steps[..|steps| - 1]);
    }
  }

  /** The pair of the most recent ISR step in `steps`, or the slot's own
      pair when there is none. */
  function LastPair(s: Slot, steps: seq<Step>): (Short, Short)
  {
    if steps == [] then (s.y, s.z)
    else if steps[|steps| - 1].Isr? then (steps[|steps| - 1].y, steps[|steps| - 1].z)
    else LastPair(s, steps[..|steps| - 1])
  }

  /** The slot always holds the most recent ISR pair, whatever was taken in
      between, so every reading the main loop takes is the latest pair
      delivered before it. */
  lemma {:induction false} SlotHoldsLatest(s: Slot, steps: seq<Step>)
    ensures (Run(s, steps).y, Run(s, steps).z) == LastPair(s, steps)
    ensures forall r :: r in Took(Run(s, steps), Main) ==> (r.y, r.z) == LastPair(s, steps)
    decreases |steps|
  {
    if steps != [] {
      SlotHoldsLatest(s, steps[..|steps| - 1]);
    }
  }

  /** Gating: the reports are the readings whose counter value is a
      multiple of ten, and over readings with consecutive counter values
      c, c + 1, ... these are exactly the multiples of ten in that range. */
  lemma {:induction false} ReportsOfConsecutive(rs: seq<Reading>, c: nat)
    requires forall i :: 0 <= i < |rs| ==> rs[i].count == c + i
    ensures Counts(Reports(rs)) == Multiples(c, |rs|)
    decreases |rs|
  {
    if rs != [] {
      var n := |rs| - 1;
      ReportsOfConsecutive(rs[..n], c);
      var tail := if ReportDue(rs[n].count) then [rs[n]] else [];
      assert Reports(rs) == Reports(rs[..n]) + tail;
      assert Counts(Reports(rs)) == Counts(Reports(rs[..n])) + Counts(tail);
    }
  }

  /** From any counter value, the readings of a schedule are reported
      exactly at the multiples of ten they pass. */
  lemma ReportsOfRun(s: Slot, steps: seq<Step>)
    ensures Counts(Reports(Readings(s, steps))) == Multiples(s.count, |Readings(s, steps)|)
  {
    RunCount(s, steps);
    ReportsOfConsecutive(Readings(s, steps), s.count);
  }

  /** Over the first 25 readings after reset, whatever the interleaving of
      ISR and main-loop steps, reports are made at counts 0, 10 and 20 only. */
  lemma Reports25(steps: seq<Step>)
    requires |Readings(Boot, steps)| == 25
    ensures Counts(Reports(Readings(Boot, steps))) == [0, 10, 20]
  {
    ReportsOfRun(Boot, steps);
    MultiplesBelow25();
  }

  lemma MultiplesBelow25()
    ensures Multiples(0, 25) == [0, 10, 20]
  {
    assert Multiples(0, 1) == [0];
    MultiplesSkip(0, 1, 9);
    assert Multiples(0, 11) == [0, 10];
    MultiplesSkip(0, 11, 9);
    assert Multiples(0, 21) == [0, 10, 20];
    MultiplesSkip(0, 21, 4);
  }

  /** A stretch without multiples of ten adds nothing. */
  lemma {:induction false} MultiplesSkip(c: nat, n: nat, k: nat)
    requires forall m :: c + n <= m < c + n + k ==> !ReportDue(m)
    ensures Multiples(c, n + k) == Multiples(c, n)
    decreases k
  {
    if k > 0 {
      MultiplesSkip(c, n, k - 1);
    }
  }

  /** The console line the main loop prints for reading `r` with CORDIC
      result `angle`: the detailed report when the counter is a multiple of
      ten, nothing otherwise. */
  function ReportLine(r: Reading, angle: Short): seq<Event>
  {
    if ReportDue(r.count) then [Say(SampleReport(r.count, r.y, r.z, angle))] else []
  }

  /** The detailed report of the main loop, printed for every tenth reading. */
  method Report(bus: Bus, r: Reading, angle: Short)
    modifies bus
    ensures bus.trace == old(bus.trace) + ReportLine(r, angle)
  {
    if r.count % REPORT_EVERY == 0 {
      bus.Print(SampleReport(r.count, r.y, r.z, angle));
    }
  }

  /** The outcome of one main-loop iteration: nothing to do, a reading
      processed with its CORDIC result, or a reading whose calculation is
      still spinning after the poll budget (the C loop would never leave
      `cordic_calc`). */
  datatype Iteration = Idle | Processed(reading: Reading, angle: Short) | Hung(reading: Reading)

  /** The shared globals of the program and the two pieces of code that
      use them. */
  class Sampler {
    var globY: Short
    var globZ: Short
    var dataReady: bool
    var sampleCount: nat

    function State(): Slot
      reads this
    {
      Slot(globY, globZ, dataReady, sampleCount)
    }

    constructor ()
      ensures State() == Boot
    {
      globY, globZ, dataReady, sampleCount := 0, 0, false, 0;
    }

    /** `tmr_isr`: one burst read of the accelerometer, then the Y and Z
        axes overwrite the slot and the flag is raised. */
    method TimerIsr(bus: Bus)
      modifies this, bus
      ensures var lo := bus.device(old(bus.trace) + Accel.BurstRequest(), SPI_RX_DATA0);
              var hi := bus.device(old(bus.trace) + Accel.BurstRequest() + [Load(SPI_RX_DATA0, lo)], SPI_RX_DATA1);
              var a := Accel.Decode(lo, hi);
              bus.trace == old(bus.trace) + Accel.BurstTranscript(lo, hi) &&
              State() == Tick(old(State()), a.y, a.z)
    {
      var a := Accel.ReadAccel(bus);
      globY := a.y;
      globZ := a.z;
      dataReady := true;
    }

    /** The body of the `while(1)` loop in `main`. */
    method ConsumerStep(bus: Bus, maxPolls: nat)
      returns (it: Iteration, ghost statuses: seq<Word>, ghost raw: Word)
      modifies this, bus
      ensures !old(dataReady) <==> it.Idle?
      ensures it.Idle? ==> State() == old(State()) && bus.trace == old(bus.trace)
      ensures !it.Idle? ==> it.reading == Reading(old(sampleCount), old(globY), old(globZ))
      ensures it.Processed? ==> State() == Consume(old(State()))
      ensures it.Processed? ==> Cordic.StoppedAtDone(statuses) && it.angle == Cordic.AngleOf(raw)
      ensures it.Processed? ==>
                bus.trace == old(bus.trace) + Cordic.Finished(it.reading.y, it.reading.z, statuses, raw)
                             + ReportLine(it.reading, it.angle)
      ensures it.Hung? ==> State() == Slot(old(globY), old(globZ), false, old(sampleCount))
      ensures it.Hung? ==>
                bus.trace == old(bus.trace) + Cordic.Request(it.reading.y, it.reading.z) + Cordic.Polls(statuses)
      ensures it.Hung? ==> |statuses| == maxPolls && Cordic.AllBusy(statuses)
      ensures !it.Idle? ==> Cordic.PolledFrom(bus.device, old(bus.trace), it.reading.y, it.reading.z, statuses)
      ensures it.Processed? ==>
                Cordic.AnsweredFrom(bus.device, old(bus.trace), it.reading.y, it.reading.z, Cordic.Calculation(statuses, raw))
    {
      statuses, raw := [], 0;
      if !dataReady {
        return Idle, statuses, raw;
      }
      var locY := globY;
      var locZ := globZ;
      dataReady := false;
      var reading := Reading(sampleCount, locY, locZ);
      var r;
      r, statuses, raw := Cordic.Calc(bus, locY, locZ, maxPolls);
      if r.Stuck? {
        return Hung(reading), statuses, raw;
      }
      Report(bus, reading, r.angle);
      sampleCount := sampleCount + 1;
      it := Processed(reading, r.angle);
    }
  }

  /** The console lines of the readings `rs` processed with CORDIC results
      `angles`: a detailed report for each reading whose counter value is a
      multiple of ten. */
  function ReportMessages(rs: seq<Reading>, angles: seq<Short>): seq<Message>
    requires |rs| == |angles|
  {
    if rs == [] then []
    else
      var n := |rs| - 1;
      ReportMessages(rs[..n], angles[..n]) + Messages(ReportLine(rs[n], angles[n]))
  }

  /** The printed reports are those of `Reports(rs)`, in order: same
      counter values, same pairs. */
  lemma {:induction false} ReportMessagesAreReports(rs: seq<Reading>, angles: seq<Short>)
    requires |rs| == |angles|
    ensures var ms, ps := ReportMessages(rs, angles), Reports(rs);
            |ms| == |ps| &&
            forall i :: 0 <= i < |ms| ==>
              ms[i].SampleReport? && ms[i].count == ps[i].count && ms[i].y == ps[i].y && ms[i].z == ps[i].z
    decreases |rs|
  {
    if rs != [] {
      var n := |rs| - 1;
      ReportMessagesAreReports(rs[..n], angles[..n]);
      ReportLineMessages(rs[n], angles[n]);
    }
  }

  lemma ReportLineMessages(r: Reading, angle: Short)
    ensures Messages(ReportLine(r, angle)) ==
            (if ReportDue(r.count) then [SampleReport(r.count, r.y, r.z, angle)] else [])
  {
    if ReportDue(r.count) {
      assert Messages(ReportLine(r, angle)) == Messages(ReportLine(r, angle)[..0]) + [SampleReport(r.count, r.y, r.z, angle)];
    }
  }

  /** One more step of a schedule. */
  lemma RunSnoc(s: Slot, steps: seq<Step>, step: Step)
    ensures Run(s, steps + [step]) == Apply(Run(s, steps), step)
    ensures Readings(s, steps + [step]) == Readings(s, steps) + Took(Run(s, steps), step)
  {
    SnocPrefix(steps, step);
  }

  lemma ReportMessagesSnoc(rs: seq<Reading>, angles: seq<Short>, r: Reading, a: Short)
    requires |rs| == |angles|
    ensures ReportMessages(rs + [r], angles + [a]) == ReportMessages(rs, angles) + Messages(ReportLine(r, a))
  {
    SnocPrefix(rs, r);
    SnocPrefix(angles, a);
  }

  /** A calculation that hangs prints nothing. */
  lemma QuietCalc(t: seq<Event>, request: seq<Event>, polls: seq<Event>)
    requires Messages(request + polls) == []
    ensures Messages(t + request + polls) == Messages(t)
  {
    AppendAssoc(t, request, polls);
    MessagesAppend(t, request + polls);
  }

  /** The console output of the readings `rs + more`, when `more` is at
      most one reading. */
  lemma ReportMessagesAppend(rs: seq<Reading>, angles: seq<Short>, more: seq<Reading>, extra: seq<Short>)
    requires |rs| == |angles| && |more| == |extra| <= 1
    ensures ReportMessages(rs + more, angles + extra) == ReportMessages(rs, angles) + ReportMessages(more, extra)
  {
    if more == [] {
      assert rs + more == rs && angles + extra == angles;
    } else {
      ReportMessagesSnoc(rs, angles, more[0], extra[0]);
      assert more == [more[0]] && extra == [extra[0]];
      assert ReportMessages(more, extra) == ReportMessages([], []) + Messages(ReportLine(more[0], extra[0]));
    }
  }

  /** Who runs next: the timer interrupt or the main loop. */
  datatype Turn = TimerTurn | LoopTurn

  /** What the console shows for the first 25 readings after reset, in
      any interleaving: three detailed reports, for sample 0, 10 and 20. */
  lemma Reports25Printed(steps: seq<Step>, angles: seq<Short>)
    requires |Readings(Boot, steps)| == 25 && |angles| == 25
    ensures var ms := ReportMessages(Readings(Boot, steps), angles);
            |ms| == 3 && ms[0].SampleReport? && ms[1].SampleReport? && ms[2].SampleReport? &&
            ms[0].count == 0 && ms[1].count == 10 && ms[2].count == 20
  {
    var rs := Readings(Boot, steps);
    ReportMessagesAreReports(rs, angles);
    Reports25(steps);
    var ps := Reports(rs);
    assert Counts(ps) == [0, 10, 20];
    assert |ps| == 3 && ps[0].count == 0 && ps[1].count == 10 && ps[2].count == 20;
  }

  /** What one turn saw on the bus: the two RX words of the ISR's burst
      read, or the CORDIC answers of a main-loop iteration (which carry no
      information when the iteration finds nothing to do). */
  datatype Observed = Burst(lo: Word, hi: Word) | Engine(run: Cordic.Calculation)

  /** The step a turn performs: the ISR stores the decoded Y and Z axes. */
  function StepOf(o: Observed): (step: Step)
    ensures step.Isr? <==> o.Burst?
    ensures o.Burst? ==> step == Isr(Accel.Decode(o.lo, o.hi).y, Accel.Decode(o.lo, o.hi).z)
  {
    match o
    case Burst(lo, hi) => Isr(Accel.Decode(lo, hi).y, Accel.Decode(lo, hi).z)
    case Engine(_) => Main
  }

  function Steps(obs: seq<Observed>): (steps: seq<Step>)
    ensures |steps| == |obs| && forall i :: 0 <= i < |obs| ==> steps[i] == StepOf(obs[i])
  {
    seq(|obs|, i requires 0 <= i < |obs| => StepOf(obs[i]))
  }

  /** The CORDIC result of a turn that starts in slot `s`: one angle when
      it processes a reading, none otherwise. */
  function TurnAngles(s: Slot, o: Observed): seq<Short>
  {
    if o.Engine? && s.ready then [Cordic.AngleOf(o.run.raw)] else []
  }

  /** The bus events of a turn that starts in slot `s` and does not hang:
      the ISR's burst read; or the calculation of the pending pair followed
      by its report line; or nothing, when no pair is pending. */
  function TurnTranscript(s: Slot, o: Observed): seq<Event>
  {
    match o
    case Burst(lo, hi) => Accel.BurstTranscript(lo, hi)
    case Engine(c) =>
      if s.ready then
        Cordic.Finished(s.y, s.z, c.statuses, c.raw) + ReportLine(Reading(s.count, s.y, s.z), Cordic.AngleOf(c.raw))
      else []
  }

  /** The values in `o` are the hardware's answers to a turn that starts
      in slot `s` after the bus history `pre`. */
  ghost predicate Honest(device: Device, pre: seq<Event>, s: Slot, o: Observed)
  {
    match o
    case Burst(lo, hi) =>
      lo == device(pre + Accel.BurstRequest(), SPI_RX_DATA0) &&
      hi == device(pre + Accel.BurstRequest() + [Load(SPI_RX_DATA0, lo)], SPI_RX_DATA1)
    case Engine(c) =>
      s.ready ==> Cordic.StoppedAtDone(c.statuses) && Cordic.AnsweredFrom(device, pre, s.y, s.z, c)
  }

  /** The bus events of a sequence of turns from slot `s`, in order. */
  function Transcript(s: Slot, obs: seq<Observed>): seq<Event>
  {
    if obs == [] then []
    else
      var n := |obs| - 1;
      Transcript(s, obs[..n]) + TurnTranscript(Run(s, Steps(obs[..n])), obs[n])
  }

  /** The CORDIC results of a sequence of turns from slot `s`, in order. */
  function Angles(s: Slot, obs: seq<Observed>): seq<Short>
  {
    if obs == [] then []
    else
      var n := |obs| - 1;
      Angles(s, obs[..n]) + TurnAngles(Run(s, Steps(obs[..n])), obs[n])
  }

  /** Every turn of `obs` saw the hardware's answers, each on the history
      left by the turns before it after `t0`. */
  ghost predicate Genuine(device: Device, t0: seq<Event>, s: Slot, obs: seq<Observed>)
  {
    obs == [] ||
    var n := |obs| - 1;
    Genuine(device, t0, s, obs[..n]) &&
    Honest(device, t0 + Transcript(s, obs[..n]), Run(s, Steps(obs[..n])), obs[n])
  }

  /** One more turn. */
  lemma TurnSnoc(device: Device, t0: seq<Event>, s: Slot, obs: seq<Observed>, o: Observed)
    ensures Steps(obs + [o]) == Steps(obs) + [StepOf(o)]
    ensures Run(s, Steps(obs + [o])) == Apply(Run(s, Steps(obs)), StepOf(o))
    ensures t0 + Transcript(s, obs + [o]) == t0 + Transcript(s, obs) + TurnTranscript(Run(s, Steps(obs)), o)
    ensures Genuine(device, t0, s, obs) && Honest(device, t0 + Transcript(s, obs), Run(s, Steps(obs)), o) ==>
            Genuine(device, t0, s, obs + [o])
  {
    SnocPrefix(obs, o);
    assert Steps(obs + [o]) == Steps(obs) + [StepOf(o)];
    RunSnoc(s, Steps(obs), StepOf(o));
    AppendAssoc(t0, Transcript(s, obs), TurnTranscript(Run(s, Steps(obs)), o));
  }

  /** A single turn prints the report of the reading it takes, if any. */
  lemma TurnMessages(s: Slot, o: Observed)
    ensures |TurnAngles(s, o)| == |Took(s, StepOf(o))|
    ensures Messages(TurnTranscript(s, o)) == ReportMessages(Took(s, StepOf(o)), TurnAngles(s, o))
  {
    match o
    case Burst(lo, hi) =>
      Accel.BurstIsSilent(lo, hi);
    case Engine(c) =>
      if s.ready {
        var r, a := Reading(s.count, s.y, s.z), Cordic.AngleOf(c.raw);
        Cordic.CalcIsSilent(s.y, s.z, c.statuses, c.raw);
        MessagesAppend(Cordic.Finished(s.y, s.z, c.statuses, c.raw), ReportLine(r, a));
        assert ReportMessages([r], [a]) == ReportMessages([], []) + Messages(ReportLine(r, a));
      }
  }

  /** The console output of a sequence of turns: the reports of exactly
      the readings the main loop took, with the CORDIC results the engine
      gave for them. */
  lemma {:induction false} TranscriptMessages(s: Slot, obs: seq<Observed>)
    ensures |Angles(s, obs)| == |Readings(s, Steps(obs))|
    ensures Messages(Transcript(s, obs)) == ReportMessages(Readings(s, Steps(obs)), Angles(s, obs))
    decreases |obs|
  {
    if obs != [] {
      var n := |obs| - 1;
      var pre, o := obs[..n], obs[n];
      TranscriptMessages(s, pre);
      var t := Run(s, Steps(pre));
      assert Steps(obs)[..n] == Steps(pre);
      assert Readings(s, Steps(obs)) == Readings(s, Steps(pre)) + Took(t, StepOf(o));
      TurnMessages(t, o);
      MessagesAppend(Transcript(s, pre), TurnTranscript(t, o));
      ReportMessagesAppend(Readings(s, Steps(pre)), Angles(s, pre), Took(t, StepOf(o)), TurnAngles(t, o));
    }
  }

  /** One turn: the timer ISR, or one iteration of the main loop. `o` is
      what it saw on the bus; `hung` says that the iteration's calculation
      is still spinning after `maxPolls` status reads, which returned `hang`. */
  method TakeTurn(sampler: Sampler, bus: Bus, turn: Turn, maxPolls: nat)
    returns (hung: bool, ghost o: Observed, ghost hang: seq<Word>)
    modifies sampler, bus
    ensures !hung ==> (o.Burst? <==> turn == TimerTurn)
    ensures !hung ==> sampler.State() == Apply(old(sampler.State()), StepOf(o))
    ensures !hung ==> bus.trace == old(bus.trace) + TurnTranscript(old(sampler.State()), o)
    ensures !hung ==> Honest(bus.device, old(bus.trace), old(sampler.State()), o)
    ensures hung ==> turn == LoopTurn && old(sampler.State()).ready
    ensures hung ==> sampler.State() == old(sampler.State()).(ready := false)
    ensures hung ==> var s := old(sampler.State());
            bus.trace == old(bus.trace) + Cordic.Request(s.y, s.z) + Cordic.Polls(hang) &&
            |hang| == maxPolls && Cordic.AllBusy(hang) && Cordic.PolledFrom(bus.device, old(bus.trace), s.y, s.z, hang)
  {
    ghost var t1, s1 := bus.trace, sampler.State();
    hang := [];
    hung := false;
    if turn == TimerTurn {
      sampler.TimerIsr(bus);
      ghost var lo := bus.device(t1 + Accel.BurstRequest(), SPI_RX_DATA0);
      ghost var hi := bus.device(t1 + Accel.BurstRequest() + [Load(SPI_RX_DATA0, lo)], SPI_RX_DATA1);
      o := Burst(lo, hi);
      return;
    }
    var it;
    ghost var statuses, raw;
    it, statuses, raw := sampler.ConsumerStep(bus, maxPolls);
    o := Engine(Cordic.Calculation(statuses, raw));
    if it.Hung? {
      hung, hang := true, statuses;
      return;
    }
    if it.Processed? {
      AppendAssoc(t1, Cordic.Finished(s1.y, s1.z, statuses, raw), ReportLine(it.reading, it.angle));
    }
  }

  /** The program after start-up: the timer ISR and the main loop take
      turns in the order `turns`, and the accelerometer and the CORDIC
      engine answer through the bus. `obs` is what each completed turn saw.
      If a calculation hangs, execution stops at turn `done` (the C program
      never leaves it), with the status reads `hang`. The console then shows
      the reports of exactly the readings taken, with their CORDIC results. */
  method Execute(sampler: Sampler, bus: Bus, turns: seq<Turn>, maxPolls: nat)
    returns (done: nat, ghost obs: seq<Observed>, ghost hang: seq<Word>)
    modifies sampler, bus
    ensures |obs| == done <= |turns|
    ensures forall i :: 0 <= i < done ==> (obs[i].Burst? <==> turns[i] == TimerTurn)
    ensures Genuine(bus.device, old(bus.trace), old(sampler.State()), obs)
    ensures done == |turns| ==>
              sampler.State() == Run(old(sampler.State()), Steps(obs)) &&
              bus.trace == old(bus.trace) + Transcript(old(sampler.State()), obs)
    ensures done < |turns| ==>
              var s, pre := Run(old(sampler.State()), Steps(obs)), old(bus.trace) + Transcript(old(sampler.State()), obs);
              turns[done] == LoopTurn && s.ready && sampler.State() == s.(ready := false) &&
              bus.trace == pre + Cordic.Request(s.y, s.z) + Cordic.Polls(hang) &&
              |hang| == maxPolls && Cordic.AllBusy(hang) && Cordic.PolledFrom(bus.device, pre, s.y, s.z, hang)
    ensures |Angles(old(sampler.State()), obs)| == |Readings(old(sampler.State()), Steps(obs))|
    ensures Messages(bus.trace) == Messages(old(bus.trace)) +
              ReportMessages(Readings(old(sampler.State()), Steps(obs)), Angles(old(sampler.State()), obs))
  {
    ghost var s0, t0 := sampler.State(), bus.trace;
    done, obs, hang := Interleave(sampler, bus, turns, maxPolls);
    if done < |turns| {
      ghost var s := Run(s0, Steps(obs));
      Cordic.CalcIsSilent(s.y, s.z, hang, 0);
      ScheduleOutput(t0, s0, obs, Cordic.Request(s.y, s.z), Cordic.Polls(hang));
    } else {
      ScheduleOutput(t0, s0, obs, [], []);
      assert bus.trace == t0 + Transcript(s0, obs) + [] + [];
    }
  }

  /** The loop of `Execute`, on the bus: one turn after the other until the
      turns run out or a calculation hangs. */
  method Interleave(sampler: Sampler, bus: Bus, turns: seq<Turn>, maxPolls: nat)
    returns (done: nat, ghost obs: seq<Observed>, ghost hang: seq<Word>)
    modifies sampler, bus
    ensures |obs| == done <= |turns|
    ensures forall i :: 0 <= i < done ==> (obs[i].Burst? <==> turns[i] == TimerTurn)
    ensures Genuine(bus.device, old(bus.trace), old(sampler.State()), obs)
    ensures done == |turns| ==>
              sampler.State() == Run(old(sampler.State()), Steps(obs)) &&
              bus.trace == old(bus.trace) + Transcript(old(sampler.State()), obs)
    ensures done < |turns| ==>
              var s, pre := Run(old(sampler.State()), Steps(obs)), old(bus.trace) + Transcript(old(sampler.State()), obs);
              turns[done] == LoopTurn && s.ready && sampler.State() == s.(ready := false) &&
              bus.trace == pre + Cordic.Request(s.y, s.z) + Cordic.Polls(hang) &&
              |hang| == maxPolls && Cordic.AllBusy(hang) && Cordic.PolledFrom(bus.device, pre, s.y, s.z, hang)
  {
    ghost var s0, t0 := sampler.State(), bus.trace;
    done, obs, hang := 0, [], [];
    while done < |turns|
      invariant |obs| == done <= |turns|
      invariant forall i :: 0 <= i < done ==> (obs[i].Burst? <==> turns[i] == TimerTurn)
      invariant sampler.State() == Run(s0, Steps(obs))
      invariant bus.trace == t0 + Transcript(s0, obs)
      invariant Genuine(bus.device, t0, s0, obs)
    {
      var hung;
      ghost var o, h;
      hung, o, h := ScheduleTurn(sampler, bus, turns, done, maxPolls, t0, s0, obs);
      if hung {
        hang := h;
        return;
      }
      obs := obs + [o];
      done := done + 1;
    }
  }

  /** Turn number `done` of `Interleave`, after the turns `obs` from slot `s0`
      and bus history `t0`. */
  method ScheduleTurn(sampler: Sampler, bus: Bus, turns: seq<Turn>, done: nat, maxPolls: nat,
                      ghost t0: seq<Event>, ghost s0: Slot, ghost obs: seq<Observed>)
    returns (hung: bool, ghost o: Observed, ghost hang: seq<Word>)
    requires done == |obs| < |turns|
    requires forall i :: 0 <= i < |obs| ==> (obs[i].Burst? <==> turns[i] == TimerTurn)
    requires sampler.State() == Run(s0, Steps(obs))
    requires bus.trace == t0 + Transcript(s0, obs)
    requires Genuine(bus.device, t0, s0, obs)
    modifies sampler, bus
    ensures !hung ==> forall i :: 0 <= i <= |obs| ==> ((obs + [o])[i].Burst? <==> turns[i] == TimerTurn)
    ensures !hung ==> sampler.State() == Run(s0, Steps(obs + [o]))
    ensures !hung ==> bus.trace == t0 + Transcript(s0, obs + [o])
    ensures !hung ==> Genuine(bus.device, t0, s0, obs + [o])
    ensures hung ==> var s, pre := Run(s0, Steps(obs)), t0 + Transcript(s0, obs);
            turns[|obs|] == LoopTurn && s.ready && sampler.State() == s.(ready := false) &&
            bus.trace == pre + Cordic.Request(s.y, s.z) + Cordic.Polls(hang) &&
            |hang| == maxPolls && Cordic.AllBusy(hang) && Cordic.PolledFrom(bus.device, pre, s.y, s.z, hang)
  {
    hung, o, hang := TakeTurn(sampler, bus, turns[done], maxPolls);
    if !hung {
      TurnSnoc(bus.device, t0, s0, obs, o);
      assert forall i :: 0 <= i < |obs| ==> (obs + [o])[i] == obs[i];
    }
  }

  /** The console output of a schedule, when what follows it prints nothing. */
  lemma ScheduleOutput(t0: seq<Event>, s0: Slot, obs: seq<Observed>, request: seq<Event>, polls: seq<Event>)
    requires Messages(request + polls) == []
    ensures |Angles(s0, obs)| == |Readings(s0, Steps(obs))|
    ensures Messages(t0 + Transcript(s0, obs) + request + polls) ==
            Messages(t0) + ReportMessages(Readings(s0, Steps(obs)), Angles(s0, obs))
  {
    TranscriptMessages(s0, obs);
    MessagesAppend(t0, Transcript(s0, obs));
    QuietCalc(t0 + Transcript(s0, obs), request, polls);
  }
}
