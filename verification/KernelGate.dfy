/** The RPI2 kernel gate: what one turn of its state machine does to the gate, as a
    function of everything the turn meets from outside, and what holds over all runs. */
module KernelGate {
  import opened Stepper

  const STEPPER_GATE_STEPS := 1024
  const BATCH := 64
  const CHECKS := 15
  const VEHICLE_DETECT_CM := 10
  const ENTRY_CLOSE_DELAY_SEC := 10
  const EXIT_TIMEOUT_SEC := 10

  datatype SystemState = Idle | EntryDetected | EntryWaiting | ExitRequested | ExitVehicleDetected | ExitVehicleWaiting

  // ---- What comes from outside ------------------------------------------------------

  /** One ultrasonic measurement: no edge in time, or an echo of that many us. */
  datatype Sonar = NoEcho | Pulse(us: nat)

  /** ultrasonic_measure_cm: never zero. */
  function MeasureCm(s: Sonar): (cm: int)
    ensures cm == -1 || cm >= 1
    ensures cm == -1 <==> s.NoEcho? || s.us < 58
    ensures cm >= 1 ==> 58 * cm <= s.us < 58 * (cm + 1)
  {
    if s.Pulse? && s.us / 58 > 0 then s.us / 58 else -1
  }

  predicate Detects(s: Sonar) { 0 < MeasureCm(s) <= VEHICLE_DETECT_CM }

  /** A check between two batches of a closing move: whether the interrupt handler has
      accepted a press since the flag was last polled, the sample, and when it was taken. */
  datatype Check = Check(pressed: bool, sonar: Sonar, at: int)

  /** All a turn of the loop meets: a press accepted before it polls the switch, the clock
      after a gate opened by the switch, the sample and the clock of the turn, the
      checks of a closing move and the clock after it, and whether a press is accepted
      after the turn's last poll.  Clocks are in whole seconds. */
  datatype Turn = Turn(pressed: bool, openedAt: int, sonar: Sonar, now: int, checks: seq<Check>, abortedAt: int, late: bool)

  ghost predicate ClockOk(clock: int, t: Turn) {
    && |t.checks| == CHECKS
    && clock <= t.openedAt <= t.now <= t.abortedAt
    && forall k :: 0 <= k < CHECKS ==> t.now <= t.checks[k].at <= t.abortedAt
  }

  // ---- The gate ---------------------------------------------------------------------

  /** The driver's variables and the motor.  `written` is every state written so far and
      `detections` the time of every sample that detected a vehicle: history only. */
  datatype Gate = Gate(state: SystemState, pressed: bool, reopen: bool, step: int, rotor: Rotor,
                       lastVehicle: int, exitRequest: int, written: seq<SystemState>, detections: seq<int>)

  const LOADED: Gate := Gate(Idle, false, false, 0, RESTING, 0, 0, [Idle], [])

  function SetState(g: Gate, s: SystemState): Gate { g.(state := s, written := g.written + [s]) }

  /** gate_open: 1024 steps forward from wherever the gate is; the coils stay on. */
  function Open(g: Gate): Gate {
    var r := Turned(g.rotor, STEPPER_GATE_STEPS, 1);
    g.(rotor := r, step := (g.step + STEPPER_GATE_STEPS) % 8)
  }

  /** One check: whether it stops the closing move, and the two flags after it.  The
      second and third test are only reached when the ones before fail, and each of them
      clears its flag. */
  function Poll(pressed: bool, reopen: bool, c: Check): (bool, bool, bool) {
    var pressed := pressed || c.pressed;
    if Detects(c.sonar) then (true, pressed, reopen)
    else if pressed then (true, false, reopen)
    else if reopen then (true, false, false)
    else (false, false, false)
  }

  /** The flags of g after its first n checks, none of which stopped the move. */
  predicate Passes(g: Gate, checks: seq<Check>, n: nat)
    requires n <= |checks|
  {
    n == 0 || (!g.pressed && !g.reopen && forall k :: 0 <= k < n ==> !checks[k].pressed && !Detects(checks[k].sonar))
  }

  /** Closing stops at check k: it is the first with a vehicle, a press or a pending flag. */
  predicate StopsAt(g: Gate, checks: seq<Check>, k: nat)
    requires k < |checks|
  {
    Passes(g, checks, k) && !Passes(g, checks, k + 1)
  }

  /** A closing move that goes through: 1024 steps back and coils off. */
  function Shut(g: Gate): Gate {
    g.(rotor := Drive(Turned(g.rotor, STEPPER_GATE_STEPS, -1), OFF), step := (g.step - STEPPER_GATE_STEPS) % 8,
       pressed := false, reopen := false)
  }

  /** A closing move stopped at check k, after 64 * (k + 1) steps, and rolled back. */
  function RolledBack(g: Gate, checks: seq<Check>, k: nat): Gate
    requires k < |checks|
  {
    var n := BATCH * (k + 1);
    var flags := Poll(g.pressed, g.reopen, checks[k]);
    g.(rotor := Drive(Turned(Turned(g.rotor, n, -1), n, 1), OFF), pressed := flags.1, reopen := flags.2,
       detections := if Detects(checks[k].sonar) then g.detections + [checks[k].at] else g.detections)
  }

  /** The check a closing move stops at, or CHECKS if none. */
  function FirstStop(g: Gate, checks: seq<Check>, n: nat): (k: nat)
    requires n <= |checks| && Passes(g, checks, n)
    ensures n <= k <= |checks|
    ensures k < |checks| ==> StopsAt(g, checks, k)
    ensures k == |checks| ==> Passes(g, checks, k)
    decreases |checks| - n
  {
    if n == |checks| then n
    else if Passes(g, checks, n + 1) then FirstStop(g, checks, n + 1)
    else n
  }

  /** C's conversion of the 64-bit difference to int. */
  function ToInt(x: int): int { (x + 0x8000_0000) % 0x1_0000_0000 - 0x8000_0000 }

  /** gate_close_interruptible and what the caller does with its answer. */
  function Close(g: Gate, t: Turn): Gate
    requires |t.checks| == CHECKS
  {
    var k := FirstStop(g, t.checks, 0);
    if k == CHECKS then SetState(Shut(g), Idle)
    else
      var g := RolledBack(g, t.checks, k);
      match g.state
      case ExitRequested => SetState(g.(lastVehicle := t.abortedAt, exitRequest := t.abortedAt), ExitRequested)
      case ExitVehicleWaiting => SetState(g.(lastVehicle := t.abortedAt), ExitVehicleDetected)
      case _ => SetState(g.(lastVehicle := t.abortedAt), EntryDetected)
  }

  /** The switch poll at the top of a turn, with on_switch_press. */
  function PollSwitch(g: Gate, t: Turn): Gate {
    if !g.pressed && !t.pressed then g
    else if g.state == Idle then SetState(Open(g.(pressed := false)).(exitRequest := t.openedAt), ExitRequested)
    else g.(pressed := false, reopen := true)
  }

  /** The turn starts a closing move. */
  predicate Closing(g: Gate, t: Turn) {
    match PollSwitch(g, t).state
    case EntryWaiting | ExitVehicleWaiting => ToInt(t.now - PollSwitch(g, t).lastVehicle) >= ENTRY_CLOSE_DELAY_SEC
    case ExitRequested => !Detects(t.sonar) && ToInt(t.now - PollSwitch(g, t).exitRequest) >= EXIT_TIMEOUT_SEC
    case _ => false
  }

  /** A sample that detects is on record once the turn has taken it. */
  function Sampled(g: Gate, t: Turn): Gate {
    if Detects(t.sonar) then g.(detections := g.detections + [t.now]) else g
  }

  /** The switch over the states, given the gate after the switch poll and the sample. */
  function Act(g: Gate, t: Turn): Gate
    requires |t.checks| == CHECKS
  {
    var detects, cm := Detects(t.sonar), MeasureCm(t.sonar);
    match g.state
    case Idle => if detects then Open(SetState(g, EntryDetected)).(lastVehicle := t.now) else g
    case EntryDetected =>
      if detects then g.(lastVehicle := t.now)
      else if cm < 0 || cm > VEHICLE_DETECT_CM then SetState(g.(lastVehicle := t.now), EntryWaiting)
      else g
    case EntryWaiting =>
      if ToInt(t.now - g.lastVehicle) >= ENTRY_CLOSE_DELAY_SEC then Close(g, t)
      else if detects then SetState(g.(lastVehicle := t.now), EntryDetected)
      else g
    case ExitRequested =>
      if detects then SetState(g, ExitVehicleDetected).(lastVehicle := t.now)
      else if ToInt(t.now - g.exitRequest) >= EXIT_TIMEOUT_SEC then Close(g, t)
      else g
    case ExitVehicleDetected =>
      if detects then g.(lastVehicle := t.now)
      else if cm > VEHICLE_DETECT_CM then SetState(g.(lastVehicle := t.now), ExitVehicleWaiting)
      else g
    case ExitVehicleWaiting =>
      if ToInt(t.now - g.lastVehicle) >= ENTRY_CLOSE_DELAY_SEC then Close(g, t)
      else if detects then SetState(g.(lastVehicle := t.now), ExitVehicleDetected)
      else g
  }

  /** One turn of the loop of state_machine_thread_fn. */
  function Iterate(g: Gate, t: Turn): Gate
    requires |t.checks| == CHECKS
  {
    var g := Act(Sampled(PollSwitch(g, t), t), t);
    g.(pressed := g.pressed || t.late)
  }

  // ---- Detection --------------------------------------------------------------------

  /** A vehicle is an echo of 58 to 637 us: a shorter one reads as no measurement. */
  lemma DetectsPulse(s: Sonar)
    ensures Detects(s) <==> s.Pulse? && 58 <= s.us < 638
  {
  }

  /** The entry side takes a missing echo for a vehicle that has left, the exit side does
      not: it goes on waiting until an echo comes from beyond ten centimetres. */
  lemma VehicleLeaves(g: Gate, t: Turn)
    requires |t.checks| == CHECKS
    ensures g.state == EntryDetected ==> (Act(g, t).state == EntryWaiting <==> !Detects(t.sonar))
    ensures g.state == ExitVehicleDetected ==>
              (Act(g, t).state == ExitVehicleWaiting <==> t.sonar.Pulse? && t.sonar.us >= 638)
  {
    hide Close;
    DetectsPulse(t.sonar);
  }

  // ---- Closing ----------------------------------------------------------------------

  /** A close goes through exactly when no flag is pending when it starts and none of its
      15 checks meets a vehicle or a press. */
  lemma CloseCompletes(g: Gate, t: Turn)
    requires |t.checks| == CHECKS
    ensures Close(g, t).state == Idle
            <==> !g.pressed && !g.reopen && forall k :: 0 <= k < 15 ==> !t.checks[k].pressed && !Detects(t.checks[k].sonar)
  {
    var k := FirstStop(g, t.checks, 0);
    if k < CHECKS && !g.pressed && !g.reopen {
      assert exists j :: 0 <= j < CHECKS && (t.checks[j].pressed || Detects(t.checks[j].sonar));
    }
  }

  // ---- Position ---------------------------------------------------------------------

  ghost predicate PositionOk(g: Gate) {
    && InPhase(g.rotor, g.step)
    && 0 <= g.rotor.lo <= g.rotor.pos <= g.rotor.hi <= STEPPER_GATE_STEPS
    && g.rotor.pos == (if g.state == Idle then 0 else STEPPER_GATE_STEPS)
    && (g.state == Idle ==> g.rotor.coils == OFF && !g.reopen)
  }

  lemma OpenKeepsPosition(g: Gate)
    requires InPhase(g.rotor, g.step) && g.rotor.pos == 0 && 0 <= g.rotor.lo && g.rotor.hi <= STEPPER_GATE_STEPS
    ensures var g' := Open(g);
            && InPhase(g'.rotor, g'.step) && g'.rotor.pos == STEPPER_GATE_STEPS
            && 0 <= g'.rotor.lo <= g'.rotor.pos <= g'.rotor.hi <= STEPPER_GATE_STEPS
  {
  }

  lemma RollbackReturns(r: Rotor, step: int, n: nat)
    requires InPhase(r, step) && 0 < n <= STEPPER_GATE_STEPS && r.pos == STEPPER_GATE_STEPS
    requires 0 <= r.lo <= r.pos <= r.hi <= STEPPER_GATE_STEPS
    ensures var r' := Drive(Turned(Turned(r, n, -1), n, 1), OFF);
            InPhase(r', step) && r'.pos == r.pos && 0 <= r'.lo <= r'.pos <= r'.hi <= STEPPER_GATE_STEPS && r'.coils == OFF
  {
    var m := Turned(r, n, -1);
    var b := Turned(m, n, 1);
    assert m.pos == r.pos - n && b.pos == r.pos;
    OffKeepsPhase(b, step);
  }

  lemma ShutReaches(g: Gate)
    requires InPhase(g.rotor, g.step) && g.rotor.pos == STEPPER_GATE_STEPS
    requires 0 <= g.rotor.lo <= g.rotor.pos <= g.rotor.hi <= STEPPER_GATE_STEPS
    ensures PositionOk(SetState(Shut(g), Idle))
  {
    var m := Turned(g.rotor, STEPPER_GATE_STEPS, -1);
    assert m.pos == 0;
    OffKeepsPhase(m, (g.step - STEPPER_GATE_STEPS) % 8);
  }

  lemma CloseKeepsPosition(g: Gate, t: Turn)
    requires |t.checks| == CHECKS && PositionOk(g) && g.state != Idle
    ensures PositionOk(Close(g, t))
  {
    var k := FirstStop(g, t.checks, 0);
    if k == CHECKS {
      ShutReaches(g);
    } else {
      RollbackReturns(g.rotor, g.step, BATCH * (k + 1));
    }
  }

  lemma PollKeepsPosition(g: Gate, t: Turn)
    requires PositionOk(g)
    ensures PositionOk(Sampled(PollSwitch(g, t), t))
  {
    if g.state == Idle {
      OpenKeepsPosition(g.(pressed := false));
    }
  }

  lemma ActKeepsPosition(g: Gate, t: Turn)
    requires |t.checks| == CHECKS && PositionOk(g)
    ensures PositionOk(Act(g, t))
  {
    hide InPhase, Close;
    match g.state {
      case Idle => OpenKeepsPosition(SetState(g, EntryDetected));
      case EntryWaiting => CloseKeepsPosition(g, t);
      case ExitRequested => CloseKeepsPosition(g, t);
      case ExitVehicleWaiting => CloseKeepsPosition(g, t);
      case _ =>
    }
  }

  // ---- The ten-second rule ----------------------------------------------------------

  /** The clock the running timer counts from. */
  function Reference(g: Gate): int { if g.state == ExitRequested then g.exitRequest else g.lastVehicle }

  ghost predicate NoneAfter(detections: seq<int>, time: int) {
    forall d :: d in detections ==> d <= time
  }

  ghost predicate TimersOk(g: Gate, clock: int) {
    && NoneAfter(g.detections, clock)
    && (g.state != Idle ==> NoneAfter(g.detections, Reference(g)) && Reference(g) <= clock)
  }

  lemma CloseKeepsTimers(g: Gate, t: Turn, clock: int)
    requires ClockOk(clock, t) && NoneAfter(g.detections, t.now)
    requires g.state == EntryWaiting || g.state == ExitRequested || g.state == ExitVehicleWaiting
    ensures TimersOk(Close(g, t), t.abortedAt)
  {
    var k := FirstStop(g, t.checks, 0);
    if k < CHECKS {
      assert t.now <= t.checks[k].at <= t.abortedAt;
    }
  }

  lemma IterateKeepsTimers(g: Gate, t: Turn, clock: int)
    requires TimersOk(g, clock) && ClockOk(clock, t)
    ensures TimersOk(Iterate(g, t), t.abortedAt)
  {
    hide Close;
    var g1 := Sampled(PollSwitch(g, t), t);
    assert NoneAfter(g1.detections, t.now);
    if g1.state == EntryWaiting || g1.state == ExitRequested || g1.state == ExitVehicleWaiting {
      CloseKeepsTimers(g1, t, clock);
    }
  }

  lemma ToIntBound(x: int)
    requires x >= 0 && ToInt(x) >= 10
    ensures x >= 10
  {
  }

  // ---- The states written -----------------------------------------------------------

  /** The state changes the driver can write, repeats apart. */
  predicate Edge(a: SystemState, b: SystemState) {
    match a
    case Idle => b == EntryDetected || b == ExitRequested
    case EntryDetected => b == EntryWaiting
    case EntryWaiting => b == EntryDetected || b == Idle
    case ExitRequested => b == ExitVehicleDetected || b == ExitRequested || b == Idle
    case ExitVehicleDetected => b == ExitVehicleWaiting
    case ExitVehicleWaiting => b == ExitVehicleDetected || b == Idle
  }

  ghost predicate Path(ss: seq<SystemState>) {
    ss != [] && ss[0] == Idle && forall i :: 0 < i < |ss| ==> Edge(ss[i - 1], ss[i])
  }

  ghost predicate WrittenOk(g: Gate) {
    Path(g.written) && g.written[|g.written| - 1] == g.state
  }

  lemma CloseWrites(g: Gate, t: Turn)
    requires |t.checks| == CHECKS
    requires g.state == EntryWaiting || g.state == ExitRequested || g.state == ExitVehicleWaiting
    ensures var g' := Close(g, t); g'.written == g.written + [g'.state] && Edge(g.state, g'.state)
  {
  }

  lemma PollKeepsWritten(g: Gate, t: Turn)
    requires WrittenOk(g)
    ensures var g1 := Sampled(PollSwitch(g, t), t); WrittenOk(g1) && g.written <= g1.written
  {
  }

  lemma ActKeepsWritten(g: Gate, t: Turn)
    requires |t.checks| == CHECKS && WrittenOk(g)
    ensures WrittenOk(Act(g, t)) && g.written <= Act(g, t).written
  {
    hide Close, Open;
    if g.state == EntryWaiting || g.state == ExitRequested || g.state == ExitVehicleWaiting {
      CloseWrites(g, t);
    }
    OpenWritesNothing(SetState(g, EntryDetected));
    var g' := Act(g, t);
    assert (g'.written == g.written && g'.state == g.state) || (Edge(g.state, g'.state) && g'.written == g.written + [g'.state]);
  }

  lemma OpenWritesNothing(g: Gate)
    ensures Open(g).written == g.written && Open(g).state == g.state
  {
  }

  /** Every turn continues a path of state changes the driver can write. */
  lemma IterateKeepsWritten(g: Gate, t: Turn)
    requires |t.checks| == CHECKS && WrittenOk(g)
    ensures WrittenOk(Iterate(g, t)) && g.written <= Iterate(g, t).written
  {
    hide Act, PollSwitch;
    PollKeepsWritten(g, t);
    ActKeepsWritten(Sampled(PollSwitch(g, t), t), t);
  }

  // ---- Runs -------------------------------------------------------------------------

  ghost predicate GateOk(g: Gate, clock: int) { PositionOk(g) && TimersOk(g, clock) && WrittenOk(g) }

  /** The turns of a run, with clocks that never go back. */
  ghost predicate Timed(clock: int, ts: seq<Turn>)
    decreases |ts|
  {
    ts == [] || (ClockOk(clock, ts[0]) && Timed(ts[0].abortedAt, ts[1..]))
  }

  /** The gate at the loop head after a run from the loaded module. */
  function Run(g: Gate, ts: seq<Turn>): Gate
    requires forall t :: t in ts ==> |t.checks| == CHECKS
    decreases |ts|
  {
    if ts == [] then g else Run(Iterate(g, ts[0]), ts[1..])
  }

  function Clock(clock: int, ts: seq<Turn>): int { if ts == [] then clock else ts[|ts| - 1].abortedAt }

  lemma IterateKeeps(g: Gate, t: Turn, clock: int)
    requires GateOk(g, clock) && ClockOk(clock, t)
    ensures GateOk(Iterate(g, t), t.abortedAt)
  {
    hide Act, PollSwitch;
    PollKeepsPosition(g, t);
    ActKeepsPosition(Sampled(PollSwitch(g, t), t), t);
    IterateKeepsTimers(g, t, clock);
    IterateKeepsWritten(g, t);
  }

  lemma {:induction false} TurnsHaveChecks(clock: int, ts: seq<Turn>)
    requires Timed(clock, ts)
    ensures forall t :: t in ts ==> |t.checks| == CHECKS
    decreases |ts|
  {
    if ts != [] {
      TurnsHaveChecks(ts[0].abortedAt, ts[1..]);
    }
  }

  lemma {:induction false} RunKeeps(g: Gate, ts: seq<Turn>, clock: int)
    requires GateOk(g, clock) && Timed(clock, ts)
    ensures forall t :: t in ts ==> |t.checks| == CHECKS
    ensures GateOk(Run(g, ts), Clock(clock, ts))
    decreases |ts|
  {
    hide GateOk, Iterate, ClockOk;
    TurnsHaveChecks(clock, ts);
    if ts != [] {
      IterateKeeps(g, ts[0], clock);
      RunKeeps(Iterate(g, ts[0]), ts[1..], ts[0].abortedAt);
    }
  }

  /** Gate position over all runs: at every loop head the gate is at 0 exactly when the
      state is IDLE and at 1024 otherwise; no step on the way ever left 0..1024 and the
      rotor never slipped; the phase is the position modulo 8; the coils are off and no
      re-open request is pending in IDLE. */
  lemma PositionOverAllRuns(start: int, ts: seq<Turn>)
    requires 0 <= start && Timed(start, ts)
    ensures forall t :: t in ts ==> |t.checks| == CHECKS
    ensures var g := Run(LOADED, ts);
            && (g.state == Idle <==> g.rotor.pos == 0)
            && (g.state != Idle <==> g.rotor.pos == 1024)
            && 0 <= g.rotor.lo && g.rotor.hi <= 1024
            && g.rotor.slips == 0
            && g.step == g.rotor.pos % 8
            && (g.state == Idle ==> g.rotor.coils == OFF && !g.reopen)
            && Path(g.written)
  {
    hide Run, Timed;
    assert GateOk(LOADED, start);
    RunKeeps(LOADED, ts, start);
  }

  /** The ten-second rule: after any run, a turn that starts closing finds every earlier
      detecting sample at least ten whole seconds old, and in EXIT_REQUESTED its own
      sample does not detect either. */
  lemma TenSecondsOfQuiet(start: int, ts: seq<Turn>, t: Turn)
    requires 0 <= start && Timed(start, ts) && ClockOk(Clock(start, ts), t)
    ensures forall t :: t in ts ==> |t.checks| == CHECKS
    ensures var g := Run(LOADED, ts);
            Closing(g, t) ==>
              && (forall d :: d in g.detections ==> t.now - d >= 10)
              && (PollSwitch(g, t).state == ExitRequested ==> !Detects(t.sonar))
  {
    hide Run, Timed;
    assert GateOk(LOADED, start);
    RunKeeps(LOADED, ts, start);
    QuietBeforeClosing(Run(LOADED, ts), t, Clock(start, ts));
  }

  lemma QuietBeforeClosing(g: Gate, t: Turn, clock: int)
    requires TimersOk(g, clock) && ClockOk(clock, t)
    ensures Closing(g, t) ==> forall d :: d in g.detections ==> t.now - d >= 10
  {
    if Closing(g, t) {
      var g1 := PollSwitch(g, t);
      assert g1.detections == g.detections && NoneAfter(g.detections, Reference(g1));
      ToIntBound(t.now - Reference(g1));
    }
  }

  // ---- Presses ----------------------------------------------------------------------

  /** A press or a re-open request waits to be answered. */
  predicate Owed(g: Gate) { g.pressed || g.reopen }

  /** The check at which the closing move of a turn stops, if it does. */
  function StopOf(g: Gate, t: Turn): nat
    requires |t.checks| == CHECKS
  {
    FirstStop(Sampled(PollSwitch(g, t), t), t.checks, 0)
  }

  /** The handler accepts a press during the turn: before it polls the switch, before one of
      the checks a closing move comes to, or after the last poll. */
  ghost predicate AcceptedIn(g: Gate, t: Turn)
    requires |t.checks| == CHECKS
  {
    t.pressed || t.late || (Closing(g, t) && exists k :: 0 <= k < CHECKS && k <= StopOf(g, t) && t.checks[k].pressed)
  }

  /** The turn opens the gate for a press. */
  predicate OpenedForPress(g: Gate, t: Turn)
    requires |t.checks| == CHECKS
  {
    var after := Iterate(g, t).written;
    g.state == Idle && |after| > |g.written| && after[|g.written|] == ExitRequested
  }

  /** The turn starts a closing move, and a press or a request, not a vehicle, stops it. */
  predicate StoppedForPress(g: Gate, t: Turn)
    requires |t.checks| == CHECKS
  {
    Closing(g, t) && StopOf(g, t) < CHECKS && !Detects(t.checks[StopOf(g, t)].sonar)
  }

  predicate Answers(g: Gate, t: Turn)
    requires |t.checks| == CHECKS
  {
    OpenedForPress(g, t) || StoppedForPress(g, t)
  }

  /** The gate is opened for a press exactly when it is IDLE and one is pending at the poll. */
  lemma OpensWhenPressed(g: Gate, t: Turn)
    requires |t.checks| == CHECKS
    ensures OpenedForPress(g, t) <==> g.state == Idle && (g.pressed || t.pressed)
    ensures OpenedForPress(g, t) && PositionOk(g) ==> PollSwitch(g, t).rotor.pos == STEPPER_GATE_STEPS
  {
    hide Close, PollSwitch;
    PollOpens(g, t);
    if g.state == Idle {
      ActAddsToWritten(Sampled(PollSwitch(g, t), t), t);
    }
  }

  lemma PollOpens(g: Gate, t: Turn)
    ensures var g1 := PollSwitch(g, t);
            g.state == Idle ==>
              if g.pressed || t.pressed
              then g1.state == ExitRequested && g1.written == g.written + [ExitRequested] && (PositionOk(g) ==> g1.rotor.pos == STEPPER_GATE_STEPS)
              else g1 == g
  {
  }

  lemma ActAddsToWritten(g: Gate, t: Turn)
    requires |t.checks| == CHECKS
    ensures g.written <= Act(g, t).written
    ensures g.state == Idle && Act(g, t).written != g.written ==> Act(g, t).written == g.written + [EntryDetected]
  {
    hide Close, Open;
    OpenWritesNothing(SetState(g, EntryDetected));
    if g.state == EntryWaiting || g.state == ExitRequested || g.state == ExitVehicleWaiting {
      CloseWrites(g, t);
    }
  }

  /** What the poll leaves owed, and that a turn that does not close keeps it. */
  lemma OwedThroughTurn(g: Gate, t: Turn)
    requires |t.checks| == CHECKS && PositionOk(g)
    ensures var g1 := Sampled(PollSwitch(g, t), t);
            && (Owed(g) || t.pressed ==> Owed(g1) || OpenedForPress(g, t))
            && (!Closing(g, t) ==> (Owed(g1) ==> Owed(Iterate(g, t))) && (g1.state != Idle ==> Iterate(g, t).state != Idle))
            && (g1.state == Idle ==> g.state == Idle)
  {
    hide Close, OpenedForPress;
    OpensWhenPressed(g, t);
  }

  /** What a turn that closes makes of an owed press, or of one met on the way: it stops, and
      if a vehicle would have stopped it anyway, the press stays owed. */
  lemma OwedStopsClose(g: Gate, t: Turn)
    requires |t.checks| == CHECKS && Closing(g, t)
    ensures var g1 := Sampled(PollSwitch(g, t), t);
            Owed(g1) || (exists k :: 0 <= k < CHECKS && k <= StopOf(g, t) && t.checks[k].pressed) ==>
              && Iterate(g, t).state != Idle
              && (StoppedForPress(g, t) || Owed(Iterate(g, t)))
  {
    hide Turned, Drive;
    CloseCompletes(Sampled(PollSwitch(g, t), t), t);
  }

  /** No accepted press is lost in a turn, wherever it ends: one that was owed before or is
      accepted during the turn is owed after it, or the turn has opened the gate or
      stopped closing for it.  One accepted after the last poll is owed in any case. */
  lemma NoPressLost(g: Gate, t: Turn)
    requires |t.checks| == CHECKS && PositionOk(g)
    ensures Owed(g) || AcceptedIn(g, t) ==> Owed(Iterate(g, t)) || Answers(g, t)
    ensures t.late ==> Owed(Iterate(g, t))
    ensures Iterate(g, t).state == Idle && (Owed(g) || AcceptedIn(g, t)) ==> Iterate(g, t).pressed || OpenedForPress(g, t)
  {
    hide Close, OpenedForPress, PollSwitch, Act;
    OwedThroughTurn(g, t);
    if Closing(g, t) {
      OwedStopsClose(g, t);
    }
    IdleOwesNoReopen(g, t);
  }

  lemma IdleOwesNoReopen(g: Gate, t: Turn)
    requires |t.checks| == CHECKS && PositionOk(g)
    ensures Iterate(g, t).state == Idle ==> !Iterate(g, t).reopen
  {
    hide Act, PollSwitch, InPhase;
    PollKeepsPosition(g, t);
    ActKeepsPosition(Sampled(PollSwitch(g, t), t), t);
  }

  /** Some turn of the run answers. */
  ghost predicate AnsweredDuring(g: Gate, ts: seq<Turn>)
    requires forall t :: t in ts ==> |t.checks| == CHECKS
    decreases |ts|
  {
    ts != [] && (Answers(g, ts[0]) || AnsweredDuring(Iterate(g, ts[0]), ts[1..]))
  }

  lemma {:induction false} OwedUntilAnswered(g: Gate, ts: seq<Turn>, clock: int)
    requires GateOk(g, clock) && Timed(clock, ts) && Owed(g)
    ensures forall t :: t in ts ==> |t.checks| == CHECKS
    ensures Owed(Run(g, ts)) || AnsweredDuring(g, ts)
    decreases |ts|
  {
    hide GateOk, Iterate, ClockOk, Answers, Owed, AcceptedIn;
    TurnsHaveChecks(clock, ts);
    if ts != [] {
      assert PositionOk(g) by { PositionOf(g, clock); }
      NoPressLost(g, ts[0]);
      IterateKeeps(g, ts[0], clock);
      if Owed(Iterate(g, ts[0])) {
        OwedUntilAnswered(Iterate(g, ts[0]), ts[1..], ts[0].abortedAt);
      }
    }
  }

  lemma PositionOf(g: Gate, clock: int)
    requires GateOk(g, clock)
    ensures PositionOk(g)
  {
  }

  lemma {:induction false} RunJoins(g: Gate, a: seq<Turn>, b: seq<Turn>)
    requires forall t :: t in a + b ==> |t.checks| == CHECKS
    ensures (forall t :: t in a ==> |t.checks| == CHECKS) && forall t :: t in b ==> |t.checks| == CHECKS
    ensures Run(g, a + b) == Run(Run(g, a), b)
    decreases |a|
  {
    hide Iterate;
    assert forall t :: t in a || t in b ==> t in a + b;
    if a == [] {
      assert a + b == b;
    } else {
      assert (a + b)[1..] == a[1..] + b;
      RunJoins(Iterate(g, a[0]), a[1..], b);
    }
  }

  /** No accepted press is lost in any run.  Whenever the handler accepts one, be it before,
      between or after the polls of a turn, then however the run goes on it is still
      owed, or that turn or one since has opened the gate or stopped closing for it; and
      for one accepted after the last poll of its turn it is a later turn that has. */
  lemma NoPressLostInRuns(start: int, before: seq<Turn>, t: Turn, since: seq<Turn>)
    requires 0 <= start && Timed(start, before) && ClockOk(Clock(start, before), t) && Timed(t.abortedAt, since)
    ensures forall u :: u in before + [t] + since ==> |u.checks| == CHECKS
    ensures var g := Run(LOADED, before);
            var end := Run(LOADED, before + [t] + since);
            && (AcceptedIn(g, t) ==> Owed(end) || Answers(g, t) || AnsweredDuring(Iterate(g, t), since))
            && (t.late ==> Owed(end) || AnsweredDuring(Iterate(g, t), since))
  {
    hide Run, Timed, GateOk, Answers, AnsweredDuring, Iterate, ClockOk;
    assert GateOk(LOADED, start) by { LoadedOk(start); }
    TurnsHaveChecks(start, before);
    TurnsHaveChecks(t.abortedAt, since);
    assert |t.checks| == CHECKS by { ChecksOf(Clock(start, before), t); }
    RunKeeps(LOADED, before, start);
    var g := Run(LOADED, before);
    assert PositionOk(g) by { PositionOf(g, Clock(start, before)); }
    NoPressLost(g, t);
    IterateKeeps(g, t, Clock(start, before));
    RunJoins(LOADED, before + [t], since);
    RunJoins(LOADED, before, [t]);
    assert Run(g, [t]) == Iterate(g, t) by { RunOne(g, t); }
    if Owed(Iterate(g, t)) {
      OwedUntilAnswered(Iterate(g, t), since, t.abortedAt);
    }
  }

  lemma LoadedOk(start: int)
    requires 0 <= start
    ensures GateOk(LOADED, start)
  {
  }

  lemma ChecksOf(clock: int, t: Turn)
    requires ClockOk(clock, t)
    ensures |t.checks| == CHECKS
  {
  }

  lemma RunOne(g: Gate, t: Turn)
    requires |t.checks| == CHECKS
    ensures Run(g, [t]) == Iterate(g, t)
  {
    hide Iterate;
    assert [t][1..] == [];
  }

  /** A press that is pending in IDLE opens the gate in the very next turn, and a press
      accepted after the last poll of a turn is pending at its end. */
  lemma PendingPressOpens(g: Gate, t: Turn)
    requires |t.checks| == CHECKS && PositionOk(g)
    ensures t.late ==> Iterate(g, t).pressed
    ensures g.state == Idle && g.pressed ==>
              && |Iterate(g, t).written| > |g.written| && Iterate(g, t).written[|g.written|] == ExitRequested
              && PollSwitch(g, t).rotor.pos == STEPPER_GATE_STEPS
  {
    hide PollSwitch, Act;
    OpensWhenPressed(g, t);
  }

  /** No turn of the run starts closing. */
  ghost predicate NoneCloses(g: Gate, ts: seq<Turn>)
    requires forall t :: t in ts ==> |t.checks| == CHECKS
    decreases |ts|
  {
    ts != [] ==> !Closing(g, ts[0]) && NoneCloses(Iterate(g, ts[0]), ts[1..])
  }

  /** A press owed while the gate is open stays owed until the next closing move, however
      long that takes, and stops it, whatever its checks see; so does one made just
      before that turn polls. */
  lemma {:induction false} PressStopsNextClose(g: Gate, ts: seq<Turn>, t: Turn, clock: int)
    requires GateOk(g, clock) && Timed(clock, ts) && ClockOk(Clock(clock, ts), t) && g.state != Idle
    ensures forall u :: u in ts ==> |u.checks| == CHECKS
    ensures |t.checks| == CHECKS
    ensures NoneCloses(g, ts) ==>
              var g' := Run(g, ts);
              && g'.state != Idle && (Owed(g) ==> Owed(g'))
              && (Closing(g', t) && (Owed(g) || t.pressed) ==> Iterate(g', t).state != Idle && Iterate(g', t).rotor.pos == STEPPER_GATE_STEPS)
    decreases |ts|
  {
    hide GateOk, Iterate, ClockOk, Closing, Owed, OpenedForPress;
    TurnsHaveChecks(clock, ts);
    ChecksOf(Clock(clock, ts), t);
    PositionOf(g, clock);
    if ts == [] {
      StopsThisClose(g, t, clock);
    } else {
      IterateKeeps(g, ts[0], clock);
      if NoneCloses(g, ts) {
        OpenStays(g, ts[0]);
        assert Clock(ts[0].abortedAt, ts[1..]) == Clock(clock, ts);
        PressStopsNextClose(Iterate(g, ts[0]), ts[1..], t, ts[0].abortedAt);
      }
    }
  }

  lemma OpenStays(g: Gate, t: Turn)
    requires |t.checks| == CHECKS && PositionOk(g) && g.state != Idle && !Closing(g, t)
    ensures Iterate(g, t).state != Idle && (Owed(g) ==> Owed(Iterate(g, t)))
  {
    hide Act, PollSwitch;
    OwedThroughTurn(g, t);
  }

  lemma StopsThisClose(g: Gate, t: Turn, clock: int)
    requires GateOk(g, clock) && ClockOk(clock, t) && g.state != Idle
    ensures |t.checks| == CHECKS
    ensures Closing(g, t) && (Owed(g) || t.pressed) ==> Iterate(g, t).state != Idle && Iterate(g, t).rotor.pos == STEPPER_GATE_STEPS
  {
    hide Act, PollSwitch, Closing, Iterate, OpenedForPress, Answers;
    OwedThroughTurn(g, t);
    if Closing(g, t) && (Owed(g) || t.pressed) {
      assert !OpenedForPress(g, t) by { OpensWhenPressed(g, t); }
      OwedStopsClose(g, t);
      IterateKeeps(g, t, clock);
    }
  }

  // ---- What a turn does -------------------------------------------------------------

  /** A vehicle within ten centimetres, and an echo from further away. */
  predicate Near(s: Sonar) { s.Pulse? && 58 <= s.us <= 637 }

  predicate Far(s: Sonar) { s.Pulse? && s.us >= 638 }

  /** Check k stops a closing move: at the first one anything owed does, at any a press or a
      vehicle. */
  predicate Disturbs(owed: bool, checks: seq<Check>, k: nat)
    requires k < |checks|
  {
    owed || checks[k].pressed || Near(checks[k].sonar)
  }

  function Least(a: int, b: int): int { if a < b then a else b }

  /** A closing move from 1024: undisturbed, it ends in IDLE at 0 with the coils off and
      nothing owed.  Otherwise the first check that disturbs it, after 64 steps for each
      check so far, sends the gate back to 1024, coils off, to the state `back`; a
      vehicle leaves presses and requests as they are, else a press is used up, or if
      there is none the request. */
  ghost predicate ClosesOrReturns(g: Gate, t: Turn, owed: bool, back: SystemState, g': Gate)
    requires |t.checks| == 15
  {
    && g'.rotor.coils == OFF
    && ((forall k :: 0 <= k < 15 ==> !Disturbs(owed, t.checks, k)) ==>
          && g'.state == Idle && g'.rotor.pos == 0 && g'.pressed == t.late && !g'.reopen
          && g'.lastVehicle == g.lastVehicle && g'.exitRequest == g.exitRequest)
    && (forall k :: 0 <= k < 15 && Disturbs(owed, t.checks, k) && (forall j :: 0 <= j < k ==> !Disturbs(owed, t.checks, j)) ==>
          && g'.state == back && g'.rotor.pos == 1024 && g'.rotor.lo == Least(g.rotor.lo, 1024 - 64 * (k + 1))
          && g'.lastVehicle == t.abortedAt && g'.exitRequest == (if back == ExitRequested then t.abortedAt else g.exitRequest)
          && (if Near(t.checks[k].sonar) then g'.reopen == owed && g'.pressed == (t.checks[k].pressed || t.late)
              else g'.reopen == (owed && t.checks[k].pressed) && g'.pressed == t.late))
  }

  /** The turn leaves motor and exit time alone, is in state s afterwards with this time of
      the last vehicle, and what was owed is still to be answered. */
  predicate Rests(g: Gate, t: Turn, s: SystemState, lastVehicle: int, g': Gate) {
    && g'.rotor == g.rotor && g'.exitRequest == g.exitRequest
    && g'.state == s && g'.lastVehicle == lastVehicle
    && g'.reopen == (Owed(g) || t.pressed) && g'.pressed == t.late
  }

  /** An EXIT_REQUESTED gate at 1024, since `since`, with or without something owed. */
  ghost predicate ExitTurn(g: Gate, t: Turn, since: int, owed: bool, g': Gate)
    requires |t.checks| == 15
  {
    if Near(t.sonar) then
      && g'.state == ExitVehicleDetected && g'.lastVehicle == t.now && g'.exitRequest == since
      && g'.rotor.pos == 1024 && g'.reopen == owed && g'.pressed == t.late
    else
      && (t.now - since < 10 ==>
            && g'.state == ExitRequested && g'.lastVehicle == g.lastVehicle && g'.exitRequest == since
            && g'.rotor.pos == 1024 && g'.reopen == owed && g'.pressed == t.late)
      && (10 <= t.now - since < 0x8000_0000 ==> ClosesOrReturns(g.(exitRequest := since), t, owed, ExitRequested, g'))
  }

  /** What a turn does to the gate, said from its samples, clocks and presses. */
  ghost predicate TurnLaw(g: Gate, t: Turn, g': Gate)
    requires |t.checks| == 15
  {
    match g.state
    case Idle =>
      if g.pressed || t.pressed then ExitTurn(g, t, t.openedAt, false, g')
      else if Near(t.sonar) then
        && g'.state == EntryDetected && g'.rotor.pos == 1024 && g'.lastVehicle == t.now && g'.exitRequest == g.exitRequest
        && g'.written == g.written + [EntryDetected] && !g'.reopen && g'.pressed == t.late
      else Rests(g, t, Idle, g.lastVehicle, g') && g'.written == g.written
    case EntryDetected => Rests(g, t, if Near(t.sonar) then EntryDetected else EntryWaiting, t.now, g')
    case ExitVehicleDetected =>
      if Near(t.sonar) then Rests(g, t, ExitVehicleDetected, t.now, g')
      else if Far(t.sonar) then Rests(g, t, ExitVehicleWaiting, t.now, g')
      else Rests(g, t, ExitVehicleDetected, g.lastVehicle, g')
    case ExitRequested =>
      ExitTurn(g, t, g.exitRequest, Owed(g) || t.pressed, g') && (Near(t.sonar) || t.now - g.exitRequest < 10 ==> g'.rotor == g.rotor)
    case EntryWaiting | ExitVehicleWaiting =>
      var again := if g.state == EntryWaiting then EntryDetected else ExitVehicleDetected;
      && (10 <= t.now - g.lastVehicle < 0x8000_0000 ==> ClosesOrReturns(g, t, Owed(g) || t.pressed, again, g'))
      && (t.now - g.lastVehicle < 10 ==>
            if Near(t.sonar) then Rests(g, t, again, t.now, g') else Rests(g, t, g.state, g.lastVehicle, g'))
  }

  lemma NearIsDetected(s: Sonar)
    ensures Near(s) <==> Detects(s)
    ensures Far(s) <==> MeasureCm(s) > VEHICLE_DETECT_CM
  {
  }

  /** What is owed after the poll of an open gate, and when a closing move then stops. */
  lemma DisturbedIsStopped(g: Gate, checks: seq<Check>, n: nat)
    requires !g.pressed && n <= |checks|
    ensures Passes(g, checks, n) <==> forall k :: 0 <= k < n ==> !Disturbs(g.reopen, checks, k)
  {
    hide Near, Detects;
    forall k | 0 <= k < n ensures Disturbs(g.reopen, checks, k) <==> g.reopen || checks[k].pressed || Detects(checks[k].sonar) {
      NearIsDetected(checks[k].sonar);
    }
    if n > 0 {
      assert g.reopen ==> Disturbs(g.reopen, checks, 0);
    }
  }

  /** Close, seen from outside. */
  lemma CloseLaw(g: Gate, t: Turn, back: SystemState)
    requires |t.checks| == CHECKS && PositionOk(g) && !g.pressed
    requires (g.state == EntryWaiting && back == EntryDetected) || (g.state == ExitVehicleWaiting && back == ExitVehicleDetected)
             || (g.state == ExitRequested && back == ExitRequested)
    ensures var g' := Close(g, t); ClosesOrReturns(g, t, g.reopen, back, g'.(pressed := g'.pressed || t.late))
  {
    hide Turned, Drive, Shut, RolledBack, InPhase, Near, Detects;
    var s := FirstStop(g, t.checks, 0);
    var g' := Close(g, t);
    DisturbedIsStopped(g, t.checks, s);
    if s < CHECKS {
      DisturbedIsStopped(g, t.checks, s + 1);
      assert Disturbs(g.reopen, t.checks, s);
      RolledBackLaw(g, t.checks, s);
    } else {
      ShutLaw(g);
    }
  }

  lemma ShutLaw(g: Gate)
    requires PositionOk(g) && g.state != Idle
    ensures var g' := Shut(g); g' == g.(rotor := g'.rotor, step := g'.step, pressed := false, reopen := false)
                               && g'.rotor.pos == 0 && g'.rotor.coils == OFF
  {
  }

  lemma RolledBackLaw(g: Gate, checks: seq<Check>, k: nat)
    requires PositionOk(g) && g.state != Idle && k < |checks| && Disturbs(g.reopen, checks, k) && !g.pressed && BATCH * (k + 1) <= STEPPER_GATE_STEPS
    ensures var g' := RolledBack(g, checks, k);
            && g' == g.(rotor := g'.rotor, pressed := g'.pressed, reopen := g'.reopen, detections := g'.detections)
            && g'.rotor.pos == 1024 && g'.rotor.coils == OFF && g'.rotor.lo == Least(g.rotor.lo, 1024 - 64 * (k + 1))
            && (if Near(checks[k].sonar) then g'.reopen == g.reopen && g'.pressed == checks[k].pressed
                else g'.reopen == (g.reopen && checks[k].pressed) && !g'.pressed)
  {
    NearIsDetected(checks[k].sonar);
    var n := BATCH * (k + 1);
    assert Turned(g.rotor, n, -1).pos == 1024 - n;
  }

  /** What the poll of the switch makes of an open gate, and of an IDLE one. */
  lemma PollLaw(g: Gate, t: Turn)
    requires PositionOk(g)
    ensures var g1 := Sampled(PollSwitch(g, t), t);
            && PositionOk(g1) && !g1.pressed && g1.lastVehicle == g.lastVehicle
            && (g.state != Idle ==>
                  g1.state == g.state && g1.rotor == g.rotor && g1.exitRequest == g.exitRequest && g1.reopen == (Owed(g) || t.pressed)
                  && g1.written == g.written)
            && (g.state == Idle && (g.pressed || t.pressed) ==>
                  g1.state == ExitRequested && g1.rotor.pos == 1024 && g1.exitRequest == t.openedAt && !g1.reopen && g1.rotor.lo == g.rotor.lo)
            && (g.state == Idle && !(g.pressed || t.pressed) ==> g1 == g.(detections := g1.detections))
  {
    PollKeepsPosition(g, t);
  }

  lemma {:induction false} ToIntOfSmall(x: int)
    requires -0x8000_0000 <= x < 0x8000_0000
    ensures ToInt(x) == x
  {
  }

  lemma ExitRequestedLaw(g: Gate, t: Turn)
    requires |t.checks| == CHECKS && PositionOk(g) && !g.pressed && g.state == ExitRequested && g.exitRequest <= t.now
    ensures var g' := Act(g, t);
            && ExitTurn(g, t, g.exitRequest, g.reopen, g'.(pressed := g'.pressed || t.late))
            && (Near(t.sonar) || t.now - g.exitRequest < 10 ==> g'.rotor == g.rotor)
  {
    hide Close, Near, Detects, ClosesOrReturns, InPhase, ToInt;
    NearIsDetected(t.sonar);
    CloseLaw(g, t, ExitRequested);
    if t.now - g.exitRequest < 0x8000_0000 {
      ToIntOfSmall(t.now - g.exitRequest);
    }
    assert g.(exitRequest := g.exitRequest) == g;
  }

  lemma WaitingLaw(g: Gate, t: Turn)
    requires |t.checks| == CHECKS && PositionOk(g) && !g.pressed && g.lastVehicle <= t.now
    requires g.state == EntryWaiting || g.state == ExitVehicleWaiting
    ensures var g' := Act(g, t).(pressed := Act(g, t).pressed || t.late);
            var again := if g.state == EntryWaiting then EntryDetected else ExitVehicleDetected;
            && (10 <= t.now - g.lastVehicle < 0x8000_0000 ==> ClosesOrReturns(g, t, g.reopen, again, g'))
            && (t.now - g.lastVehicle < 10 ==>
                  && g'.rotor == g.rotor && g'.exitRequest == g.exitRequest && g'.reopen == g.reopen && g'.pressed == t.late
                  && g'.state == (if Near(t.sonar) then again else g.state)
                  && g'.lastVehicle == (if Near(t.sonar) then t.now else g.lastVehicle))
  {
    hide Close, Near, Detects, ClosesOrReturns, InPhase, ToInt;
    NearIsDetected(t.sonar);
    CloseLaw(g, t, if g.state == EntryWaiting then EntryDetected else ExitVehicleDetected);
    if t.now - g.lastVehicle < 0x8000_0000 {
      ToIntOfSmall(t.now - g.lastVehicle);
    }
  }

  lemma SeenLaw(g: Gate, t: Turn)
    requires |t.checks| == CHECKS && PositionOk(g) && !g.pressed
    requires g.state == Idle || g.state == EntryDetected || g.state == ExitVehicleDetected
    ensures var g' := Act(g, t);
            && !g'.pressed && g'.reopen == g.reopen && g'.exitRequest == g.exitRequest
            && (g.state == Idle && Near(t.sonar) ==>
                  g'.state == EntryDetected && g'.rotor.pos == 1024 && g'.lastVehicle == t.now && g'.written == g.written + [EntryDetected])
            && (g.state == Idle && !Near(t.sonar) ==> g' == g)
            && (g.state != Idle ==> g'.rotor == g.rotor)
            && (g.state == EntryDetected ==>
                  g'.lastVehicle == t.now && g'.state == if Near(t.sonar) then EntryDetected else EntryWaiting)
            && (g.state == ExitVehicleDetected ==>
                  && g'.state == (if Far(t.sonar) then ExitVehicleWaiting else ExitVehicleDetected)
                  && g'.lastVehicle == (if Near(t.sonar) || Far(t.sonar) then t.now else g.lastVehicle))
  {
    NearIsDetected(t.sonar);
  }

  /** Every turn of a gate that is where it should be obeys the law. */
  lemma TurnObeys(g: Gate, t: Turn, clock: int)
    requires GateOk(g, clock) && ClockOk(clock, t)
    ensures TurnLaw(g, t, Iterate(g, t))
  {
    hide Close, Act, PollSwitch, ClosesOrReturns, InPhase, NoneAfter, WrittenOk;
    var g1 := Sampled(PollSwitch(g, t), t);
    var g' := Iterate(g, t);
    PollLaw(g, t);
    match g1.state {
      case ExitRequested =>
        ExitRequestedLaw(g1, t);
        LawIgnoresRest(g1, g.(exitRequest := g1.exitRequest), t, g1.reopen, ExitRequested, g');
      case EntryWaiting =>
        WaitingLaw(g1, t);
        LawIgnoresRest(g1, g, t, g1.reopen, EntryDetected, g');
      case ExitVehicleWaiting =>
        WaitingLaw(g1, t);
        LawIgnoresRest(g1, g, t, g1.reopen, ExitVehicleDetected, g');
      case _ => SeenLaw(g1, t);
    }
  }

  /** The law of closing looks at the lowest position and the two times of the gate only. */
  lemma LawIgnoresRest(g: Gate, h: Gate, t: Turn, owed: bool, back: SystemState, g': Gate)
    requires |t.checks| == 15
    requires g.rotor.lo == h.rotor.lo && g.lastVehicle == h.lastVehicle && g.exitRequest == h.exitRequest
    ensures ClosesOrReturns(g, t, owed, back, g') <==> ClosesOrReturns(h, t, owed, back, g')
  {
  }

  /** Over all runs: whatever the turns before, the next one obeys the law.  So an arriving
      vehicle opens the gate, ten quiet seconds close it, and nothing else moves it. */
  lemma {:induction false} EveryTurnObeys(start: int, ts: seq<Turn>, t: Turn)
    requires 0 <= start && Timed(start, ts) && ClockOk(Clock(start, ts), t)
    ensures forall u :: u in ts + [t] ==> |u.checks| == 15
    ensures TurnLaw(Run(LOADED, ts), t, Run(LOADED, ts + [t]))
  {
    hide Run, Timed, GateOk, Iterate, ClockOk, TurnLaw;
    assert GateOk(LOADED, start) by { LoadedOk(start); }
    TurnsHaveChecks(start, ts);
    assert |t.checks| == CHECKS by { ChecksOf(Clock(start, ts), t); }
    RunKeeps(LOADED, ts, start);
    RunJoins(LOADED, ts, [t]);
    assert Run(Run(LOADED, ts), [t]) == Iterate(Run(LOADED, ts), t) by { RunOne(Run(LOADED, ts), t); }
    TurnObeys(Run(LOADED, ts), t, Clock(start, ts));
  }
}
