/** The RPI2 kernel gate as the driver runs it: global variables changed in place, the
    step loops, the interruptible close with its roll-back, and the thread's loop.  Every
    routine is proved to do what KernelGate says of one turn. */
module GateNode {
  import opened Stepper
  import opened KernelGate

  class Node {
    var currentState: SystemState
    var switchPressed: bool
    var switchReopen: bool
    var stepperStep: int
    var lastVehicleDetect: int
    var exitRequestTime: int
    var pins: Coils
    ghost var rotor: Rotor
    ghost var written: seq<SystemState>
    ghost var detections: seq<int>

    ghost predicate Valid()
      reads this
    {
      && InPhase(rotor, stepperStep)
      && rotor.coils == pins
      && rotor.lo <= rotor.pos <= rotor.hi
    }

    ghost function View(): Gate
      reads this
    {
      Gate(currentState, switchPressed, switchReopen, stepperStep, rotor, lastVehicleDetect, exitRequestTime, written, detections)
    }

    constructor ()
      ensures Valid() && View() == LOADED
    {
      currentState, switchPressed, switchReopen := Idle, false, false;
      stepperStep, lastVehicleDetect, exitRequestTime := 0, 0, 0;
      pins, rotor := OFF, RESTING;
      written, detections := [Idle], [];
    }

    method SetPins(c: Coils)
      modifies `pins, `rotor
      ensures pins == c && rotor == Drive(old(rotor), c)
    {
      pins := c;
      rotor := Drive(rotor, c);
    }

    method SetState(s: SystemState)
      modifies `currentState, `written
      ensures View() == KernelGate.SetState(old(View()), s)
    {
      currentState := s;
      written := written + [s];
    }

    /** The interrupt handler, if it accepted a press by now. */
    method SwitchIrq(accepted: bool)
      modifies `switchPressed
      ensures switchPressed == (old(switchPressed) || accepted)
    {
      if accepted {
        switchPressed := true;
      }
    }

    /** Reads the flag and clears it. */
    method SwitchWasPressed() returns (r: bool)
      modifies `switchPressed
      ensures r == old(switchPressed) && !switchPressed
    {
      r := switchPressed;
      switchPressed := false;
    }

    method ReopenWasRequested() returns (r: bool)
      modifies `switchReopen
      ensures r == old(switchReopen) && !switchReopen
    {
      r := switchReopen;
      switchReopen := false;
    }

    /** One motor step, the n-th of a move that began with the rotor at r. */
    method StepMotor(dir: int, ghost r: Rotor, ghost n: nat)
      requires Valid() && (dir == 1 || dir == -1)
      requires Steady(r) && rotor == Turned(r, n, dir)
      modifies `stepperStep, `pins, `rotor
      ensures Valid()
      ensures rotor == Turned(r, n + 1, dir)
    {
      TurnedExtends(r, n, dir);
      StepTurnsByOne(rotor, stepperStep, dir);
      stepperStep := (stepperStep + dir + 8) % 8;
      SetPins(HalfStep(stepperStep));
    }

    /** n steps in one direction. */
    method TurnMotor(n: nat, dir: int)
      requires Valid() && (dir == 1 || dir == -1)
      modifies `stepperStep, `pins, `rotor
      ensures Valid()
      ensures rotor == Turned(old(rotor), n, dir)
    {
      ghost var r := rotor;
      for i := 0 to n
        invariant Valid()
        invariant rotor == Turned(r, i, dir)
      {
        StepMotor(dir, r, i);
      }
    }

    method GateOpen()
      requires Valid()
      modifies `stepperStep, `pins, `rotor
      ensures Valid() && View() == Open(old(View()))
    {
      TurnMotor(STEPPER_GATE_STEPS, 1);
    }

    /** Between two batches: a vehicle, a press, or a pending re-open request, in that
        order and no further than the first that holds. */
    method Interrupted(c: Check) returns (stop: bool)
      modifies `switchPressed, `switchReopen, `detections
      ensures (stop, switchPressed, switchReopen) == Poll(old(switchPressed), old(switchReopen), c)
      ensures detections == if Detects(c.sonar) then old(detections) + [c.at] else old(detections)
    {
      SwitchIrq(c.pressed);
      var dist := MeasureCm(c.sonar);
      stop := dist > 0 && dist <= VEHICLE_DETECT_CM;
      if stop {
        detections := detections + [c.at];
      }
      if !stop {
        stop := SwitchWasPressed();
      }
      if !stop {
        stop := ReopenWasRequested();
      }
    }

    /** Puts the pins low. */
    method Deenergize()
      requires Valid()
      modifies `pins, `rotor
      ensures Valid() && rotor == Drive(old(rotor), OFF)
    {
      SetPins(OFF);
    }

    /** What a check between two batches leads to: the move goes on, or everything done so
        far is turned back. */
    method CheckBatch(ghost g: Gate, checks: seq<Check>, k: nat, stepsDone: nat) returns (stop: bool)
      requires Valid() && |checks| == CHECKS && k < CHECKS && stepsDone == BATCH * (k + 1)
      requires InPhase(g.rotor, g.step) && Steady(g.rotor)
      requires Passes(g, checks, k) && View() == Partly(g, stepsDone)
      modifies `switchPressed, `switchReopen, `stepperStep, `pins, `rotor, `detections
      ensures Valid()
      ensures if stop then StopsAt(g, checks, k) && View() == RolledBack(g, checks, k)
              else Passes(g, checks, k + 1) && View() == Partly(g, stepsDone)
    {
      stop := Interrupted(checks[k]);
      PollStops(g, checks, k);
      if stop {
        TurnMotor(stepsDone, 1);
        Deenergize();
        BackWhereItWas(g.rotor, stepsDone);
      }
    }

    /** gate_close_interruptible: 1024 steps with a check after every 64 but the last. */
    method CloseInterruptible(checks: seq<Check>) returns (r: int)
      requires Valid() && |checks| == CHECKS
      modifies `switchPressed, `switchReopen, `stepperStep, `pins, `rotor, `detections
      ensures Valid()
      ensures var k := FirstStop(old(View()), checks, 0);
              && (r < 0 <==> k < CHECKS)
              && View() == if k == CHECKS then Shut(old(View())) else RolledBack(old(View()), checks, k)
    {
      hide Turned, InPhase, Passes, FirstStop, RolledBack, Drive, Steady, Polls;
      ghost var g := View();
      assert Steady(g.rotor) && Partly(g, 0) == g && Polls(0) == 0 && Passes(g, checks, 0) by { AtTheStart(g, checks); }
      var stepsDone := 0;
      for i := 0 to STEPPER_GATE_STEPS
        invariant Valid()
        invariant stepsDone == i
        invariant Passes(g, checks, Polls(i))
        invariant View() == Partly(g, i)
      {
        StepMotor(-1, g.rotor, i);
        stepsDone := stepsDone + 1;
        PhaseFollows(rotor, g.rotor, stepperStep, stepsDone);
        PollsStep(i);
        if stepsDone % BATCH == 0 && stepsDone < STEPPER_GATE_STEPS {
          var k := stepsDone / BATCH - 1;
          var stop := CheckBatch(g, checks, k, stepsDone);
          if stop {
            StopIsFirst(g, checks, k);
            return -1;
          }
        }
      }
      PollsStep(STEPPER_GATE_STEPS);
      PassesAll(g, checks);
      assert View() == Partly(g, STEPPER_GATE_STEPS);
      FlagsClear(g, checks);
      Deenergize();
      return 0;
    }

    method OnSwitchPress(openedAt: int)
      requires Valid()
      modifies this
      ensures Valid()
      ensures var g := old(View());
              View() == if g.state == Idle then KernelGate.SetState(Open(g).(exitRequest := openedAt), ExitRequested)
                        else g.(reopen := true)
    {
      if currentState == Idle {
        GateOpen();
        exitRequestTime := openedAt;
        SetState(ExitRequested);
      } else {
        switchReopen := true;
      }
    }

    /** A closing move and what each state makes of its outcome. */
    method CloseFrom(t: Turn, reopened: SystemState)
      requires Valid() && |t.checks| == CHECKS
      requires reopened == match currentState
                           case ExitRequested => ExitRequested
                           case ExitVehicleWaiting => ExitVehicleDetected
                           case _ => EntryDetected
      modifies this
      ensures Valid() && View() == Close(old(View()), t)
    {
      var r := CloseInterruptible(t.checks);
      if r < 0 {
        lastVehicleDetect := t.abortedAt;
        if reopened == ExitRequested {
          exitRequestTime := t.abortedAt;
        }
        SetState(reopened);
      } else {
        SetState(Idle);
      }
    }

    /** One turn of the thread's loop. */
    method Iteration(t: Turn)
      requires Valid() && |t.checks| == CHECKS
      modifies this
      ensures Valid() && View() == Iterate(old(View()), t)
      ensures forall clock :: GateOk(old(View()), clock) && ClockOk(clock, t) ==> TurnLaw(old(View()), t, View())
    {
      forall clock | GateOk(View(), clock) && ClockOk(clock, t) ensures TurnLaw(View(), t, Iterate(View(), t)) {
        TurnObeys(View(), t, clock);
      }
      hide TurnLaw, GateOk, ClockOk;
      ghost var g0 := View();
      SwitchIrq(t.pressed);
      var pressed := SwitchWasPressed();
      if pressed {
        OnSwitchPress(t.openedAt);
      }
      assert View() == PollSwitch(g0, t);
      var distanceCm := MeasureCm(t.sonar);
      var detected := distanceCm > 0 && distanceCm <= VEHICLE_DETECT_CM;
      if detected {
        detections := detections + [t.now];
      }
      ghost var g1 := View();
      assert g1 == Sampled(PollSwitch(g0, t), t);
      ActOn(t, distanceCm, detected);
      SwitchIrq(t.late);
    }

    /** The switch over the states. */
    method ActOn(t: Turn, distanceCm: int, detected: bool)
      requires Valid() && |t.checks| == CHECKS
      requires distanceCm == MeasureCm(t.sonar) && detected == Detects(t.sonar)
      modifies this
      ensures Valid() && View() == Act(old(View()), t)
    {
      match currentState {
        case Idle =>
          if detected {
            SetState(EntryDetected);
            GateOpen();
            lastVehicleDetect := t.now;
          }
        case EntryDetected =>
          if detected {
            lastVehicleDetect := t.now;
          } else if distanceCm < 0 || distanceCm > VEHICLE_DETECT_CM {
            lastVehicleDetect := t.now;
            SetState(EntryWaiting);
          }
        case EntryWaiting =>
          if ToInt(t.now - lastVehicleDetect) >= ENTRY_CLOSE_DELAY_SEC {
            CloseFrom(t, EntryDetected);
          } else if detected {
            lastVehicleDetect := t.now;
            SetState(EntryDetected);
          }
        case ExitRequested =>
          if detected {
            SetState(ExitVehicleDetected);
            lastVehicleDetect := t.now;
          } else if ToInt(t.now - exitRequestTime) >= EXIT_TIMEOUT_SEC {
            CloseFrom(t, ExitRequested);
          }
        case ExitVehicleDetected =>
          if detected {
            lastVehicleDetect := t.now;
          } else if distanceCm > VEHICLE_DETECT_CM {
            lastVehicleDetect := t.now;
            SetState(ExitVehicleWaiting);
          }
        case ExitVehicleWaiting =>
          if ToInt(t.now - lastVehicleDetect) >= ENTRY_CLOSE_DELAY_SEC {
            CloseFrom(t, ExitVehicleDetected);
          } else if detected {
            lastVehicleDetect := t.now;
            SetState(ExitVehicleDetected);
          }
      }
    }

    /** The thread's loop, for as many turns as it runs: the gate invariant holds at every
        loop head. */
    method StateMachineThread(ts: seq<Turn>, ghost clock: int)
      requires Valid() && GateOk(View(), clock) && Timed(clock, ts)
      modifies this
      ensures Valid()
      ensures forall t :: t in ts ==> |t.checks| == CHECKS
      ensures View() == Run(old(View()), ts)
      ensures GateOk(View(), Clock(clock, ts))
    {
      TurnsHaveChecks(clock, ts);
      RunKeeps(View(), ts, clock);
      ghost var g := View();
      ghost var now := clock;
      for i := 0 to |ts|
        invariant Valid()
        invariant Run(View(), ts[i..]) == Run(g, ts)
        invariant GateOk(View(), now) && Timed(now, ts[i..])
      {
        hide GateOk, Iterate, ClockOk;
        assert ts[i..][0] == ts[i] && ts[i..][1..] == ts[i + 1..];
        IterateKeeps(View(), ts[i], now);
        Iteration(ts[i]);
        now := ts[i].abortedAt;
      }
      assert ts[|ts|..] == [];
    }
  }

  // ---- Loop lemmas ------------------------------------------------------------------

  /** The gate n steps into a closing move that nothing has stopped. */
  function Partly(g: Gate, n: nat): Gate {
    g.(rotor := Turned(g.rotor, n, -1), step := (g.rotor.pos - n) % 8)
  }

  /** Checks made in the first n steps. */
  function Polls(n: nat): (k: nat)
    ensures k <= CHECKS
  {
    if n / BATCH < CHECKS then n / BATCH else CHECKS
  }

  predicate Steady(r: Rotor) { InPhase(r, r.pos % 8) && r.lo <= r.pos <= r.hi }

  lemma PhaseFollows(r: Rotor, from: Rotor, phase: int, n: nat)
    requires InPhase(r, phase) && r == Turned(from, n, -1)
    ensures phase == (from.pos - n) % 8
  {
  }

  lemma AtTheStart(g: Gate, checks: seq<Check>)
    requires InPhase(g.rotor, g.step) && g.rotor.lo <= g.rotor.pos <= g.rotor.hi
    ensures Steady(g.rotor) && Partly(g, 0) == g && Polls(0) == 0 && Passes(g, checks, 0)
  {
  }

  lemma PollsStep(n: nat)
    requires n <= STEPPER_GATE_STEPS
    ensures n < STEPPER_GATE_STEPS ==>
              if (n + 1) % BATCH == 0 && n + 1 < STEPPER_GATE_STEPS
              then Polls(n) < CHECKS && Polls(n) == (n + 1) / BATCH - 1 && n + 1 == BATCH * (Polls(n) + 1) && Polls(n + 1) == Polls(n) + 1
              else Polls(n + 1) == Polls(n)
    ensures n == STEPPER_GATE_STEPS ==> Polls(n) == CHECKS
  {
  }

  /** A closing move nothing has stopped finds both flags clear, and ends where Shut says. */
  lemma FlagsClear(g: Gate, checks: seq<Check>)
    requires |checks| == CHECKS && Passes(g, checks, CHECKS) && InPhase(g.rotor, g.step)
    ensures var p := Partly(g, STEPPER_GATE_STEPS); p.(rotor := Drive(p.rotor, OFF)) == Shut(g)
  {
  }

  lemma PollStops(g: Gate, checks: seq<Check>, k: nat)
    requires k < |checks| && Passes(g, checks, k)
    ensures Poll(g.pressed, g.reopen, checks[k]).0 <==> StopsAt(g, checks, k)
    ensures !Poll(g.pressed, g.reopen, checks[k]).0 ==> Passes(g, checks, k + 1)
  {
  }

  lemma BackWhereItWas(r: Rotor, n: nat)
    ensures Turned(Turned(r, n, -1), n, 1).pos == r.pos
  {
  }

  lemma StopIsFirst(g: Gate, checks: seq<Check>, k: nat)
    requires k < |checks| && StopsAt(g, checks, k)
    ensures FirstStop(g, checks, 0) == k
  {
    FirstStopFrom(g, checks, 0, k);
  }

  lemma {:induction false} FirstStopFrom(g: Gate, checks: seq<Check>, n: nat, k: nat)
    requires n <= k < |checks| && Passes(g, checks, n) && StopsAt(g, checks, k)
    ensures FirstStop(g, checks, n) == k
    decreases k - n
  {
    if n < k {
      FirstStopFrom(g, checks, n + 1, k);
    }
  }

  lemma PassesAll(g: Gate, checks: seq<Check>)
    requires Passes(g, checks, |checks|)
    ensures FirstStop(g, checks, 0) == |checks|
  {
    if FirstStop(g, checks, 0) < |checks| {
      PassesFewer(g, checks, FirstStop(g, checks, 0) + 1);
    }
  }

  lemma PassesFewer(g: Gate, checks: seq<Check>, n: nat)
    requires n <= |checks| && Passes(g, checks, |checks|)
    ensures Passes(g, checks, n)
  {
  }
}
