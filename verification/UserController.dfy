/** The routines of the user-space gate controller as they are written: variables changed
    in place, the step loop, and the close that works in batches and turns everything back.
    Each is proved to do what the steps of UserGate do when no other thread gets in
    between. */
module UserController {
  import opened Stepper
  import opened UserGate

  const CHECKS := 15

  // ---- What each routine does -------------------------------------------------------

  /** A whole move of n steps, coils off at the end. */
  function MovedOff(g: Gate, n: nat, dir: int): Gate {
    g.(step := (g.rotor.pos + n * dir) % 8, rotor := Drive(Turned(g.rotor, n, dir), OFF))
  }

  /** gate_open and gate_close: nothing on a gate that is there already, else a full move. */
  function Reached(g: Gate, target: GateState): Gate {
    if g.state == target then g else MovedOff(g, GATE_STEPS, DirTo(target)).(state := target)
  }

  /** The first check that answers yes, or CHECKS. */
  function FirstYes(answers: seq<bool>, n: nat): (k: nat)
    requires n <= |answers|
    ensures n <= k <= |answers|
    ensures forall j :: n <= j < k ==> !answers[j]
    ensures k < |answers| ==> answers[k]
    decreases |answers| - n
  {
    if n == |answers| || answers[n] then n else FirstYes(answers, n + 1)
  }

  /** A close stopped after n steps and turned back: the gate is where it was, coils off. */
  function TurnedBack(g: Gate, n: nat): Gate {
    g.(step := g.rotor.pos % 8, rotor := Drive(Turned(Turned(g.rotor, n, -1), n, 1), OFF))
  }

  /** gate_close_interruptible, with the answers the caller's check gives. */
  function ClosedUnless(g: Gate, answers: seq<bool>): Gate
    requires |answers| == CHECKS
  {
    var k := FirstYes(answers, 0);
    if g.state == Closed then g
    else if k < CHECKS then TurnedBack(g, BATCH * (k + 1))
    else Reached(g, Closed)
  }

  predicate Steady(g: Gate) { InPhase(g.rotor, g.step) && g.rotor.lo <= g.rotor.pos <= g.rotor.hi }

  /** The gate n steps into a move that began with it as g. */
  function Partly(g: Gate, n: nat, dir: int): Gate {
    g.(step := (g.rotor.pos + n * dir) % 8, rotor := Turned(g.rotor, n, dir))
  }

  lemma OneStepOn(g: Gate, n: nat, dir: int)
    requires Steady(g) && (dir == 1 || dir == -1)
    ensures 0 <= Partly(g, n, dir).step < 8 && Turn(Partly(g, n, dir), dir) == Partly(g, n + 1, dir)
    ensures InPhase(Partly(g, n, dir).rotor, Partly(g, n, dir).step)
  {
    TurnedExtends(g.rotor, n, dir);
  }

  lemma PartlyIsSteady(g: Gate, n: nat, dir: int)
    requires Steady(g) && (dir == 1 || dir == -1)
    ensures Steady(Partly(g, n, dir)) && Partly(g, 0, dir) == g
  {
    OneStepOn(g, n, dir);
  }

  /** Two moves in one direction are one move. */
  lemma MovesAdd(g: Gate, n: nat, m: nat, dir: int)
    requires Steady(g) && (dir == 1 || dir == -1)
    ensures Partly(Partly(g, n, dir), m, dir) == Partly(g, n + m, dir)
  {
    assert (n + m) * dir == n * dir + m * dir;
  }

  /** An interrupted close leaves a gate that is steady, at the same place and phase, with
      the coils off, having gone back 64 steps for each check up to the first yes; a close
      that goes through leaves it a full move further back. */
  lemma CloseLeaves(g: Gate, answers: seq<bool>)
    requires |answers| == CHECKS && Steady(g) && g.state == Open
    ensures var g' := ClosedUnless(g, answers);
            && Steady(g') && g'.rotor.coils == OFF
            && (true in answers ==> g'.state == Open && g'.rotor.pos == g.rotor.pos)
            && (true !in answers ==> g'.state == Closed && g'.rotor.pos == g.rotor.pos - GATE_STEPS)
            && (forall k :: 0 <= k < 15 && answers[k] && (forall j :: 0 <= j < k ==> !answers[j]) ==>
                  g'.rotor.lo == if g.rotor.lo < g.rotor.pos - 64 * (k + 1) then g.rotor.lo else g.rotor.pos - 64 * (k + 1))
            && g'.rotor.hi == g.rotor.hi
  {
    var k := FirstYes(answers, 0);
    var n := if k < CHECKS then BATCH * (k + 1) else GATE_STEPS;
    PartlyIsSteady(g, n, -1);
    var m := Partly(g, n, -1);
    OffKeepsPhase(m.rotor, m.step);
    if k < CHECKS {
      PartlyIsSteady(m, n, 1);
      OffKeepsPhase(Partly(m, n, 1).rotor, Partly(m, n, 1).step);
    }
  }

  /** gate_open leaves an open gate as it is; otherwise the gate is OPEN afterwards, 1024
      steps further, in phase, with the coils off.  From a closed gate at 0 that is 1024. */
  lemma OpenLeaves(g: Gate)
    requires Steady(g)
    ensures var g' := Reached(g, Open);
            && Steady(g')
            && (g.state == Open ==> g' == g)
            && (g.state == Closed ==> g'.state == Open && g'.rotor.pos == g.rotor.pos + 1024 && g'.rotor.coils == OFF && g'.rotor.slips == 0)
  {
    PartlyIsSteady(g, GATE_STEPS, 1);
    var m := Partly(g, GATE_STEPS, 1);
    OffKeepsPhase(m.rotor, m.step);
  }

  /** And gate_close the other way. */
  lemma ShutLeaves(g: Gate)
    requires Steady(g)
    ensures var g' := Reached(g, Closed);
            && Steady(g')
            && (g.state == Closed ==> g' == g)
            && (g.state == Open ==> g'.state == Closed && g'.rotor.pos == g.rotor.pos - 1024 && g'.rotor.coils == OFF && g'.rotor.slips == 0)
  {
    PartlyIsSteady(g, GATE_STEPS, -1);
    var m := Partly(g, GATE_STEPS, -1);
    OffKeepsPhase(m.rotor, m.step);
  }

  // ---- The steps of UserGate with nobody in between ---------------------------------

  /** The check that comes after this many steps. */
  function Answer(c: Closer, answers: seq<bool>): bool {
    c.InClose? && c.closePc.Asking? && 0 < c.closePc.done / BATCH <= |answers| && answers[c.closePc.done / BATCH - 1]
  }

  function LockedLeft(pc: LockedPc): nat {
    match pc
    case WantLock => GATE_STEPS + 6
    case Testing => GATE_STEPS + 5
    case Moving(done) => if done <= GATE_STEPS then GATE_STEPS - done + 4 else 4
    case PowerOff => 3
    case Storing => 2
    case Unlocking => 1
  }

  function CloseLeft(pc: ClosePc): nat {
    match pc
    case Locking => 4 * GATE_STEPS + 9
    case Looking => 4 * GATE_STEPS + 8
    case Releasing(_) => 4 * GATE_STEPS + 7
    case Turning(done) => if done < GATE_STEPS then 2 * (GATE_STEPS - done) + GATE_STEPS + 6 else GATE_STEPS + 6
    case Asking(done) => if done < GATE_STEPS then 2 * (GATE_STEPS - done) + GATE_STEPS + 7 else done + 5
    case TurningBack(left) => left + 2
    case OffAfterBack => 1
    case OffAtEnd => 5
    case LockingAgain => 4
    case StoringClosed => 3
    case ReleasingAgain => 2
  }

  function CloserLeft(c: Closer): nat {
    match c
    case Away => 0
    case InLocked(_, pc) => LockedLeft(pc)
    case InClose(pc) => CloseLeft(pc)
  }

  /** The closer need not wait: whenever it is about to lock the mutex, nobody has it. */
  predicate Unhindered(g: Gate) {
    && 0 <= g.step < 8
    && match g.closer
       case Away => true
       case InLocked(_, pc) => pc.WantLock? ==> g.mutex == Nobody
       case InClose(pc) =>
         && (pc.Locking? || pc.Turning? || pc.Asking? || pc.OffAtEnd? || pc.LockingAgain? ==> g.mutex == Nobody)
         && (pc.Asking? || pc.Turning? ==> pc.done < GATE_STEPS)
  }

  function Going(g: Gate, answers: seq<bool>): Gate
    requires 0 <= g.step < 8
  {
    Step(g, CloserGoes(Answer(g.closer, answers)))
  }

  lemma GoingOnLocked(g: Gate, answers: seq<bool>)
    requires Unhindered(g) && g.closer.InLocked?
    ensures Unhindered(Going(g, answers)) && CloserLeft(Going(g, answers).closer) < CloserLeft(g.closer)
  {
    hide Drive, HalfStep, Answer, CloseStep;
  }

  lemma TurnKeepsThreads(g: Gate, dir: int)
    requires 0 <= g.step < 8 && -1 <= dir <= 1
    ensures var g' := Turn(g, dir); 0 <= g'.step < 8 && g' == g.(step := g'.step, rotor := g'.rotor)
  {
    hide Drive, HalfStep;
  }

  lemma GoingOnClose(g: Gate, answers: seq<bool>)
    requires Unhindered(g) && g.closer.InClose?
    ensures Unhindered(Going(g, answers)) && CloserLeft(Going(g, answers).closer) < CloserLeft(g.closer)
  {
    hide Drive, HalfStep, Answer, LockedStep, Turn;
    TurnKeepsThreads(g, 1);
    TurnKeepsThreads(g, -1);
  }

  lemma GoingOn(g: Gate, answers: seq<bool>)
    requires Unhindered(g) && g.closer != Away
    ensures Unhindered(Going(g, answers)) && CloserLeft(Going(g, answers).closer) < CloserLeft(g.closer)
  {
    hide Unhindered, CloserLeft, Step;
    if g.closer.InLocked? {
      GoingOnLocked(g, answers);
    } else {
      GoingOnClose(g, answers);
    }
  }

  /** The closer's call from here to its return, with no step of another thread. */
  function Alone(g: Gate, answers: seq<bool>): Gate
    requires Unhindered(g)
    decreases CloserLeft(g.closer)
  {
    if g.closer == Away then g
    else
      GoingOn(g, answers);
      Alone(Going(g, answers), answers)
  }

  lemma NextAlone(g: Gate, answers: seq<bool>, g': Gate)
    requires Unhindered(g) && g.closer != Away && Going(g, answers) == g'
    ensures Unhindered(g') && Alone(g, answers) == Alone(g', answers)
  {
    hide Going, Unhindered, CloserLeft;
    GoingOn(g, answers);
  }

  lemma ReturnedAlone(g: Gate, answers: seq<bool>)
    requires Unhindered(g) && g.closer == Away
    ensures Alone(g, answers) == g
  {
  }

  predicate Free(g: Gate) { g.mutex == Nobody && g.closer == Away && Steady(g) }

  function At(g: Gate, pc: ClosePc): Gate { g.(closer := InClose(pc)) }

  function AtLocked(g: Gate, target: GateState, pc: LockedPc): Gate { g.(mutex := CloserOwns, closer := InLocked(target, pc)) }

  lemma {:induction false} MovingAlone(g: Gate, target: GateState, n: nat, answers: seq<bool>)
    requires Free(g) && n <= GATE_STEPS
    ensures Unhindered(AtLocked(Partly(g, n, DirTo(target)), target, Moving(n)))
    ensures Alone(AtLocked(Partly(g, n, DirTo(target)), target, Moving(n)), answers)
            == Alone(AtLocked(MovedOff(g, GATE_STEPS, DirTo(target)), target, Storing), answers)
    decreases GATE_STEPS - n
  {
    hide Alone, Turn, Turned, Drive;
    var dir := DirTo(target);
    var here := AtLocked(Partly(g, n, dir), target, Moving(n));
    OneStepOn(g, n, dir);
    if n < GATE_STEPS {
      TurnIgnoresThreads(Partly(g, n, dir), here, dir);
      NextAlone(here, answers, AtLocked(Partly(g, n + 1, dir), target, Moving(n + 1)));
      MovingAlone(g, target, n + 1, answers);
    } else {
      var off := AtLocked(Partly(g, n, dir), target, PowerOff);
      NextAlone(here, answers, off);
      NextAlone(off, answers, AtLocked(MovedOff(g, GATE_STEPS, dir), target, Storing));
    }
  }

  lemma TurnIgnoresThreads(g: Gate, h: Gate, dir: int)
    requires 0 <= g.step < 8 && -1 <= dir <= 1 && h == g.(mutex := h.mutex, closer := h.closer)
    ensures Turn(h, dir) == Turn(g, dir).(mutex := h.mutex, closer := h.closer)
  {
  }

  /** gate_open and gate_close, step by step, are one change. */
  lemma LockedAlone(g: Gate, target: GateState, answers: seq<bool>)
    requires Free(g)
    ensures Unhindered(Step(g, CloserCalls(target)))
    ensures Alone(Step(g, CloserCalls(target)), answers) == Reached(g, target)
  {
    hide Alone, Turn, Turned, Drive;
    var g0 := Step(g, CloserCalls(target));
    var g1 := AtLocked(g, target, Testing);
    NextAlone(g0, answers, g1);
    var last: Gate;
    if g.state == target {
      last := AtLocked(g, target, Unlocking);
      NextAlone(g1, answers, last);
    } else {
      PartlyIsSteady(g, 0, DirTo(target));
      var g2 := AtLocked(g, target, Moving(0));
      NextAlone(g1, answers, g2);
      MovingAlone(g, target, 0, answers);
      var g3 := AtLocked(MovedOff(g, GATE_STEPS, DirTo(target)), target, Storing);
      last := AtLocked(Reached(g, target), target, Unlocking);
      NextAlone(g3, answers, last);
    }
    NextAlone(last, answers, Reached(g, target));
    ReturnedAlone(Reached(g, target), answers);
  }

  lemma {:induction false} TurningBackAlone(g: Gate, n: nat, left: nat, answers: seq<bool>)
    requires Free(g) && left <= n
    ensures var m := Partly(g, n, -1);
            var here := At(Partly(m, n - left, 1), TurningBack(left));
            && Unhindered(here)
            && Alone(here, answers) == TurnedBack(g, n)
    decreases left
  {
    hide Alone, Turn, Turned, Drive;
    var m := Partly(g, n, -1);
    PartlyIsSteady(g, n, -1);
    OneStepOn(m, n - left, 1);
    var there := Partly(m, n - left, 1);
    var here := At(there, TurningBack(left));
    if left > 0 {
      TurnIgnoresThreads(there, here, 1);
      NextAlone(here, answers, At(Partly(m, n - left + 1, 1), TurningBack(left - 1)));
      TurningBackAlone(g, n, left - 1, answers);
    } else {
      var off := At(there, OffAfterBack);
      NextAlone(here, answers, off);
      assert (m.rotor.pos + n * 1) % 8 == g.rotor.pos % 8 by { WhereItTurned(g.rotor, n); }
      NextAlone(off, answers, TurnedBack(g, n));
      ReturnedAlone(TurnedBack(g, n), answers);
    }
  }

  lemma WhereItTurned(r: Rotor, n: nat)
    ensures Turned(r, n, -1).pos == r.pos - n
  {
  }

  /** n steps into a close no check has stopped so far. */
  lemma {:induction false} TurningAlone(g: Gate, n: nat, answers: seq<bool>)
    requires Free(g) && g.state == Open && n < GATE_STEPS && |answers| == CHECKS
    requires n / BATCH <= FirstYes(answers, 0)
    ensures Unhindered(At(Partly(g, n, -1), Turning(n)))
    ensures Alone(At(Partly(g, n, -1), Turning(n)), answers) == ClosedUnless(g, answers)
    decreases GATE_STEPS - n
  {
    hide Alone, Turn, Turned, Drive;
    var here := At(Partly(g, n, -1), Turning(n));
    OneStepOn(g, n, -1);
    TurnIgnoresThreads(Partly(g, n, -1), here, -1);
    var further := Partly(g, n + 1, -1);
    NextAlone(here, answers, At(further, AfterTurn(n + 1)));
    if n + 1 == GATE_STEPS {
      EndAlone(g, answers);
    } else if (n + 1) % BATCH == 0 {
      var k := (n + 1) / BATCH - 1;
      var asking := At(further, Asking(n + 1));
      assert k == n / BATCH && k < CHECKS;
      assert answers[k] <==> k == FirstYes(answers, 0);
      if answers[k] {
        PartlyIsSteady(further, 0, 1) by { PartlyIsSteady(g, n + 1, -1); }
        assert n + 1 == BATCH * (k + 1);
        NextAlone(asking, answers, At(further, TurningBack(n + 1)));
        TurningBackAlone(g, n + 1, n + 1, answers);
      } else {
        NextAlone(asking, answers, At(further, Turning(n + 1)));
        TurningAlone(g, n + 1, answers);
      }
    } else {
      assert (n + 1) / BATCH == n / BATCH;
      TurningAlone(g, n + 1, answers);
    }
  }

  lemma EndAlone(g: Gate, answers: seq<bool>)
    requires Free(g) && g.state == Open && |answers| == CHECKS && FirstYes(answers, 0) == CHECKS
    requires Unhindered(At(Partly(g, GATE_STEPS, -1), OffAtEnd))
    ensures Alone(At(Partly(g, GATE_STEPS, -1), OffAtEnd), answers) == ClosedUnless(g, answers)
  {
    hide Alone, Turn, Turned, Drive;
    var g0 := At(Partly(g, GATE_STEPS, -1), OffAtEnd);
    var off := MovedOff(g, GATE_STEPS, -1);
    NextAlone(g0, answers, At(off, LockingAgain));
    var g2 := At(off, StoringClosed).(mutex := CloserOwns);
    NextAlone(At(off, LockingAgain), answers, g2);
    var g3 := At(off, ReleasingAgain).(mutex := CloserOwns, state := Closed);
    NextAlone(g2, answers, g3);
    NextAlone(g3, answers, Reached(g, Closed));
    ReturnedAlone(Reached(g, Closed), answers);
  }

  /** gate_close_interruptible, step by step, is one change. */
  lemma CloseAlone(g: Gate, answers: seq<bool>)
    requires Free(g) && |answers| == CHECKS
    ensures Unhindered(Step(g, CloserCallsInterruptible))
    ensures Alone(Step(g, CloserCallsInterruptible), answers) == ClosedUnless(g, answers)
  {
    hide Alone, Turn, Turned, Drive;
    var g0 := At(g, Locking);
    var g1 := At(g, Looking).(mutex := CloserOwns);
    NextAlone(g0, answers, g1);
    var g2 := At(g, Releasing(g.state != Closed)).(mutex := CloserOwns);
    NextAlone(g1, answers, g2);
    if g.state == Closed {
      NextAlone(g2, answers, g);
      ReturnedAlone(g, answers);
    } else {
      PartlyIsSteady(g, 0, -1);
      NextAlone(g2, answers, At(g, Turning(0)));
      TurningAlone(g, 0, answers);
    }
  }

  // ---- The routines -----------------------------------------------------------------

  class Controller {
    var currentState: GateState
    var currentStep: int
    var pins: Coils
    ghost var rotor: Rotor

    ghost predicate Valid()
      reads this
    {
      Steady(View()) && rotor.coils == pins
    }

    /** The controller with no call in progress. */
    ghost function View(): Gate
      reads this
    {
      Gate(currentState, Nobody, currentStep, rotor, Away, map[])
    }

    constructor ()
      ensures Valid() && View() == READY
    {
      currentState, currentStep, pins, rotor := Closed, 0, OFF, RESTING;
    }

    method SetPins(c: Coils)
      modifies `pins, `rotor
      ensures pins == c && rotor == Drive(old(rotor), c)
    {
      pins := c;
      rotor := Drive(rotor, c);
    }

    /** stepper_move: forward for a positive number of steps, else backward. */
    method StepperMove(steps: int)
      requires Valid()
      modifies `currentStep, `pins, `rotor
      ensures Valid()
      ensures View() == if steps > 0 then Partly(old(View()), steps, 1) else Partly(old(View()), -steps, -1)
    {
      hide Drive, Turned, HalfStep;
      var direction := if steps > 0 then 1 else -1;
      var absSteps := if steps > 0 then steps else -steps;
      ghost var g := View();
      PartlyIsSteady(g, 0, direction);
      for i := 0 to absSteps
        invariant Valid()
        invariant View() == Partly(g, i, direction)
      {
        OneStepOn(g, i, direction);
        PartlyIsSteady(g, i + 1, direction);
        PinsShow(rotor, HalfStep(NextPhase(currentStep, direction)));
        currentStep := (currentStep + direction + 8) % 8;
        SetPins(HalfStep(currentStep));
      }
    }

    method Deenergize()
      requires Valid()
      modifies `pins, `rotor
      ensures Valid() && rotor == Drive(old(rotor), OFF)
    {
      SetPins(OFF);
    }

    method GateOpen()
      requires Valid()
      modifies this
      ensures Valid() && View() == Reached(old(View()), Open)
      ensures currentState == Open
      ensures old(currentState) == Closed ==> rotor.pos == old(rotor.pos) + 1024 && pins == OFF
    {
      OpenLeaves(View());
      if currentState == Open {
        return;
      }
      StepperMove(GATE_STEPS);
      Deenergize();
      currentState := Open;
    }

    method GateClose()
      requires Valid()
      modifies this
      ensures Valid() && View() == Reached(old(View()), Closed)
      ensures currentState == Closed
      ensures old(currentState) == Open ==> rotor.pos == old(rotor.pos) - 1024 && pins == OFF
    {
      ShutLeaves(View());
      if currentState == Closed {
        return;
      }
      StepperMove(-GATE_STEPS);
      Deenergize();
      currentState := Closed;
    }

    /** The batches of 64 with the caller's check between them; -1 when it stopped the move.
        A caller without a check is one whose check always says no. */
    method GateCloseInterruptible(answers: seq<bool>) returns (r: int)
      requires Valid() && |answers| == CHECKS
      modifies this
      ensures Valid()
      ensures View() == ClosedUnless(old(View()), answers)
      ensures r == if old(currentState) == Open && true in answers then -1 else 0
    {
      hide Drive, Turned;
      if currentState == Closed {
        return 0;
      }
      ghost var g := View();
      PartlyIsSteady(g, 0, -1);
      var done := 0;
      while done < GATE_STEPS
        invariant 0 <= done <= GATE_STEPS && done % BATCH == 0
        invariant Valid() && View() == Partly(g, done, -1)
        invariant done < GATE_STEPS ==> done / BATCH <= FirstYes(answers, 0)
        invariant done == GATE_STEPS ==> FirstYes(answers, 0) == CHECKS
      {
        var steps := GATE_STEPS - done;
        if steps > BATCH {
          steps := BATCH;
        }
        MovesAdd(g, done, steps, -1);
        StepperMove(-steps);
        done := done + steps;
        if done < GATE_STEPS && answers[done / BATCH - 1] {
          assert FirstYes(answers, 0) == done / BATCH - 1;
          StepperMove(done);
          Deenergize();
          WhereItTurned(g.rotor, done);
          return -1;
        }
      }
      Deenergize();
      currentState := Closed;
      return 0;
    }
  }

  lemma PinsShow(r: Rotor, c: Coils)
    ensures Drive(r, c).coils == c
  {
  }
}
