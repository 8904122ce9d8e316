/** The user-space gate controller of RPI2: one mutex, one stepper, one thread that may
    open, close and close interruptibly, and any number of threads that may open.  The
    interruptible close turns the motor without holding the mutex. */
module UserGate {
  import opened Stepper

  const GATE_STEPS := 1024
  const BATCH := 64

  datatype GateState = Open | Closed

  /** Inside gate_open or gate_close: waiting for the mutex, testing the state under it,
      turning the motor, switching the coils off, storing the state, unlocking. */
  datatype LockedPc = WantLock | Testing | Moving(done: nat) | PowerOff | Storing | Unlocking

  /** Inside gate_close_interruptible. */
  datatype ClosePc =
    | Locking
    | Looking
    | Releasing(goOn: bool)
    | Turning(done: nat)
    | Asking(done: nat)
    | TurningBack(left: nat)
    | OffAfterBack
    | OffAtEnd
    | LockingAgain
    | StoringClosed
    | ReleasingAgain

  datatype Closer = Away | InLocked(target: GateState, lockedPc: LockedPc) | InClose(closePc: ClosePc)

  datatype Owner = Nobody | CloserOwns | OpenerOwns(id: nat)

  datatype Gate = Gate(state: GateState, mutex: Owner, step: int, rotor: Rotor, closer: Closer, openers: map<nat, LockedPc>)

  const READY: Gate := Gate(Closed, Nobody, 0, RESTING, Away, map[])

  datatype Action =
    | OpenerCalls(id: nat)
    | OpenerGoes(id: nat)
    | CloserCalls(target: GateState)
    | CloserCallsInterruptible
    | CloserGoes(detected: bool)

  function Other(s: GateState): GateState { if s == Open then Closed else Open }

  function Turn(g: Gate, dir: int): Gate
    requires 0 <= g.step < 8 && -1 <= dir <= 1
  {
    var step := NextPhase(g.step, dir);
    g.(step := step, rotor := Drive(g.rotor, HalfStep(step)))
  }

  function Off(g: Gate): Gate { g.(rotor := Drive(g.rotor, OFF)) }

  function DirTo(target: GateState): int { if target == Open then 1 else -1 }

  /** One step inside gate_open or gate_close by thread `me`: the gate and, unless the
      routine has returned, where the thread is next.  Waiting for a mutex somebody else
      holds is a step that changes nothing. */
  function LockedStep(g: Gate, me: Owner, target: GateState, pc: LockedPc): (Gate, LockedPc, bool)
    requires 0 <= g.step < 8
  {
    match pc
    case WantLock => if g.mutex == Nobody then (g.(mutex := me), Testing, false) else (g, pc, false)
    case Testing => (g, if g.state == target then Unlocking else Moving(0), false)
    case Moving(done) => if done < GATE_STEPS then (Turn(g, DirTo(target)), Moving(done + 1), false) else (g, PowerOff, false)
    case PowerOff => (Off(g), Storing, false)
    case Storing => (g.(state := target), Unlocking, false)
    case Unlocking => (g.(mutex := Nobody), pc, true)
  }

  /** Turning goes on until a batch of 64 is done; then the caller's check is asked, but
      not after the last batch. */
  function AfterTurn(done: nat): ClosePc {
    if done >= GATE_STEPS then OffAtEnd
    else if done % BATCH == 0 then Asking(done)
    else Turning(done)
  }

  function CloseStep(g: Gate, pc: ClosePc, detected: bool): (Gate, ClosePc, bool)
    requires 0 <= g.step < 8
  {
    match pc
    case Locking => if g.mutex == Nobody then (g.(mutex := CloserOwns), Looking, false) else (g, pc, false)
    case Looking => (g, Releasing(g.state != Closed), false)
    case Releasing(goOn) => (g.(mutex := Nobody), Turning(0), !goOn)
    case Turning(done) => (Turn(g, -1), AfterTurn(done + 1), false)
    case Asking(done) => (g, if detected then TurningBack(done) else Turning(done), false)
    case TurningBack(left) =>
      if left > 0 then (Turn(g, 1), TurningBack(left - 1), false) else (g, OffAfterBack, false)
    case OffAfterBack => (Off(g), pc, true)
    case OffAtEnd => (Off(g), LockingAgain, false)
    case LockingAgain => if g.mutex == Nobody then (g.(mutex := CloserOwns), StoringClosed, false) else (g, pc, false)
    case StoringClosed => (g.(state := Closed), ReleasingAgain, false)
    case ReleasingAgain => (g.(mutex := Nobody), pc, true)
  }

  function Step(g: Gate, a: Action): Gate
    requires 0 <= g.step < 8
  {
    match a
    case OpenerCalls(id) => if id in g.openers then g else g.(openers := g.openers[id := WantLock])
    case OpenerGoes(id) =>
      if id !in g.openers then g
      else
        var r := LockedStep(g, OpenerOwns(id), Open, g.openers[id]);
        r.0.(openers := if r.2 then g.openers - {id} else g.openers[id := r.1])
    case CloserCalls(target) => if g.closer == Away then g.(closer := InLocked(target, WantLock)) else g
    case CloserCallsInterruptible => if g.closer == Away then g.(closer := InClose(Locking)) else g
    case CloserGoes(detected) =>
      match g.closer
      case Away => g
      case InLocked(target, pc) =>
        var r := LockedStep(g, CloserOwns, target, pc);
        r.0.(closer := if r.2 then Away else InLocked(target, r.1))
      case InClose(pc) =>
        var r := CloseStep(g, pc, detected);
        r.0.(closer := if r.2 then Away else InClose(r.1))
  }

  // ---- Who drives the motor ---------------------------------------------------------

  predicate LockedDrives(pc: LockedPc) { pc.Moving? || pc.PowerOff? }

  predicate CloseDrives(pc: ClosePc) { pc.Turning? || pc.Asking? || pc.TurningBack? || pc.OffAfterBack? || pc.OffAtEnd? }

  /** The motion region: from the test that decides to move up to the store of the state. */
  predicate LockedRegion(pc: LockedPc) { pc.Moving? || pc.PowerOff? || pc.Storing? }

  predicate CloseRegion(pc: ClosePc) { CloseDrives(pc) || pc.LockingAgain? || pc.StoringClosed? || (pc.Releasing? && pc.goOn) }

  predicate OpenerDrives(g: Gate, id: nat) { id in g.openers && LockedDrives(g.openers[id]) }

  predicate CloserDrives(g: Gate) {
    match g.closer
    case Away => false
    case InLocked(_, pc) => LockedDrives(pc)
    case InClose(pc) => CloseDrives(pc)
  }

  predicate CloserRegion(g: Gate) {
    match g.closer
    case Away => false
    case InLocked(_, pc) => LockedRegion(pc)
    case InClose(pc) => CloseRegion(pc)
  }

  // ---- The invariant ----------------------------------------------------------------

  function Rest(s: GateState): int { if s == Open then GATE_STEPS else 0 }

  /** Where the gate is while a thread is in the region of a move to `target`. */
  function LockedPosition(target: GateState, pc: LockedPc): int {
    if pc.Moving? then Rest(Other(target)) + DirTo(target) * pc.done else Rest(target)
  }

  function ClosePosition(pc: ClosePc): int {
    match pc
    case Turning(done) => GATE_STEPS - done
    case Asking(done) => GATE_STEPS - done
    case TurningBack(left) => GATE_STEPS - left
    case OffAfterBack | Releasing(_) => GATE_STEPS
    case _ => 0
  }

  ghost predicate OpenerOk(g: Gate, id: nat)
    requires id in g.openers
  {
    var pc := g.openers[id];
    && (!pc.WantLock? ==> g.mutex == OpenerOwns(id))
    && (LockedRegion(pc) ==> g.state == Closed && g.rotor.pos == LockedPosition(Open, pc) && !CloserRegion(g))
    && (pc.Moving? ==> pc.done <= GATE_STEPS)
  }

  ghost predicate CloserOk(g: Gate) {
    match g.closer
    case Away => true
    case InLocked(target, pc) =>
      && (!pc.WantLock? ==> g.mutex == CloserOwns)
      && (LockedRegion(pc) ==> g.state == Other(target) && g.rotor.pos == LockedPosition(target, pc))
      && (pc.Moving? ==> pc.done <= GATE_STEPS)
    case InClose(pc) =>
      && (pc.Looking? || pc.Releasing? || pc.StoringClosed? || pc.ReleasingAgain? ==> g.mutex == CloserOwns)
      && (CloseRegion(pc) ==> g.state == Open && g.rotor.pos == ClosePosition(pc))
      && (pc.Turning? ==> pc.done < GATE_STEPS)
      && (pc.Asking? ==> pc.done < GATE_STEPS)
      && (pc.TurningBack? ==> pc.left < GATE_STEPS)
  }

  /** Nobody is in a motion region. */
  ghost predicate AtRest(g: Gate) {
    !CloserRegion(g) && forall id :: id in g.openers ==> !LockedRegion(g.openers[id])
  }

  ghost predicate Ok(g: Gate) {
    && InPhase(g.rotor, g.step)
    && (forall id :: id in g.openers ==> OpenerOk(g, id))
    && CloserOk(g)
    && (g.mutex.OpenerOwns? ==> g.mutex.id in g.openers && !g.openers[g.mutex.id].WantLock?)
    && (AtRest(g) ==> g.rotor.pos == Rest(g.state))
  }

  lemma InPhaseRange(r: Rotor, phase: int)
    requires InPhase(r, phase)
    ensures 0 <= phase < 8 && phase == r.pos % 8 && r.slips == 0
  {
  }

  lemma OpenerKeeps(g: Gate, id: nat)
    requires Ok(g) && id in g.openers
    ensures Ok(Step(g, OpenerGoes(id)))
  {
    hide Drive, InPhase, HalfStep;
    OffKeepsPhase(g.rotor, g.step);
    InPhaseRange(g.rotor, g.step);
    var pc := g.openers[id];
    if pc.Moving? && pc.done < GATE_STEPS {
      StepTurnsByOne(g.rotor, g.step, 1);
    }
    var g' := Step(g, OpenerGoes(id));
    assert OpenerOk(g, id);
    assert id in g'.openers ==> OpenerOk(g', id);
    OtherOpeners(g, id);
  }

  /** What one opener's step leaves of the others: they hold nothing it changes. */
  lemma OtherOpeners(g: Gate, id: nat)
    requires Ok(g) && id in g.openers
    ensures var g' := Step(g, OpenerGoes(id));
            && (forall j :: j in g'.openers && j != id ==> OpenerOk(g', j))
            && (AtRest(g') && !LockedRegion(g.openers[id]) ==> AtRest(g))
  {
    hide Drive, InPhase, HalfStep;
    InPhaseRange(g.rotor, g.step);
    var g' := Step(g, OpenerGoes(id));
    assert OpenerOk(g, id);
    forall j | j in g'.openers && j != id ensures OpenerOk(g', j) {
      assert OpenerOk(g, j);
    }
    if AtRest(g') && !LockedRegion(g.openers[id]) {
      forall j | j in g.openers ensures !LockedRegion(g.openers[j]) {
        assert j != id ==> j in g'.openers && g'.openers[j] == g.openers[j];
      }
    }
  }

  lemma CloserLockedKeeps(g: Gate, detected: bool)
    requires Ok(g) && g.closer.InLocked?
    ensures Ok(Step(g, CloserGoes(detected)))
  {
    hide Drive, InPhase, HalfStep;
    OffKeepsPhase(g.rotor, g.step);
    InPhaseRange(g.rotor, g.step);
    var pc := g.closer.lockedPc;
    if pc.Moving? && pc.done < GATE_STEPS {
      StepTurnsByOne(g.rotor, g.step, DirTo(g.closer.target));
    }
    var g' := Step(g, CloserGoes(detected));
    forall j | j in g'.openers ensures OpenerOk(g', j) {
      assert OpenerOk(g, j);
    }
    if AtRest(g') && !LockedRegion(pc) {
      assert AtRest(g);
    }
  }

  /** A step of the interruptible close takes nothing from the openers. */
  lemma OpenersDuringClose(g: Gate, detected: bool)
    requires Ok(g) && g.closer.InClose?
    ensures forall j :: j in Step(g, CloserGoes(detected)).openers ==> OpenerOk(Step(g, CloserGoes(detected)), j)
    ensures g.mutex == CloserOwns ==> forall j :: j in g.openers ==> !LockedRegion(g.openers[j])
  {
    hide Drive, InPhase, HalfStep;
    InPhaseRange(g.rotor, g.step);
    var g' := Step(g, CloserGoes(detected));
    forall j | j in g.openers ensures g.mutex == CloserOwns ==> !LockedRegion(g.openers[j]) {
      assert OpenerOk(g, j);
    }
    forall j | j in g'.openers ensures OpenerOk(g', j) {
      assert OpenerOk(g, j);
    }
  }

  lemma CloserCloseKeeps(g: Gate, detected: bool)
    requires Ok(g) && g.closer.InClose?
    ensures Ok(Step(g, CloserGoes(detected)))
  {
    hide Drive, InPhase, HalfStep, OpenerOk;
    OffKeepsPhase(g.rotor, g.step);
    InPhaseRange(g.rotor, g.step);
    var pc := g.closer.closePc;
    if pc.Turning? {
      StepTurnsByOne(g.rotor, g.step, -1);
    } else if pc.TurningBack? && pc.left > 0 {
      StepTurnsByOne(g.rotor, g.step, 1);
    }
    var g' := Step(g, CloserGoes(detected));
    OpenersDuringClose(g, detected);
    if AtRest(g') && !CloseRegion(pc) {
      assert AtRest(g);
    }
  }

  lemma CallsKeep(g: Gate, a: Action)
    requires Ok(g) && !a.OpenerGoes? && !a.CloserGoes?
    ensures Ok(Step(g, a))
  {
    var g' := Step(g, a);
    forall j | j in g'.openers ensures OpenerOk(g', j) {
      if j in g.openers {
        assert OpenerOk(g, j);
      }
    }
    if AtRest(g') {
      assert AtRest(g) by {
        forall j | j in g.openers ensures !LockedRegion(g.openers[j]) {
          assert j in g'.openers && g'.openers[j] == g.openers[j];
        }
      }
    }
  }

  lemma StepKeeps(g: Gate, a: Action)
    requires Ok(g)
    ensures Ok(Step(g, a))
  {
    match a {
      case OpenerGoes(id) => if id in g.openers { OpenerKeeps(g, id); }
      case CloserGoes(detected) =>
        match g.closer {
          case Away =>
          case InLocked(_, _) => CloserLockedKeeps(g, detected);
          case InClose(_) => CloserCloseKeeps(g, detected);
        }
      case _ => CallsKeep(g, a);
    }
  }

  lemma StepInRange(g: Gate, a: Action)
    requires 0 <= g.step < 8
    ensures 0 <= Step(g, a).step < 8
  {
    hide Drive, HalfStep;
  }

  /** The gate after any interleaving. */
  function Run(acts: seq<Action>): (g: Gate)
    ensures 0 <= g.step < 8
  {
    if acts == [] then READY
    else
      var before := Run(acts[..|acts| - 1]);
      StepInRange(before, acts[|acts| - 1]);
      Step(before, acts[|acts| - 1])
  }

  /** Every state of every interleaving satisfies the invariant. */
  lemma {:induction false} RunKeeps(acts: seq<Action>)
    ensures Ok(Run(acts))
  {
    hide Step;
    if acts != [] {
      hide Ok;
      RunKeeps(acts[..|acts| - 1]);
      StepKeeps(Run(acts[..|acts| - 1]), acts[|acts| - 1]);
    }
  }

  /** Motor exclusion, with one closer and any number of openers: two threads never drive
      the stepper at once, although the interruptible close drives it unlocked; the gate
      never leaves 0..1024 and the rotor never slips; and outside every motion region
      the gate is OPEN exactly at position 1024 and CLOSED exactly at 0. */
  lemma {:induction false} MotorExclusion(acts: seq<Action>)
    ensures var g := Run(acts);
            && (forall a, b :: OpenerDrives(g, a) && OpenerDrives(g, b) ==> a == b)
            && (forall a :: OpenerDrives(g, a) ==> !CloserDrives(g))
            && 0 <= g.rotor.pos <= 1024 && g.rotor.slips == 0 && g.step == g.rotor.pos % 8
            && (AtRest(g) ==> (g.state == Open <==> g.rotor.pos == 1024) && (g.state == Closed <==> g.rotor.pos == 0))
  {
    hide Run, Ok;
    RunKeeps(acts);
    OneDriver(Run(acts));
    StaysInRange(Run(acts));
  }

  lemma OneDriver(g: Gate)
    requires Ok(g)
    ensures forall a, b :: OpenerDrives(g, a) && OpenerDrives(g, b) ==> a == b
    ensures forall a :: OpenerDrives(g, a) ==> !CloserDrives(g)
  {
    hide InPhase;
    forall a | OpenerDrives(g, a) ensures g.mutex == OpenerOwns(a) && !CloserDrives(g) {
      assert OpenerOk(g, a);
    }
  }

  lemma StaysInRange(g: Gate)
    requires Ok(g)
    ensures 0 <= g.rotor.pos <= GATE_STEPS && g.rotor.slips == 0 && g.step == g.rotor.pos % 8
    ensures AtRest(g) ==> g.rotor.pos == Rest(g.state)
  {
    hide InPhase;
    InPhaseRange(g.rotor, g.step);
    if !AtRest(g) && !CloserRegion(g) {
      var id :| id in g.openers && LockedRegion(g.openers[id]);
      assert OpenerOk(g, id);
    }
  }

  /** While a thread is in a region, the state it found stays: the interruptible close
      works on an OPEN gate throughout, which is what keeps openers out. */
  lemma {:induction false} StateStaysDuringMoves(acts: seq<Action>)
    ensures var g := Run(acts);
            && (g.closer.InClose? && CloseRegion(g.closer.closePc) ==> g.state == Open)
            && (forall id :: id in g.openers && LockedRegion(g.openers[id]) ==> g.state == Closed)
  {
    hide Run;
    RunKeeps(acts);
    var g := Run(acts);
    forall id | id in g.openers && LockedRegion(g.openers[id]) ensures g.state == Closed {
      assert OpenerOk(g, id);
    }
  }
}
