/** One parking slot of the RPI1 driver, cut into the steps other contexts can see.
    Four contexts act on a slot: the measuring timer, the echo interrupt, the button
    interrupt and the single worker of the queue.  Each step below is one spinlock
    section, one atomic access, or one access to a field only its context touches. */
module SlotMachine {
  import opened Options
  import opened Stepper
  import opened LockHistory

  const LOCK_STEPS := 341
  const DEBOUNCE_MS := 300
  const OCCUPIED_THRESHOLD_CM := 5
  const MAX_PULSE_US := 23200
  const NO_DISTANCE := 999
  const NS_PER_US := 1000

  datatype EchoState = EchoIdle | WaitHigh | WaitLow | EchoDone

  /** One run of the echo interrupt that reached the spinlock: the time and the pin
      level it had sampled before. */
  datatype Edge = Edge(time: int, high: bool)

  datatype EchoIsr = EchoQuiet | EchoSampled(edge: Edge)

  /** How far the button interrupt has come. */
  datatype BtnIsr = BtnQuiet | BtnTimed(time: int) | BtnAccepted | BtnSawLocked | BtnStored | BtnCleared

  /** Where a pulse came from: the interrupts before its trigger, its ends. */
  datatype Pulse = Pulse(trigger: nat, start: int, stop: int)

  /** Where sensor_work_func is: the name says what it does next.  The trigger and the pulse
      it carries are history. */
  datatype SensorPc =
    | Snapshot
    | Judge(start: int, stop: int, trigger: nat)
    | PutDistance(us: int, prev: bool, from: Pulse)
    | PutOccupied(us: int, prev: bool)
    | PutLed(us: int, prev: bool)
    | Notify(occupied: bool, prev: bool)
    | ReadLock(occupied: bool)
    | Think(occupied: bool, seen: LockState)
    | PutLock(seen: LockState, next: LockState)
    | PutPending
    | PutQueue

  /** Where lock_work_func is. */
  datatype LockPc = ReadPending | Turn(doLock: bool, done: nat) | PowerOff(doLock: bool) | Finish(doLock: bool)

  /** What the worker is doing for a slot. */
  datatype Job = NoJob | Measure(sensorPc: SensorPc) | Move(lockPc: LockPc)

  /** The fields of struct sensor_dev by the job they do, each with the history nobody
      reads.  Echo: the measurement, the pending bit of its work item, the interrupt in
      progress; then all interrupts so far and how many there were at each trigger. */
  datatype Echo = Echo(st: EchoState, start: int, stop: int, queued: bool, isr: EchoIsr, edges: seq<Edge>, triggers: seq<nat>)

  /** Interrupts before the last trigger. */
  function LastTrigger(e: Echo): nat { if e.triggers == [] then 0 else e.triggers[|e.triggers| - 1] }

  /** The lock decision: the lock word, the timer fields, the direction flag handed to
      the lock work, its pending bit, the button interrupt in progress; then all readings,
      all presses, and which of those judged so far were accepted. */
  datatype Lock = Lock(st: LockState, start: int, count: nat, pending: bool, queued: bool,
                       btn: BtnIsr, lastBtn: int, readings: seq<Reading>, presses: seq<int>, marks: seq<bool>)

  /** The bolt motor: phase counter and direction; then its rotor and finished moves. */
  datatype Bolt = Bolt(step: int, dir: int, rotor: Rotor, locks: nat, unlocks: nat)

  /** What the slot reports; then the last accepted pulse, in us and where it came from, and
      the occupancy the reader last picked up. */
  datatype Report = Report(occupied: bool, distance: int, led: bool, pulse: Option<int>, from: Pulse, taken: bool)

  datatype Slot = Slot(echo: Echo, lock: Lock, bolt: Bolt, report: Report)

  function InitialSlot(dir: int): Slot {
    Slot(Echo(EchoIdle, 0, 0, false, EchoQuiet, [], []),
         Lock(Free, 0, 0, false, false, BtnQuiet, 0, [], [], []),
         Bolt(0, dir, RESTING, 0, 0),
         Report(false, NO_DISTANCE, false, None, Pulse(0, 0, 0), false))
  }

  function DistanceOf(us: int): int { us / 58 }

  function OccupiedBy(us: int): bool { DistanceOf(us) <= OCCUPIED_THRESHOLD_CM }

  /** The steps of the contexts.  Arm is the timer callback at this slot, Interrupt and
      Commit the two halves of the echo interrupt, Press and Button the entry and the
      further steps of the button interrupt, BeginSensor and BeginLock the worker taking
      a work item, Work its next step in that item, Take the reader picking up the
      occupancy. */
  datatype SlotAct = Arm | Interrupt(high: bool) | Commit | Press | Button | BeginSensor | BeginLock | Work | Take

  /** The slot afterwards, the worker's job there, which work items were appended to the
      queue, and whether status_changed was raised. */
  datatype Outcome = Outcome(slot: Slot, job: Job, addSensor: bool, addLock: bool, raise: bool)

  function Quietly(sl: Slot, job: Job): Outcome { Outcome(sl, job, false, false, false) }

  /** atomic_set of the lock word by a context that relied on it being `expected`.  With
      `swap` it is a compare-and-swap instead. */
  function StoreLock(l: Lock, expected: LockState, next: LockState, swap: bool): Lock {
    if swap && l.st != expected then l else l.(st := next)
  }

  /** queue_work on the lock item: nothing happens when it is already pending. */
  function QueueLock(sl: Slot, job: Job): Outcome {
    if sl.lock.queued then Quietly(sl, job)
    else Outcome(sl.(lock := sl.lock.(queued := true)), job, false, true, false)
  }

  function QueueSensor(sl: Slot, job: Job): Outcome {
    if sl.echo.queued then Quietly(sl, job)
    else Outcome(sl.(echo := sl.echo.(queued := true)), job, true, false, false)
  }

  function WithEcho(sl: Slot, job: Job, e: Echo): Outcome { Quietly(sl.(echo := e), job) }

  function WithLock(sl: Slot, job: Job, l: Lock): Outcome { Quietly(sl.(lock := l), job) }

  function WithReport(sl: Slot, job: Job, r: Report): Outcome { Quietly(sl.(report := r), job) }

  /** The spinlock section of echo_isr. */
  function CommitEdge(sl: Slot, job: Job, edge: Edge): Outcome {
    var e := sl.echo.(isr := EchoQuiet, edges := sl.echo.edges + [edge]);
    if e.st == WaitHigh && edge.high then WithEcho(sl, job, e.(start := edge.time, st := WaitLow))
    else if e.st == WaitLow && !edge.high then QueueSensor(sl.(echo := e.(stop := edge.time, st := EchoDone)), job)
    else WithEcho(sl, job, e)
  }

  function ButtonStep(sl: Slot, job: Job, swap: bool): Outcome {
    var l := sl.lock;
    match l.btn
    case BtnQuiet => Quietly(sl, job)
    case BtnTimed(t) =>
      if (t - l.lastBtn) / NS_PER_MS < DEBOUNCE_MS then WithLock(sl, job, l.(btn := BtnQuiet, marks := l.marks + [false]))
      else WithLock(sl, job, l.(btn := BtnAccepted, lastBtn := t, marks := l.marks + [true]))
    case BtnAccepted => WithLock(sl, job, l.(btn := if l.st == Locked then BtnSawLocked else BtnQuiet))
    case BtnSawLocked => WithLock(sl, job, StoreLock(l, Locked, Unlocking, swap).(btn := BtnStored))
    case BtnStored => WithLock(sl, job, l.(pending := false, btn := BtnCleared))
    case BtnCleared => QueueLock(sl.(lock := l.(btn := BtnQuiet)), job)
  }

  function SensorStep(sl: Slot, pc: SensorPc, now: int, swap: bool): Outcome {
    match pc
    case Snapshot => WithEcho(sl, Measure(Judge(sl.echo.start, sl.echo.stop, LastTrigger(sl.echo))), sl.echo.(st := EchoIdle))
    case Judge(start, stop, trigger) =>
      var us := (stop - start) / NS_PER_US;
      if us <= 0 || us > MAX_PULSE_US then Quietly(sl, NoJob)
      else Quietly(sl, Measure(PutDistance(us, sl.report.occupied, Pulse(trigger, start, stop))))
    case PutDistance(us, prev, from) =>
      WithReport(sl, Measure(PutOccupied(us, prev)), sl.report.(distance := DistanceOf(us), pulse := Some(us), from := from))
    case PutOccupied(us, prev) => WithReport(sl, Measure(PutLed(us, prev)), sl.report.(occupied := OccupiedBy(us)))
    case PutLed(us, prev) =>
      WithReport(sl, Measure(Notify(OccupiedBy(us), prev)), sl.report.(led := OccupiedBy(us)))
    case Notify(occ, prev) => Outcome(sl, Measure(ReadLock(occ)), false, false, occ != prev)
    case ReadLock(occ) => Quietly(sl, Measure(Think(occ, sl.lock.st)))
    case Think(occ, seen) =>
      var t := Decide(Timer(seen, sl.lock.start, sl.lock.count), occ, now);
      WithLock(sl, if t.st == seen then NoJob else Measure(PutLock(seen, t.st)),
               sl.lock.(start := t.start, count := t.count, readings := sl.lock.readings + [Reading(now, occ, seen)]))
    case PutLock(seen, next) =>
      WithLock(sl, if next == Locking then Measure(PutPending) else NoJob, StoreLock(sl.lock, seen, next, swap))
    case PutPending => WithLock(sl, Measure(PutQueue), sl.lock.(pending := true))
    case PutQueue => QueueLock(sl, NoJob)
  }

  function Direction(b: Bolt, doLock: bool): int { if doLock then b.dir else -b.dir }

  predicate Drivable(b: Bolt) { 0 <= b.step < 8 && (b.dir == 1 || b.dir == -1) }

  /** stepper_step: the phase counter, then the pins. */
  function TurnBolt(b: Bolt, doLock: bool): Bolt
    requires Drivable(b)
  {
    var step := NextPhase(b.step, Direction(b, doLock));
    b.(step := step, rotor := Drive(b.rotor, HalfStep(step)))
  }

  function LockStep(sl: Slot, pc: LockPc, swap: bool): Outcome
    requires Drivable(sl.bolt)
  {
    match pc
    case ReadPending => Quietly(sl, Move(Turn(sl.lock.pending, 0)))
    case Turn(doLock, done) =>
      if done >= LOCK_STEPS then Quietly(sl, Move(PowerOff(doLock)))
      else Quietly(sl.(bolt := TurnBolt(sl.bolt, doLock)), Move(Turn(doLock, done + 1)))
    case PowerOff(doLock) =>
      Quietly(sl.(bolt := sl.bolt.(rotor := Drive(sl.bolt.rotor, OFF))), Move(Finish(doLock)))
    case Finish(doLock) =>
      if doLock then Quietly(Slot(sl.echo, StoreLock(sl.lock, Locking, Locked, swap),
                                  sl.bolt.(locks := sl.bolt.locks + 1), sl.report), NoJob)
      else Quietly(Slot(sl.echo, StoreLock(sl.lock, Unlocking, WaitEmpty, swap),
                        sl.bolt.(unlocks := sl.bolt.unlocks + 1), sl.report), NoJob)
  }

  /** One step at one slot.  A step that cannot be taken leaves everything as it is. */
  function SlotStep(sl: Slot, job: Job, act: SlotAct, now: int, swap: bool): Outcome
    requires Drivable(sl.bolt)
  {
    match act
    case Arm =>
      if sl.echo.st == EchoIdle then WithEcho(sl, job, sl.echo.(st := WaitHigh, triggers := sl.echo.triggers + [|sl.echo.edges|]))
      else Quietly(sl, job)
    case Interrupt(high) =>
      if sl.echo.isr == EchoQuiet then WithEcho(sl, job, sl.echo.(isr := EchoSampled(Edge(now, high)))) else Quietly(sl, job)
    case Commit => if sl.echo.isr.EchoSampled? then CommitEdge(sl, job, sl.echo.isr.edge) else Quietly(sl, job)
    case Press =>
      if sl.lock.btn == BtnQuiet then WithLock(sl, job, sl.lock.(btn := BtnTimed(now), presses := sl.lock.presses + [now]))
      else Quietly(sl, job)
    case Button => ButtonStep(sl, job, swap)
    case BeginSensor =>
      if job == NoJob && sl.echo.queued then WithEcho(sl, Measure(Snapshot), sl.echo.(queued := false)) else Quietly(sl, job)
    case BeginLock =>
      if job == NoJob && sl.lock.queued then WithLock(sl, Move(ReadPending), sl.lock.(queued := false)) else Quietly(sl, job)
    case Work =>
      (match job
       case NoJob => Quietly(sl, job)
       case Measure(pc) => SensorStep(sl, pc, now, swap)
       case Move(pc) => LockStep(sl, pc, swap))
    case Take => WithReport(sl, job, sl.report.(taken := sl.report.occupied))
  }
}
