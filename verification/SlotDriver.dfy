/** The routines of the RPI1 driver as they are written, for one slot: fields changed in
    place, the 341-step loop, the interrupt handlers.  Each is proved equal to its steps
    in SlotMachine taken one after the other, and for the two work functions that is in
    turn shown to be one readable state change. */
module SlotDriver {
  import opened Options
  import opened Stepper
  import opened LockHistory
  import opened SlotMachine
  import opened SlotInvariants
  import opened DriverTheorems

  // ---- Work items from start to end -------------------------------------------------

  lemma WorkDescends(sl: Slot, job: Job, now: int)
    requires Drivable(sl.bolt) && job != NoJob
    ensures var o := SlotStep(sl, job, Work, now, false); Drivable(o.slot.bolt) && JobCost(o.job) < JobCost(job)
  {
    match job {
      case Measure(pc) =>
      case Move(pc) =>
    }
  }

  /** All remaining steps of a work item, with nobody in between. */
  function AllSteps(sl: Slot, job: Job, now: int): Outcome
    requires Drivable(sl.bolt)
    decreases JobCost(job)
  {
    if job == NoJob then Quietly(sl, job)
    else
      WorkDescends(sl, job, now);
      var o := SlotStep(sl, job, Work, now, false);
      var rest := AllSteps(o.slot, o.job, now);
      Outcome(rest.slot, rest.job, o.addSensor || rest.addSensor, o.addLock || rest.addLock, o.raise || rest.raise)
  }

  predicate Accepts(us: int) { 0 < us <= MAX_PULSE_US }

  /** The lock fields after a reading is judged: the decision, and with LOCKING the order
      for the lock work. */
  function Judged(l: Lock, occ: bool, now: int): Lock {
    var t := Decide(Timer(l.st, l.start, l.count), occ, now);
    var locks := t.st == Locking && l.st != Locking;
    l.(st := t.st, start := t.start, count := t.count, readings := l.readings + [Reading(now, occ, l.st)],
       pending := l.pending || locks, queued := l.queued || locks)
  }

  /** The pulse the worker finds. */
  function PulseFound(e: Echo): Pulse { Pulse(LastTrigger(e), e.start, e.stop) }

  /** The report of an accepted pulse. */
  function Reported(r: Report, us: int, from: Pulse): Report {
    Report(OccupiedBy(us), DistanceOf(us), OccupiedBy(us), Some(us), from, r.taken)
  }

  predicate Orders(l: Lock, occ: bool, now: int) {
    !l.queued && Judged(l, occ, now).queued
  }

  /** sensor_work_func as one change: a rejected echo only frees the sensor; an accepted
      one is reported, with the flag raised on a change of occupancy, and judged. */
  function Measured(sl: Slot, now: int): Outcome {
    var us := (sl.echo.stop - sl.echo.start) / NS_PER_US;
    var echo := sl.echo.(st := EchoIdle);
    if !Accepts(us) then Quietly(sl.(echo := echo), NoJob)
    else
      var occ := OccupiedBy(us);
      Outcome(Slot(echo, Judged(sl.lock, occ, now), sl.bolt, Reported(sl.report, us, PulseFound(sl.echo))),
              NoJob, false, Orders(sl.lock, occ, now), occ != sl.report.occupied)
  }

  /** The bolt after a whole move. */
  function Moved(b: Bolt, doLock: bool): Bolt
    requires Drivable(b)
  {
    var dir := Direction(b, doLock);
    var r := Turned(b.rotor, LOCK_STEPS, dir);
    Bolt((b.rotor.pos + LOCK_STEPS * dir) % 8, b.dir, Drive(r, OFF),
         b.locks + One(doLock), b.unlocks + One(!doLock))
  }

  /** measure_timer_cb at a slot as one change. */
  function Armed(e: Echo): Echo {
    if e.st == EchoIdle then e.(st := WaitHigh, triggers := e.triggers + [|e.edges|]) else e
  }

  /** The spinlock section of echo_isr as one change. */
  function Sampled(e: Echo, edge: Edge): Echo {
    var e := e.(edges := e.edges + [edge]);
    if e.st == WaitHigh && edge.high then e.(start := edge.time, st := WaitLow)
    else if e.st == WaitLow && !edge.high then e.(stop := edge.time, st := EchoDone, queued := true)
    else e
  }

  /** btn_isr as one change: a press less than 300 ms after the last accepted one does
      nothing, any other is noted, and on a LOCKED slot it orders the unlocking. */
  function Pressed(l: Lock, now: int): Lock {
    var accepted := now >= l.lastBtn + DEBOUNCE_MS * NS_PER_MS;
    var l := l.(presses := l.presses + [now], marks := l.marks + [accepted]);
    if !accepted then l
    else if l.st != Locked then l.(lastBtn := now)
    else l.(lastBtn := now, st := Unlocking, pending := false, queued := true)
  }

  /** lock_work_func as one change. */
  function LockMoved(sl: Slot): Slot
    requires Drivable(sl.bolt)
  {
    var doLock := sl.lock.pending;
    Slot(sl.echo, sl.lock.(st := if doLock then Locked else WaitEmpty), Moved(sl.bolt, doLock), sl.report)
  }

  /** From the lock decision on. */
  lemma FinishThink(sl: Slot, occ: bool, now: int)
    requires Drivable(sl.bolt)
    ensures AllSteps(sl, Measure(Think(occ, sl.lock.st)), now)
            == Outcome(sl.(lock := Judged(sl.lock, occ, now)), NoJob, false, Orders(sl.lock, occ, now), false)
  {
    var o1 := SlotStep(sl, Measure(Think(occ, sl.lock.st)), Work, now, false);
    if o1.job != NoJob {
      var o2 := SlotStep(o1.slot, o1.job, Work, now, false);
      if o2.job != NoJob {
        var o3 := SlotStep(o2.slot, o2.job, Work, now, false);
        assert o2.job == Measure(PutPending) && o3.job == Measure(PutQueue);
        var o4 := SlotStep(o3.slot, o3.job, Work, now, false);
        assert AllSteps(o3.slot, o3.job, now) == Outcome(o4.slot, NoJob, false, o4.addLock, false);
        assert AllSteps(o2.slot, o2.job, now) == Outcome(o4.slot, NoJob, false, o4.addLock, false);
      }
    }
  }

  /** From an accepted echo to the lock decision. */
  lemma FinishReport(sl: Slot, us: int, from: Pulse, now: int)
    requires Drivable(sl.bolt)
    ensures var occ := OccupiedBy(us);
            var sl' := sl.(report := Reported(sl.report, us, from));
            var rest := AllSteps(sl', Measure(Think(occ, sl'.lock.st)), now);
            AllSteps(sl, Measure(PutDistance(us, sl.report.occupied, from)), now)
            == rest.(raise := rest.raise || occ != sl.report.occupied)
  {
    hide Decide, Turned, Drive;
    var occ, prev := OccupiedBy(us), sl.report.occupied;
    var s1 := sl.(report := sl.report.(distance := DistanceOf(us), pulse := Some(us), from := from));
    var s2 := s1.(report := s1.report.(occupied := occ));
    var s3 := s2.(report := s2.report.(led := occ));
    FinishOne(sl, Measure(PutDistance(us, prev, from)), s1, Measure(PutOccupied(us, prev)), false, now);
    FinishOne(s1, Measure(PutOccupied(us, prev)), s2, Measure(PutLed(us, prev)), false, now);
    FinishOne(s2, Measure(PutLed(us, prev)), s3, Measure(Notify(occ, prev)), false, now);
    FinishOne(s3, Measure(Notify(occ, prev)), s3, Measure(ReadLock(occ)), occ != prev, now);
    FinishOne(s3, Measure(ReadLock(occ)), s3, Measure(Think(occ, s3.lock.st)), false, now);
  }

  /** One step that queues nothing, then the rest. */
  lemma FinishOne(sl: Slot, job: Job, sl': Slot, job': Job, raise: bool, now: int)
    requires Drivable(sl.bolt) && job != NoJob && Drivable(sl'.bolt)
    requires SlotStep(sl, job, Work, now, false) == Outcome(sl', job', false, false, raise)
    ensures var rest := AllSteps(sl', job', now); AllSteps(sl, job, now) == rest.(raise := raise || rest.raise)
  {
    hide SlotStep, JobCost;
    WorkDescends(sl, job, now);
  }

  /** The sensor work, step by step, is one measurement. */
  lemma MeasuredIsAllSteps(sl: Slot, now: int)
    requires Drivable(sl.bolt)
    ensures AllSteps(sl, Measure(Snapshot), now) == Measured(sl, now)
  {
    hide AllSteps, Judged, Orders;
    var s1 := sl.(echo := sl.echo.(st := EchoIdle));
    var us := (sl.echo.stop - sl.echo.start) / NS_PER_US;
    FinishOne(sl, Measure(Snapshot), s1, Measure(Judge(sl.echo.start, sl.echo.stop, LastTrigger(sl.echo))), false, now);
    if Accepts(us) {
      FinishOne(s1, Measure(Judge(sl.echo.start, sl.echo.stop, LastTrigger(sl.echo))), s1, Measure(PutDistance(us, s1.report.occupied, PulseFound(sl.echo))), false, now);
      FinishReport(s1, us, PulseFound(sl.echo), now);
      var occ := OccupiedBy(us);
      FinishThink(s1.(report := Reported(sl.report, us, PulseFound(sl.echo))), occ, now);
    } else {
      FinishOne(s1, Measure(Judge(sl.echo.start, sl.echo.stop, LastTrigger(sl.echo))), s1, NoJob, false, now);
      assert AllSteps(s1, NoJob, now) == Quietly(s1, NoJob) by { NothingLeft(s1, now); }
    }
  }

  lemma NothingLeft(sl: Slot, now: int)
    requires Drivable(sl.bolt)
    ensures AllSteps(sl, NoJob, now) == Quietly(sl, NoJob)
  {
  }

  ghost predicate BoltRuns(b: Bolt) {
    Drivable(b) && InPhase(b.rotor, b.step) && b.rotor.lo <= b.rotor.pos <= b.rotor.hi
  }

  /** The bolt n steps into a move. */
  function PartMoved(b: Bolt, doLock: bool, n: nat): Bolt
    requires Drivable(b)
  {
    var dir := Direction(b, doLock);
    b.(step := (b.rotor.pos + n * dir) % 8, rotor := Turned(b.rotor, n, dir))
  }

  lemma TurnsOnce(b: Bolt, doLock: bool, n: nat)
    requires BoltRuns(b)
    ensures TurnBolt(PartMoved(b, doLock, n), doLock) == PartMoved(b, doLock, n + 1)
  {
    TurnedExtends(b.rotor, n, Direction(b, doLock));
  }

  lemma {:induction false} FinishTurns(sl: Slot, doLock: bool, n: nat, now: int)
    requires BoltRuns(sl.bolt) && n <= LOCK_STEPS
    ensures AllSteps(sl.(bolt := PartMoved(sl.bolt, doLock, n)), Move(Turn(doLock, n)), now)
            == AllSteps(sl.(bolt := PartMoved(sl.bolt, doLock, LOCK_STEPS)), Move(PowerOff(doLock)), now)
    decreases LOCK_STEPS - n
  {
    hide AllSteps, TurnBolt, PartMoved, InPhase;
    var s := sl.(bolt := PartMoved(sl.bolt, doLock, n));
    assert Drivable(s.bolt) && Drivable(PartMoved(sl.bolt, doLock, n + 1)) by { PartMovedRuns(sl.bolt, doLock, n); PartMovedRuns(sl.bolt, doLock, n + 1); }
    if n < LOCK_STEPS {
      TurnsOnce(sl.bolt, doLock, n);
      FinishOne(s, Move(Turn(doLock, n)), sl.(bolt := PartMoved(sl.bolt, doLock, n + 1)), Move(Turn(doLock, n + 1)), false, now);
      FinishTurns(sl, doLock, n + 1, now);
    } else {
      FinishOne(s, Move(Turn(doLock, n)), s, Move(PowerOff(doLock)), false, now);
    }
  }

  lemma PartMovedRuns(b: Bolt, doLock: bool, n: nat)
    requires Drivable(b)
    ensures Drivable(PartMoved(b, doLock, n))
  {
  }

  /** The lock work, step by step, is one move and one change of the lock word. */
  lemma LockMovedIsAllSteps(sl: Slot, now: int)
    requires BoltRuns(sl.bolt)
    ensures AllSteps(sl, Move(ReadPending), now) == Quietly(LockMoved(sl), NoJob)
  {
    hide AllSteps, TurnBolt, Turned, Drive;
    var doLock := sl.lock.pending;
    FinishOne(sl, Move(ReadPending), sl, Move(Turn(doLock, 0)), false, now);
    assert sl.(bolt := PartMoved(sl.bolt, doLock, 0)) == sl by { NoStepYet(sl.bolt, doLock); }
    FinishTurns(sl, doLock, 0, now);
    var s1 := sl.(bolt := PartMoved(sl.bolt, doLock, LOCK_STEPS));
    PartMovedRuns(sl.bolt, doLock, LOCK_STEPS);
    var s2 := s1.(bolt := s1.bolt.(rotor := Drive(s1.bolt.rotor, OFF)));
    FinishOne(s1, Move(PowerOff(doLock)), s2, Move(LockPc.Finish(doLock)), false, now);
    FinishOne(s2, Move(LockPc.Finish(doLock)), LockMoved(sl), NoJob, false, now);
    NothingLeft(LockMoved(sl), now);
  }

  lemma NoStepYet(b: Bolt, doLock: bool)
    requires BoltRuns(b)
    ensures PartMoved(b, doLock, 0) == b
  {
  }

  // ---- struct sensor_dev ------------------------------------------------------------

  class SensorDev {
    const lockDir: int
    var state: EchoState
    var echoStart: int
    var echoStop: int
    var workPending: bool
    var occupied: bool
    var distanceCm: int
    var led: bool
    var lockSt: LockState
    var occupyStart: int
    var consecutiveUnoccupied: nat
    var lockPending: bool
    var lockWorkPending: bool
    var lastBtnTime: int
    var motorStep: int
    var motorPins: Coils
    ghost var edges: seq<Edge>
    ghost var triggers: seq<nat>
    ghost var readings: seq<Reading>
    ghost var presses: seq<int>
    ghost var marks: seq<bool>
    ghost var rotor: Rotor
    ghost var locks: nat
    ghost var unlocks: nat
    ghost var pulse: Option<int>
    ghost var from: Pulse
    ghost var taken: bool

    ghost predicate Valid()
      reads this
    {
      BoltRuns(BoltView()) && rotor.coils == motorPins
    }

    ghost function LockView(): Lock
      reads this
    {
      Lock(lockSt, occupyStart, consecutiveUnoccupied, lockPending, lockWorkPending, BtnQuiet, lastBtnTime, readings, presses, marks)
    }

    ghost function BoltView(): Bolt
      reads this
    {
      Bolt(motorStep, lockDir, rotor, locks, unlocks)
    }

    ghost function EchoView(): Echo
      reads this
    {
      Echo(state, echoStart, echoStop, workPending, EchoQuiet, edges, triggers)
    }

    ghost function ReportView(): Report
      reads this
    {
      Report(occupied, distanceCm, led, pulse, from, taken)
    }

    ghost function View(): Slot
      reads this
    {
      Slot(EchoView(), LockView(), BoltView(), ReportView())
    }

    constructor (dir: int)
      requires dir == 1 || dir == -1
      ensures Valid() && View() == InitialSlot(dir)
    {
      lockDir := dir;
      state, echoStart, echoStop, workPending := EchoIdle, 0, 0, false;
      occupied, distanceCm, led := false, NO_DISTANCE, false;
      lockSt, occupyStart, consecutiveUnoccupied := Free, 0, 0;
      lockPending, lockWorkPending, lastBtnTime := false, false, 0;
      motorStep, motorPins, rotor := 0, OFF, RESTING;
      presses, marks, from := [], [], Pulse(0, 0, 0);
      edges, triggers, readings, locks, unlocks, pulse, taken := [], [], [], 0, 0, None, false;
    }

    /** measure_timer_cb at this slot; whether the trigger is fired. */
    method MeasureTick() returns (fire: bool)
      modifies `state, `triggers
      ensures EchoView() == Armed(old(EchoView())) && fire == (old(state) == EchoIdle)
    {
      fire := state == EchoIdle;
      if fire {
        state := WaitHigh;
        triggers := triggers + [|edges|];
      }
    }

    /** echo_isr, having sampled the time and the pin; whether the sensor work was queued. */
    method EchoIsr(now: int, pin: bool) returns (queued: bool)
      modifies `state, `echoStart, `echoStop, `workPending, `edges
      ensures EchoView() == Sampled(old(EchoView()), Edge(now, pin))
      ensures queued == (workPending && !old(workPending))
    {
      queued := false;
      edges := edges + [Edge(now, pin)];
      match state {
        case WaitHigh =>
          if pin {
            echoStart := now;
            state := WaitLow;
          }
        case WaitLow =>
          if !pin {
            echoStop := now;
            state := EchoDone;
            queued := !workPending;
            workPending := true;
          }
        case _ =>
      }
    }

    /** btn_isr; whether the lock work was queued. */
    method BtnIsr(now: int) returns (queued: bool)
      modifies `lockSt, `lockPending, `lockWorkPending, `lastBtnTime, `presses, `marks
      ensures LockView() == Pressed(old(LockView()), now)
      ensures queued == (lockWorkPending && !old(lockWorkPending))
    {
      queued := false;
      var elapsedMs := (now - lastBtnTime) / NS_PER_MS;
      presses, marks := presses + [now], marks + [elapsedMs >= DEBOUNCE_MS];
      if elapsedMs < DEBOUNCE_MS {
        return;
      }
      lastBtnTime := now;
      if lockSt == Locked {
        lockSt := Unlocking;
        lockPending := false;
        queued := !lockWorkPending;
        lockWorkPending := true;
      }
    }

    /** sensor_work_func; whether the flag was raised and the lock work queued. */
    method SensorWork(now: int) returns (raised: bool, queued: bool)
      modifies `state, `distanceCm, `occupied, `led, `pulse, `from, `lockSt, `occupyStart, `consecutiveUnoccupied, `lockPending,
               `lockWorkPending, `readings
      ensures EchoView() == old(EchoView()).(st := EchoIdle)
      ensures var us := (old(echoStop) - old(echoStart)) / NS_PER_US;
              if Accepts(us) then
                && ReportView() == Reported(old(ReportView()), us, old(PulseFound(EchoView()))) && raised == (occupied != old(occupied))
                && 58 * distanceCm <= us < 58 * (distanceCm + 1) && led == occupied == (us < 348)
                && LockView() == Judged(old(LockView()), OccupiedBy(us), now) && queued == Orders(old(LockView()), OccupiedBy(us), now)
              else ReportView() == old(ReportView()) && LockView() == old(LockView()) && !raised && !queued
    {
      hide Judged, Orders, Reported, OccupiedBy;
      raised, queued := false, false;
      var start, stop := echoStart, echoStop;
      ghost var found := PulseFound(EchoView());
      state := EchoIdle;
      var timeUs := (stop - start) / NS_PER_US;
      if timeUs <= 0 || timeUs > MAX_PULSE_US {
        return;
      }
      raised, queued := AcceptPulse(timeUs, found, now);
    }

    /** What it does with an accepted pulse. */
    method AcceptPulse(timeUs: int, ghost found: Pulse, now: int) returns (raised: bool, queued: bool)
      modifies `distanceCm, `occupied, `led, `pulse, `from, `lockSt, `occupyStart, `consecutiveUnoccupied, `lockPending,
               `lockWorkPending, `readings
      ensures ReportView() == Reported(old(ReportView()), timeUs, found) && raised == (occupied != old(occupied))
      ensures 58 * distanceCm <= timeUs < 58 * (distanceCm + 1) && led == occupied == (timeUs < 348)
      ensures LockView() == Judged(old(LockView()), OccupiedBy(timeUs), now)
      ensures queued == Orders(old(LockView()), OccupiedBy(timeUs), now)
    {
      hide Judged, Orders, Reported, OccupiedBy;
      raised := ReportPulse(timeUs, found);
      queued := JudgeReading(occupied, now);
    }

    /** Its report; whether the occupancy has changed. */
    method ReportPulse(timeUs: int, ghost found: Pulse) returns (changed: bool)
      modifies `distanceCm, `occupied, `led, `pulse, `from
      ensures ReportView() == Reported(old(ReportView()), timeUs, found)
      ensures changed == (occupied != old(occupied)) && occupied == OccupiedBy(timeUs)
      ensures 58 * distanceCm <= timeUs < 58 * (distanceCm + 1) && led == occupied == (timeUs < 348)
    {
      var cm := timeUs / 58;
      var occ := cm <= OCCUPIED_THRESHOLD_CM;
      var prev := occupied;
      distanceCm := cm;
      pulse, from := Some(timeUs), found;
      occupied := occ;
      led := occ;
      changed := prev != occ;
    }

    /** The switch at its end. */
    method JudgeReading(occ: bool, now: int) returns (queued: bool)
      modifies `lockSt, `occupyStart, `consecutiveUnoccupied, `lockPending, `lockWorkPending, `readings
      ensures LockView() == Judged(old(LockView()), occ, now) && queued == Orders(old(LockView()), occ, now)
    {
      readings := readings + [Reading(now, occ, lockSt)];
      queued := false;
      match lockSt {
        case Free =>
          if occ {
            occupyStart := now;
            consecutiveUnoccupied := 0;
            lockSt := Timing;
          }
        case Timing =>
          if !occ {
            consecutiveUnoccupied := consecutiveUnoccupied + 1;
            if consecutiveUnoccupied >= UNOCCUPIED_RELEASE_COUNT {
              lockSt := Free;
            }
          } else {
            var elapsedMs := (now - occupyStart) / NS_PER_MS;
            consecutiveUnoccupied := 0;
            if elapsedMs >= LOCK_TIMEOUT_MS {
              lockSt := Locking;
              lockPending := true;
              queued := !lockWorkPending;
              lockWorkPending := true;
            }
          }
        case WaitEmpty =>
          if !occ {
            lockSt := Free;
          }
        case _ =>
      }
    }

    method SetPins(c: Coils)
      modifies `motorPins, `rotor
      ensures motorPins == c && rotor == Drive(old(rotor), c)
    {
      motorPins := c;
      rotor := Drive(rotor, c);
    }

    /** stepper_step. */
    method StepperStep(doLock: bool)
      requires Drivable(BoltView())
      modifies `motorStep, `motorPins, `rotor
      ensures BoltView() == TurnBolt(old(BoltView()), doLock) && rotor.coils == motorPins
    {
      var dir := if doLock then lockDir else -lockDir;
      motorStep := (motorStep + dir + 8) % 8;
      SetPins(HalfStep(motorStep));
    }

    /** The loop of lock_work_func, and the coils off. */
    method TurnAllSteps(doLock: bool)
      requires Valid()
      modifies `motorStep, `motorPins, `rotor
      ensures BoltView() == PartMoved(old(BoltView()), doLock, LOCK_STEPS).(rotor := Drive(PartMoved(old(BoltView()), doLock, LOCK_STEPS).rotor, OFF))
      ensures rotor.coils == motorPins
    {
      hide TurnBolt, Turned, InPhase, Drive;
      ghost var b := BoltView();
      NoStepYet(b, doLock);
      for i := 0 to LOCK_STEPS
        invariant BoltView() == PartMoved(b, doLock, i)
      {
        PartMovedRuns(b, doLock, i);
        TurnsOnce(b, doLock, i);
        StepperStep(doLock);
      }
      SetPins(OFF);
      assert rotor.coils == motorPins by { OffShows(PartMoved(b, doLock, LOCK_STEPS).rotor); }
    }

    /** lock_work_func. */
    method LockWork()
      requires Valid()
      modifies `motorStep, `motorPins, `rotor, `lockSt, `locks, `unlocks
      ensures Valid()
      ensures BoltView() == Moved(old(BoltView()), lockPending)
      ensures lockSt == if lockPending then Locked else WaitEmpty
    {
      hide BoltRuns, Turned, Drive;
      ghost var b := BoltView();
      var doLock := lockPending;
      TurnAllSteps(doLock);
      if doLock {
        lockSt := Locked;
        locks := locks + 1;
      } else {
        lockSt := WaitEmpty;
        unlocks := unlocks + 1;
      }
      MovedRuns(b, doLock);
    }
  }

  lemma OffShows(r: Rotor)
    ensures Drive(r, OFF).coils == OFF
  {
  }

  lemma MovedRuns(b: Bolt, doLock: bool)
    requires BoltRuns(b)
    ensures BoltRuns(Moved(b, doLock))
  {
    var dir := Direction(b, doLock);
    var n := LOCK_STEPS;
    TurnedExtends(b.rotor, n, dir);
    OffKeepsPhase(Turned(b.rotor, n, dir), (b.rotor.pos + n * dir) % 8);
  }

  /** The timer callback, step by step. */
  lemma ArmedIsItsStep(sl: Slot, now: int)
    requires Drivable(sl.bolt)
    ensures SlotStep(sl, NoJob, Arm, now, false) == Quietly(sl.(echo := Armed(sl.echo)), NoJob)
  {
  }

  /** The two halves of the echo interrupt, taken one after the other. */
  lemma SampledIsAllSteps(sl: Slot, now: int, high: bool)
    requires Drivable(sl.bolt) && sl.echo.isr == EchoQuiet
    ensures var o := SlotStep(sl, NoJob, Interrupt(high), now, false);
            SlotStep(o.slot, NoJob, Commit, now, false)
            == Outcome(sl.(echo := Sampled(sl.echo, Edge(now, high))), NoJob,
                       !sl.echo.queued && Sampled(sl.echo, Edge(now, high)).queued, false, false)
  {
  }

  /** The steps of the button interrupt, taken one after the other from its entry. */
  function ButtonRun(sl: Slot, now: int): Outcome {
    var o0 := ButtonStep(sl.(lock := sl.lock.(btn := BtnTimed(now), presses := sl.lock.presses + [now])), NoJob, false);
    var o1 := ButtonStep(o0.slot, NoJob, false);
    var o2 := ButtonStep(o1.slot, NoJob, false);
    var o3 := ButtonStep(o2.slot, NoJob, false);
    var o4 := ButtonStep(o3.slot, NoJob, false);
    Outcome(o4.slot, NoJob, false, o0.addLock || o1.addLock || o2.addLock || o3.addLock || o4.addLock, false)
  }

  lemma PressedIsAllSteps(sl: Slot, now: int)
    requires sl.lock.btn == BtnQuiet
    ensures var l := Pressed(sl.lock, now);
            ButtonRun(sl, now) == Outcome(sl.(lock := l), NoJob, false, !sl.lock.queued && l.queued, false)
  {
  }
}
