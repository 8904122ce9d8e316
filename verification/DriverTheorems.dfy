/** What holds of the RPI1 driver in every run, whatever the interleaving. */
module DriverTheorems {
  import opened Options
  import opened Stepper
  import opened LockHistory
  import opened SlotMachine
  import opened SlotInvariants
  import opened Driver
  import Debounce

  // ---- The lock word ----------------------------------------------------------------

  lemma LockOf(sl: Slot, job: Job, now: int)
    requires SlotOk(sl, job, now)
    ensures Drivable(sl.bolt) && LockOk(sl.lock, job) && BoltOk(sl.bolt, sl.lock.st, job) && EchoWorkOk(sl.echo, job)
  {
  }

  lemma AtSwapSame(d: State, i: nat, act: SlotAct)
    requires Shaped(d) && SlotsOk(d)
    ensures At(d, i, act, true) == At(d, i, act, false)
  {
    hide SlotOk, SlotStep;
    if i < NUM_SPACES {
      LockOf(d.slots[i], JobAt(d.worker, i), d.now);
      SwapNeverFails(d.slots[i], JobAt(d.worker, i), act, d.now);
    }
  }

  lemma SwapStepSame(d: State, a: Action)
    requires Inv(d)
    ensures Step(d, a, true) == Step(d, a, false)
  {
    hide SlotOk, At, ReaderOk, QueueOk;
    match a {
      case TimerFires(i) => AtSwapSame(d, i, Arm);
      case EchoIrq(i, high) => AtSwapSame(d, i, Interrupt(high));
      case EchoCommit(i) => AtSwapSame(d, i, Commit);
      case ButtonIrq(i) => AtSwapSame(d, i, Press);
      case ButtonGo(i) => AtSwapSame(d, i, Button);
      case Dequeue =>
        if d.worker == Resting && d.queue != [] {
          var d1 := d.(queue := d.queue[1..]);
          AtSwapSame(d1, d.queue[0].slot, if d.queue[0].SensorTask? then BeginSensor else BeginLock);
        }
      case WorkOn => if d.worker.Busy? { AtSwapSame(d, d.worker.slot, Work); }
      case PickOccupied(i) => AtSwapSame(d, i, Take);
      case _ =>
    }
  }

  /** No lost update: over every run, compare-and-swap stores and plain stores lead to the
      same state, so no store to the lock word ever overwrites a value its context had
      not seen. */
  lemma {:induction false} NoLostUpdate(now: int, acts: seq<Action>)
    ensures Run(now, acts, true) == Run(now, acts, false)
  {
    hide Inv, Step;
    if acts != [] {
      NoLostUpdate(now, acts[..|acts| - 1]);
      RunKeepsInv(now, acts[..|acts| - 1]);
      SwapStepSame(Run(now, acts[..|acts| - 1], false), acts[|acts| - 1]);
    }
  }

  /** When lock_work_func is about to read lock_pending, the flag says "lock" exactly if
      the lock word is LOCKING, and "unlock" exactly if it is UNLOCKING. */
  lemma LockWorkReadsItsOrder(now: int, acts: seq<Action>, i: nat)
    requires i < NUM_SPACES
    ensures var d := Run(now, acts, false);
            JobAt(d.worker, i) == Move(ReadPending) ==>
              && (d.slots[i].lock.pending <==> d.slots[i].lock.st == Locking)
              && (!d.slots[i].lock.pending <==> d.slots[i].lock.st == Unlocking)
  {
    hide SlotOk;
    var d := Run(now, acts, false);
    SlotInRun(now, acts, i);
    LockOf(d.slots[i], JobAt(d.worker, i), d.now);
  }

  // ---- The queue --------------------------------------------------------------------

  /** In every run a sensor item is queued or not yet snapshotted exactly while the echo
      is DONE; a lock item is handed over, queued or carried out, in exactly one place,
      exactly while the lock word is LOCKING or UNLOCKING; the pending bits tell what is
      queued; nothing is queued twice, and never more than four items. */
  lemma {:induction false} QueueDiscipline(now: int, acts: seq<Action>, i: nat)
    requires i < NUM_SPACES
    ensures var d := Run(now, acts, false);
            var sl, job := d.slots[i], JobAt(d.worker, i);
            && (sl.echo.st == EchoDone <==> SensorTask(i) in d.queue || job == Measure(Snapshot))
            && HandOvers(sl.lock, job) == One(Turning(sl.lock.st))
            && (LockTask(i) in d.queue <==> sl.lock.queued)
            && (forall a, b :: 0 <= a < b < |d.queue| ==> d.queue[a] != d.queue[b])
            && |d.queue| <= 4
  {
    hide SlotOk, Run, BoltOk;
    var d := Run(now, acts, false);
    SlotInRun(now, acts, i);
    LockOf(d.slots[i], JobAt(d.worker, i), d.now);
    QueueInRun(now, acts);
    FourTasks(d.queue);
  }

  lemma QueueInRun(now: int, acts: seq<Action>)
    ensures QueueOk(Run(now, acts, false))
  {
    hide SlotOk, SlotsOk, ReaderOk, QueueOk, Run;
    RunKeepsInv(now, acts);
  }

  lemma FourTasks(q: seq<Task>)
    requires forall a, b :: 0 <= a < b < |q| ==> q[a] != q[b]
    requires forall t :: t in q ==> t.slot < NUM_SPACES
    ensures |q| <= 4
  {
    var all := {SensorTask(0), SensorTask(1), LockTask(0), LockTask(1)};
    DistinctBound(q, all);
  }

  lemma {:induction false} DistinctBound(q: seq<Task>, all: set<Task>)
    requires forall a, b :: 0 <= a < b < |q| ==> q[a] != q[b]
    requires forall t :: t in q ==> t in all
    ensures |q| <= |all|
  {
    if q != [] {
      var t := q[|q| - 1];
      var rest := q[..|q| - 1];
      assert t !in rest;
      DistinctBound(rest, all - {t});
      assert |all - {t}| == |all| - 1;
    }
  }

  /** A context that calls queue_work never finds the item pending, so no call is
      silently dropped. */
  lemma {:induction false} NoDroppedWork(now: int, acts: seq<Action>, i: nat, act: SlotAct)
    requires i < NUM_SPACES
    ensures var d := Run(now, acts, false);
            var sl, job := d.slots[i], JobAt(d.worker, i);
            var o := SlotStep(sl, job, act, d.now, false);
            && (act == Commit && sl.echo.isr.EchoSampled? && sl.echo.st == WaitLow && !sl.echo.isr.edge.high ==> o.addSensor)
            && ((act == Work && job == Measure(PutQueue)) || (act == Button && sl.lock.btn == BtnCleared) ==> o.addLock)
  {
    hide SlotOk, SlotStep;
    var d := Run(now, acts, false);
    SlotInRun(now, acts, i);
    LockOf(d.slots[i], JobAt(d.worker, i), d.now);
    QueueNeverPending(d.slots[i], JobAt(d.worker, i), act, d.now);
  }

  // ---- The bolt ---------------------------------------------------------------------

  /** Conservation: in every run the bolt is out by 341 half-steps for each completed lock
      not yet undone plus the move in progress; that is 0 to 341 at every moment, fully
      out when LOCKED and fully in when FREE, TIMING or waiting to empty; the rotor
      never slipped and its phase is the position in the motor's direction modulo 8. */
  lemma {:induction false} BoltConservation(now: int, acts: seq<Action>, i: nat)
    requires i < NUM_SPACES
    ensures var d := Run(now, acts, false);
            var b, st, job := d.slots[i].bolt, d.slots[i].lock.st, JobAt(d.worker, i);
            && BoltPosition(b) == 341 * (b.locks - b.unlocks) + PartialMove(job)
            && 0 <= b.locks - b.unlocks <= 1
            && 0 <= BoltPosition(b) <= 341
            && (st == Locked ==> BoltPosition(b) == 341)
            && (st == Free || st == Timing || st == WaitEmpty ==> BoltPosition(b) == 0)
            && b.step == (b.dir * BoltPosition(b)) % 8
            && b.rotor.slips == 0
            && (!job.Move? ==> b.rotor.coils == OFF)
  {
    hide SlotOk, SlotStep;
    var d := Run(now, acts, false);
    SlotInRun(now, acts, i);
    LockOf(d.slots[i], JobAt(d.worker, i), d.now);
    BoltTravel(d.slots[i].bolt, d.slots[i].lock, JobAt(d.worker, i));
  }

  // ---- The measurement --------------------------------------------------------------

  lemma EchoOf(sl: Slot, job: Job, now: int)
    requires SlotOk(sl, job, now)
    ensures EchoOk(sl.echo, job, now) && HistoryOk(sl.lock, job, now)
  {
  }

  /** Echo pairing: what the worker is about to snapshot, and what it judges once it has,
      are the first high sample after a trigger and the first low sample after that, with
      no other trigger in between; so the length is never negative. */
  lemma EchoPairing(now: int, acts: seq<Action>, i: nat)
    requires i < NUM_SPACES
    ensures var d := Run(now, acts, false);
            var e, job := d.slots[i].echo, JobAt(d.worker, i);
            && (job == Measure(Snapshot) ==>
                  TriggeredPulse(e, LastTrigger(e), e.start, e.stop) && e.start <= e.stop <= d.now)
            && (job.Measure? && job.sensorPc.Judge? ==>
                  var pc := job.sensorPc;
                  TriggeredPulse(e, pc.trigger, pc.start, pc.stop) && pc.start <= pc.stop <= d.now)
  {
    hide SlotOk, SlotStep, Run;
    var d := Run(now, acts, false);
    SlotInRun(now, acts, i);
    PairingAt(d.slots[i], JobAt(d.worker, i), d.now);
  }

  lemma PairingAt(sl: Slot, job: Job, now: int)
    requires SlotOk(sl, job, now)
    ensures var e := sl.echo;
            && (job == Measure(Snapshot) ==>
                  TriggeredPulse(e, LastTrigger(e), e.start, e.stop) && e.start <= e.stop <= now)
            && (job.Measure? && job.sensorPc.Judge? ==>
                  var pc := job.sensorPc;
                  TriggeredPulse(e, pc.trigger, pc.start, pc.stop) && pc.start <= pc.stop <= now)
  {
    hide SlotOk, OnePulse, RisingPulse, TriggeredPulse;
    var e := sl.echo;
    EchoOf(sl, job, now);
    LockOf(sl, job, now);
    if job == Measure(Snapshot) {
      SnapshotIsTriggered(e);
      PulseIsForward(e.edges, LastTrigger(e), e.start, e.stop, now);
    } else if job.Measure? && job.sensorPc.Judge? {
      assert OnePulse(e.edges, job.sensorPc.trigger, job.sensorPc.start, job.sensorPc.stop) by {
        TriggeredIsOne(e, job.sensorPc.trigger, job.sensorPc.start, job.sensorPc.stop);
      }
      PulseIsForward(e.edges, job.sensorPc.trigger, job.sensorPc.start, job.sensorPc.stop, now);
    }
  }

  lemma TriggeredIsOne(e: Echo, z: nat, start: int, stop: int)
    requires TriggeredPulse(e, z, start, stop)
    ensures OnePulse(e.edges, z, start, stop)
  {
  }

  /** Whatever is reported: before the first accepted pulse 999, after it the pulse in whole
      centimetres of 58 us, 0 to 400; the pulse one that was seen between a trigger and the
      next; and outside an update in progress occupied and lamp say "distance at most 5",
      that is, a pulse shorter than 348 us. */
  lemma ReportsInRange(now: int, acts: seq<Action>, i: nat)
    requires i < NUM_SPACES
    ensures var d := Run(now, acts, false);
            var r, job := d.slots[i].report, JobAt(d.worker, i);
            && (r.pulse.None? ==> r.distance == 999)
            && (r.pulse.Some? ==>
                  && 58 * r.distance <= r.pulse.value < 58 * (r.distance + 1) && 0 <= r.distance <= 400
                  && Measures(d.slots[i].echo, r.pulse.value, r.from))
            && (!Updating(job) ==> (r.occupied <==> r.distance <= 5) && (r.occupied <==> r.pulse.Some? && r.pulse.value < 348))
            && (!Updating(job) && !Lighting(job) ==> r.led == r.occupied)
  {
    hide SlotOk, SlotStep;
    var d := Run(now, acts, false);
    SlotInRun(now, acts, i);
    ValuesOf(d.slots[i], JobAt(d.worker, i), d.now);
    ReportedValues(d.slots[i].report, JobAt(d.worker, i));
    MeasuredOf(d.slots[i], JobAt(d.worker, i), d.now);
  }

  lemma MeasuredOf(sl: Slot, job: Job, now: int)
    requires SlotOk(sl, job, now)
    ensures MeasuredOk(sl.echo, sl.report, job)
  {
  }

  // ---- The lock decision ------------------------------------------------------------

  /** The decision refines the history rule: when the worker judges an accepted reading,
      it goes on to store LOCKING exactly if the slot was FREE or TIMING and the reading
      is due among the readings since the slot last became free. */
  lemma LockDecision(now: int, acts: seq<Action>, i: nat)
    requires i < NUM_SPACES
    ensures var d, d' := Run(now, acts, false), Run(now, acts + [WorkOn], false);
            var job, job' := JobAt(d.worker, i), JobAt(d'.worker, i);
            job.Measure? && job.sensorPc.Think? ==>
              var seen := job.sensorPc.seen;
              var rs := d.slots[i].lock.readings + [Reading(d.now, job.sensorPc.occupied, seen)];
              && d'.slots[i].lock.readings == rs
              && (job' == Measure(PutLock(seen, Locking)) <==>
                  (seen == Free || seen == Timing) && LockDue(Epoch(rs), |Epoch(rs)| - 1))
  {
    hide SlotOk, LockDue, Epoch, Run, Step;
    var d := Run(now, acts, false);
    SlotInRun(now, acts, i);
    RunStep(now, acts, WorkOn);
    var job := JobAt(d.worker, i);
    if job.Measure? && job.sensorPc.Think? {
      LockDecisionAt(d, i);
    }
  }

  lemma RunStep(now: int, acts: seq<Action>, a: Action)
    ensures Run(now, acts + [a], false) == Step(Run(now, acts, false), a, false)
  {
    hide Step;
    assert (acts + [a])[..|acts|] == acts;
  }

  lemma LockDecisionAt(d: State, i: nat)
    requires Shaped(d) && i < NUM_SPACES && SlotOk(d.slots[i], JobAt(d.worker, i), d.now)
    requires var job := JobAt(d.worker, i); job.Measure? && job.sensorPc.Think?
    ensures var d' := Step(d, WorkOn, false);
            var job := JobAt(d.worker, i);
            var seen := job.sensorPc.seen;
            var rs := d.slots[i].lock.readings + [Reading(d.now, job.sensorPc.occupied, seen)];
            && Shaped(d')
            && d'.slots[i].lock.readings == rs
            && (JobAt(d'.worker, i) == Measure(PutLock(seen, Locking)) <==>
                (seen == Free || seen == Timing) && LockDue(Epoch(rs), |Epoch(rs)| - 1))
  {
    hide SlotOk, LockDue, Epoch, HistoryOk, BoltOk, EchoWorkOk, EchoOk;
    var sl, job := d.slots[i], JobAt(d.worker, i);
    LockOf(sl, job, d.now);
    EchoOf(sl, job, d.now);
    LocksWhenDue(sl.lock, job.sensorPc.occupied, job.sensorPc.seen, d.now);
  }

  /** While the lock word is (about to be) TIMING a stay is in progress: the timer runs
      from its first reading, and the counter is the length of the run of empty readings
      at the end. */
  lemma {:induction false} TimingIsAStay(now: int, acts: seq<Action>, i: nat)
    requires i < NUM_SPACES
    ensures var d := Run(now, acts, false);
            var l := d.slots[i].lock;
            var e := Epoch(l.readings);
            && (LockWord(l, JobAt(d.worker, i)) == Timing ==> TimerMeans(e, |e|, Timer.Timer(Timing, l.start, l.count)))
            && (LockWord(l, JobAt(d.worker, i)) == Free ==> forall k :: 0 <= k < |e| ==> !StaySince(e, k, |e|))
  {
    hide SlotOk, Run;
    var d := Run(now, acts, false);
    SlotInRun(now, acts, i);
    var l := d.slots[i].lock;
    EchoOf(d.slots[i], JobAt(d.worker, i), d.now);
    EpochIsOrdered(l.readings);
    TrackMeaning(Epoch(l.readings), |Epoch(l.readings)|);
  }

  /** While the worker is in an item, only its own steps move it on. */
  lemma OthersLeaveWorker(d: State, a: Action)
    requires Shaped(d) && d.worker.Busy? && a != WorkOn
    ensures Step(d, a, false).worker == d.worker
  {
    hide SlotStep;
    forall i: nat, act | i < NUM_SPACES && act != Work && act != BeginSensor && act != BeginLock
      ensures SlotStep(d.slots[i], JobAt(d.worker, i), act, d.now, false).job == JobAt(d.worker, i)
    {
      OnlyWorkerTakesJobs(d.slots[i], JobAt(d.worker, i), act, d.now);
    }
  }

  lemma {:induction false} WorkerWaits(now: int, acts: seq<Action>, others: seq<Action>)
    requires WorkOn !in others
    ensures Run(now, acts, false).worker.Busy? ==> Run(now, acts + others, false).worker == Run(now, acts, false).worker
  {
    hide Run, Step;
    if others == [] {
      assert acts + others == acts;
    } else {
      var before, a := others[..|others| - 1], others[|others| - 1];
      WorkerWaits(now, acts, before);
      assert acts + others == acts + before + [a];
      RunStep(now, acts + before, a);
      if Run(now, acts, false).worker.Busy? {
        OthersLeaveWorker(Run(now, acts + before, false), a);
      }
    }
  }

  /** Only an accepted reading can change anything.  A sensor item first frees the sensor and
      touches nothing else; then, whatever the other contexts have done meanwhile, it
      ends without changing anything if and only if the pulse it took is not of 1 to
      23200 whole microseconds. */
  lemma {:induction false} RejectedEchoChangesNothing(now: int, acts: seq<Action>, others: seq<Action>, i: nat)
    requires i < NUM_SPACES && WorkOn !in others
    ensures var d, d1 := Run(now, acts, false), Run(now, acts + [WorkOn], false);
            var d2, d3 := Run(now, acts + [WorkOn] + others, false), Run(now, acts + [WorkOn] + others + [WorkOn], false);
            var e := d.slots[i].echo;
            JobAt(d.worker, i) == Measure(Snapshot) ==>
              && d1 == d.(slots := d.slots[i := d.slots[i].(echo := e.(st := EchoIdle))], worker := d1.worker)
              && (d3 == d2.(worker := Resting) <==> !(1000 <= e.stop - e.start < 23_201_000))
  {
    hide Run, Step;
    var d := Run(now, acts, false);
    if JobAt(d.worker, i) == Measure(Snapshot) {
      RunStep(now, acts, WorkOn);
      SnapshotFrees(d, i);
      WorkerWaits(now, acts + [WorkOn], others);
      RunStep(now, acts + [WorkOn] + others, WorkOn);
      JudgeRejects(Run(now, acts + [WorkOn] + others, false), i);
    }
  }

  lemma SnapshotFrees(d: State, i: nat)
    requires Shaped(d) && i < NUM_SPACES && JobAt(d.worker, i) == Measure(Snapshot)
    ensures var e := d.slots[i].echo;
            Step(d, WorkOn, false) == d.(slots := d.slots[i := d.slots[i].(echo := e.(st := EchoIdle))],
                                         worker := Busy(i, Measure(Judge(e.start, e.stop, LastTrigger(e)))))
  {
    assert d.queue + [] == d.queue;
  }

  lemma JudgeRejects(d: State, i: nat)
    requires Shaped(d) && i < NUM_SPACES && JobAt(d.worker, i).Measure? && JobAt(d.worker, i).sensorPc.Judge?
    ensures var pc := JobAt(d.worker, i).sensorPc;
            Step(d, WorkOn, false) == d.(worker := Resting) <==> !(1000 <= pc.stop - pc.start < 23_201_000)
  {
    assert d.queue + [] == d.queue;
    assert d.slots[i := d.slots[i]] == d.slots;
  }

  // ---- The button -------------------------------------------------------------------

  /** In every run the presses of a slot's button are debounced: of those judged, accepted
      ones are at least 300 ms apart (and after time 0), and one is turned away only less
      than 300 ms after an accepted one; and no other choice would do. */
  lemma {:induction false} ButtonIsDebounced(now: int, acts: seq<Action>, i: nat)
    requires i < NUM_SPACES
    ensures var l := Run(now, acts, false).slots[i].lock;
            && |l.presses| == |l.marks| + One(l.btn.BtnTimed?)
            && forall choice :: Debounce.Debounced(0, 300_000_000, l.presses[..|l.marks|], choice) <==> choice == l.marks
  {
    hide SlotOk, Run, Debounce.Debounced, Debounce.Accepted;
    var d := Run(now, acts, false);
    SlotInRun(now, acts, i);
    PressesOf(d.slots[i], JobAt(d.worker, i), d.now);
    var l := d.slots[i].lock;
    forall choice ensures Debounce.Debounced(0, BOUNCE_NS, l.presses[..|l.marks|], choice) <==> choice == l.marks {
      Debounce.AcceptsGreedily(0, BOUNCE_NS, l.presses[..|l.marks|], choice);
    }
  }

  lemma PressesOf(sl: Slot, job: Job, now: int)
    requires SlotOk(sl, job, now)
    ensures PressesOk(sl.lock)
  {
  }

  // ---- The reader -------------------------------------------------------------------

  /** No lost status change: in every run, an occupancy the reader has not picked up is
      announced by the flag, or about to be, or the reader has yet to pick it up. */
  lemma {:induction false} NoLostChange(now: int, acts: seq<Action>, i: nat)
    requires i < NUM_SPACES
    ensures var d := Run(now, acts, false);
            d.slots[i].report.taken != d.slots[i].report.occupied ==>
              d.changed || AboutToRaise(JobAt(d.worker, i)) || ToTake(d.reader, i)
  {
    hide SlotOk;
    RunKeepsInv(now, acts);
  }

  // ---- Draining ---------------------------------------------------------------------

  function MoveCost(pc: LockPc): nat {
    match pc
    case ReadPending => LOCK_STEPS + 4
    case Turn(_, done) => if done <= LOCK_STEPS then LOCK_STEPS + 3 - done else 3
    case PowerOff(_) => 2
    case Finish(_) => 1
  }

  const LOCK_TASK_COST := LOCK_STEPS + 5

  /** What raising the flag costs the reader: waking, clearing, four picks, returning. */
  const FLAG_COST := 7

  function SensorCost(pc: SensorPc): nat {
    match pc
    case PutQueue => LOCK_TASK_COST + 1
    case PutPending => LOCK_TASK_COST + 2
    case PutLock(_, _) => LOCK_TASK_COST + 3
    case Think(_, _) => LOCK_TASK_COST + 4
    case ReadLock(_) => LOCK_TASK_COST + 5
    case Notify(_, _) => LOCK_TASK_COST + FLAG_COST + 6
    case PutLed(_, _) => LOCK_TASK_COST + FLAG_COST + 7
    case PutOccupied(_, _) => LOCK_TASK_COST + FLAG_COST + 8
    case PutDistance(_, _, _) => LOCK_TASK_COST + FLAG_COST + 9
    case Judge(_, _, _) => LOCK_TASK_COST + FLAG_COST + 10
    case Snapshot => LOCK_TASK_COST + FLAG_COST + 11
  }

  const SENSOR_TASK_COST := LOCK_TASK_COST + FLAG_COST + 12

  function TaskCost(t: Task): nat { if t.SensorTask? then SENSOR_TASK_COST else LOCK_TASK_COST }

  function QueueCost(q: seq<Task>): nat {
    if q == [] then 0 else QueueCost(q[..|q| - 1]) + TaskCost(q[|q| - 1])
  }

  function JobCost(j: Job): nat {
    match j
    case NoJob => 0
    case Measure(pc) => SensorCost(pc)
    case Move(pc) => MoveCost(pc)
  }

  function WorkerCost(w: Worker): nat { if w.Busy? then JobCost(w.job) else 0 }

  function ButtonCost(b: BtnIsr): nat {
    match b
    case BtnQuiet => 0
    case BtnCleared => LOCK_TASK_COST + 1
    case BtnStored => LOCK_TASK_COST + 2
    case BtnSawLocked => LOCK_TASK_COST + 3
    case BtnAccepted => LOCK_TASK_COST + 4
    case BtnTimed(_) => LOCK_TASK_COST + 5
  }

  function IsrCost(sl: Slot): nat {
    ButtonCost(sl.lock.btn) + if sl.echo.isr.EchoSampled? then SENSOR_TASK_COST + 1 else 0
  }

  function Missing<T>(o: Option<T>): nat { if o.None? then 1 else 0 }

  function ReaderCost(r: Reader, changed: bool): nat {
    match r
    case Sleeping => if changed then FLAG_COST else 0
    case Woken => FLAG_COST - 1
    case Collecting(os, ds) =>
      (if changed then FLAG_COST else 0) + 1 +
      (if |os| == NUM_SPACES && |ds| == NUM_SPACES then Missing(os[0]) + Missing(os[1]) + Missing(ds[0]) + Missing(ds[1]) else 0)
  }

  /** Work left in the driver when no new interrupt comes in. */
  function WorkLeft(d: State): nat
    requires |d.slots| == NUM_SPACES
  {
    QueueCost(d.queue) + WorkerCost(d.worker) + IsrCost(d.slots[0]) + IsrCost(d.slots[1]) + ReaderCost(d.reader, d.changed)
  }

  /** Steps the driver takes on its own account: the worker, the interrupt handlers that
      have begun, and the reader. */
  predicate Internal(a: Action) {
    a == Dequeue || a == WorkOn || a.ButtonGo? || a.EchoCommit? || a == Wake || a == Clear || a.PickOccupied? || a.PickDistance? || a == Return
  }

  /** Nothing is left to do but wait for the timer and for interrupts. */
  predicate Quiet(d: State)
    requires |d.slots| == NUM_SPACES
  {
    && d.queue == [] && d.worker == Resting && d.reader == Sleeping && !d.changed
    && d.slots[0].lock.btn == BtnQuiet && d.slots[1].lock.btn == BtnQuiet
    && d.slots[0].echo.isr == EchoQuiet && d.slots[1].echo.isr == EchoQuiet
  }

  /** What is left after a step at a slot, with the cost of what it caused. */
  function CostAfter(o: Outcome): nat {
    JobCost(o.job) + IsrCost(o.slot) + (if o.addSensor then SENSOR_TASK_COST else 0)
    + (if o.addLock then LOCK_TASK_COST else 0) + (if o.raise then FLAG_COST else 0)
  }

  lemma SensorStepCost(sl: Slot, pc: SensorPc, now: int)
    ensures CostAfter(SensorStep(sl, pc, now, false)) < SensorCost(pc) + IsrCost(sl)
  {
  }

  lemma LockStepCost(sl: Slot, pc: LockPc)
    requires Drivable(sl.bolt)
    ensures CostAfter(LockStep(sl, pc, false)) < MoveCost(pc) + IsrCost(sl)
  {
  }

  lemma ButtonStepCost(sl: Slot, job: Job)
    requires sl.lock.btn != BtnQuiet
    ensures CostAfter(ButtonStep(sl, job, false)) < JobCost(job) + IsrCost(sl)
  {
  }

  lemma SlotStepCost(sl: Slot, job: Job, act: SlotAct, now: int)
    requires Drivable(sl.bolt)
    requires act == Work || act == Button || act == Commit
    requires act == Work ==> job != NoJob
    ensures var o := SlotStep(sl, job, act, now, false);
            CostAfter(o) < JobCost(job) + IsrCost(sl)
            || (act == Button && sl.lock.btn == BtnQuiet && o == Quietly(sl, job))
            || (act == Commit && sl.echo.isr == EchoQuiet && o == Quietly(sl, job))
  {
    match act {
      case Button => if sl.lock.btn != BtnQuiet { ButtonStepCost(sl, job); }
      case Work =>
        match job {
          case Measure(pc) => SensorStepCost(sl, pc, now);
          case Move(pc) => LockStepCost(sl, pc);
        }
      case Commit =>
    }
  }

  lemma QueueCostGrows(q: seq<Task>, t: Task)
    ensures QueueCost(q + [t]) == QueueCost(q) + TaskCost(t)
  {
    assert (q + [t])[..|q|] == q;
  }

  lemma {:induction false} QueueCostHead(q: seq<Task>)
    requires q != []
    ensures QueueCost(q) == TaskCost(q[0]) + QueueCost(q[1..])
  {
    if |q| > 1 {
      QueueCostHead(q[..|q| - 1]);
      assert q[..|q| - 1][1..] == q[1..][..|q| - 2];
    }
  }

  lemma AppendedCost(q: seq<Task>, o: Outcome, i: nat)
    ensures QueueCost(q + Appended(o, i))
            == QueueCost(q) + (if o.addSensor then SENSOR_TASK_COST else 0) + (if o.addLock then LOCK_TASK_COST else 0)
  {
    hide QueueCost;
    var s := if o.addSensor then q + [SensorTask(i)] else q;
    if o.addSensor {
      QueueCostGrows(q, SensorTask(i));
    }
    if o.addLock {
      QueueCostGrows(s, LockTask(i));
    }
    assert q + Appended(o, i) == if o.addLock then s + [LockTask(i)] else s;
  }

  lemma RaiseCost(r: Reader, changed: bool, raise: bool)
    ensures ReaderCost(r, changed || raise) <= ReaderCost(r, changed) + (if raise then FLAG_COST else 0)
  {
  }

  lemma WorkerAfterCost(w: Worker, i: nat, job: Job)
    requires w.Busy? ==> w.job != NoJob
    requires JobAt(w, i) == NoJob ==> job == NoJob
    ensures WorkerCost(WorkerAfter(w, i, job)) + JobCost(JobAt(w, i)) == WorkerCost(w) + JobCost(job)
  {
    NoJobIsFree();
  }

  lemma AtCost(d: State, i: nat, act: SlotAct)
    requires Inv(d) && i < NUM_SPACES
    requires act == Work || act == Button || act == Commit
    requires act == Work ==> d.worker.Busy? && d.worker.slot == i
    ensures At(d, i, act, false) == d || WorkLeft(At(d, i, act, false)) < WorkLeft(d)
  {
    hide SlotOk, SlotStep, QueueOk, ReaderOk, SlotsOk, JobCost, IsrCost, QueueCost, ReaderCost, WorkerCost, WorkerAfter, Appended;
    var sl, job := d.slots[i], JobAt(d.worker, i);
    var o := SlotStep(sl, job, act, d.now, false);
    var d' := At(d, i, act, false);
    SlotStepCost(sl, job, act, d.now);
    OnlyWorkerTakesJobs(sl, job, act, d.now);
    if o == Quietly(sl, job) {
      NothingAt(d, i, act);
    } else {
      AppendedCost(d.queue, o, i);
      RaiseCost(d.reader, d.changed, o.raise);
      WorkerAfterCost(d.worker, i, o.job);
    }
  }

  lemma NothingAt(d: State, i: nat, act: SlotAct)
    requires Shaped(d) && i < NUM_SPACES
    requires SlotStep(d.slots[i], JobAt(d.worker, i), act, d.now, false) == Quietly(d.slots[i], JobAt(d.worker, i))
    ensures At(d, i, act, false) == d
  {
    hide SlotStep;
    assert d.slots[i := d.slots[i]] == d.slots;
    assert d.queue + [] == d.queue;
  }

  lemma NoJobIsFree()
    ensures JobCost(NoJob) == 0
  {
  }

  /** Every internal step that does anything leaves less to do, even though sensor work
      may queue lock work and raise the flag. */
  lemma InternalStepsDescend(d: State, a: Action)
    requires Inv(d) && Internal(a)
    ensures Step(d, a, false) == d || WorkLeft(Step(d, a, false)) < WorkLeft(d)
  {
    hide SlotOk, At, QueueOk, ReaderOk, SlotsOk;
    match a {
      case Dequeue =>
        if d.worker == Resting && d.queue != [] {
          DequeueCost(d);
        }
      case WorkOn => if d.worker.Busy? { AtCost(d, d.worker.slot, Work); }
      case ButtonGo(i) => if i < NUM_SPACES { AtCost(d, i, Button); } else { assert Step(d, a, false) == d by { AtOutside(d, i, Button); } }
      case EchoCommit(i) => if i < NUM_SPACES { AtCost(d, i, Commit); } else { assert Step(d, a, false) == d by { AtOutside(d, i, Commit); } }
      case PickOccupied(i) => PickCost(d, i);
      case _ =>
    }
  }

  lemma AtOutside(d: State, i: nat, act: SlotAct)
    requires Shaped(d) && i >= NUM_SPACES
    ensures At(d, i, act, false) == d
  {
  }

  /** Filling one gap leaves the reader one less to fill. */
  lemma PickReaderCost(r: Reader, i: nat, v: bool, changed: bool)
    requires r.Collecting? && |r.occupied| == NUM_SPACES && |r.distance| == NUM_SPACES && i < NUM_SPACES && r.occupied[i].None?
    ensures ReaderCost(r.(occupied := r.occupied[i := Some(v)]), changed) < ReaderCost(r, changed)
  {
  }

  lemma PickCost(d: State, i: nat)
    requires Inv(d)
    ensures var d' := Step(d, PickOccupied(i), false); d' == d || WorkLeft(d') < WorkLeft(d)
  {
    hide SlotOk, SlotStep, QueueOk, ReaderOk, SlotsOk, ReaderCost, QueueCost, WorkerCost;
    if d.reader.Collecting? && i < NUM_SPACES && d.reader.occupied[i].None? {
      TakeOnlyTakes(d.slots[i], JobAt(d.worker, i), d.now);
      PickReaderCost(d.reader, i, d.slots[i].report.occupied, d.changed);
      var d' := Step(d, PickOccupied(i), false);
      assert d'.queue == d.queue && d'.worker == d.worker && d'.changed == d.changed;
      assert IsrCost(d'.slots[i]) == IsrCost(d.slots[i]);
    }
  }

  lemma DequeueCost(d: State)
    requires Inv(d) && d.worker == Resting && d.queue != []
    ensures WorkLeft(Step(d, Dequeue, false)) < WorkLeft(d)
  {
    hide SlotOk, SlotStep, QueueOk, ReaderOk, SlotsOk;
    var t := d.queue[0];
    var act := if t.SensorTask? then BeginSensor else BeginLock;
    assert t in d.queue && t.slot < NUM_SPACES && (if t.SensorTask? then d.slots[t.slot].echo.queued else d.slots[t.slot].lock.queued) by { HeadIsPending(d); }
    QueueCostHead(d.queue);
    BeginsJob(d.slots[t.slot], act, d.now);
    BeginTouchesPendingOnly(d.slots[t.slot], act, d.now);
    assert Step(d, Dequeue, false).queue == d.queue[1..];
  }

  lemma HeadIsPending(d: State)
    requires |d.slots| == NUM_SPACES && QueueOk(d) && d.queue != []
    ensures var t := d.queue[0];
            t in d.queue && t.slot < NUM_SPACES && (if t.SensorTask? then d.slots[t.slot].echo.queued else d.slots[t.slot].lock.queued)
  {
    assert d.queue[0] in d.queue;
  }

  lemma BeginTouchesPendingOnly(sl: Slot, act: SlotAct, now: int)
    requires Drivable(sl.bolt) && (act == BeginSensor || act == BeginLock)
    ensures var o := SlotStep(sl, NoJob, act, now, false);
            o.slot.lock.btn == sl.lock.btn && o.slot.echo.isr == sl.echo.isr && !o.addSensor && !o.addLock && !o.raise
  {
  }

  lemma BusySlotSteps(d: State, i: nat, act: SlotAct)
    requires Shaped(d) && i < NUM_SPACES && At(d, i, act, false) == d
    requires (act == Work && d.worker.Busy? && d.worker.slot == i) || act == Button || act == Commit
    ensures act != Work
    ensures act == Button ==> d.slots[i].lock.btn == BtnQuiet
    ensures act == Commit ==> d.slots[i].echo.isr == EchoQuiet
  {
    hide SlotStep, JobCost, IsrCost;
    var sl, job := d.slots[i], JobAt(d.worker, i);
    var o := SlotStep(sl, job, act, d.now, false);
    SlotStepCost(sl, job, act, d.now);
    OnlyWorkerTakesJobs(sl, job, act, d.now);
    assert d.slots[i := o.slot][i] == o.slot;
    assert d.queue + Appended(o, i) == d.queue ==> |Appended(o, i)| == 0;
    NoJobIsFree();
    RaisesOnlyAtNotify(sl, job, act, d.now);
  }

  lemma RaisesOnlyAtNotify(sl: Slot, job: Job, act: SlotAct, now: int)
    requires Drivable(sl.bolt)
    ensures var o := SlotStep(sl, job, act, now, false); o.raise ==> o.job != job
  {
  }

  /** When no internal step does anything, the driver is quiet. */
  lemma StuckIsQuiet(d: State)
    requires Inv(d)
    requires forall a :: Internal(a) ==> Step(d, a, false) == d
    ensures Quiet(d)
  {
    hide SlotOk, SlotsOk, ReaderOk, QueueOk, At;
    assert Step(d, Dequeue, false) == d && Step(d, WorkOn, false) == d;
    assert Step(d, Wake, false) == d && Step(d, Clear, false) == d && Step(d, Return, false) == d;
    assert Step(d, ButtonGo(0), false) == d && Step(d, ButtonGo(1), false) == d;
    assert Step(d, EchoCommit(0), false) == d && Step(d, EchoCommit(1), false) == d;
    BusySlotSteps(d, 0, Button);
    BusySlotSteps(d, 1, Button);
    BusySlotSteps(d, 0, Commit);
    BusySlotSteps(d, 1, Commit);
    if d.worker.Busy? {
      BusySlotSteps(d, d.worker.slot, Work);
    } else if d.queue != [] {
      DequeueCost(d);
    }
    if d.reader.Collecting? {
      CollectingGoesOn(d);
    }
  }

  lemma CollectingGoesOn(d: State)
    requires Inv(d) && d.reader.Collecting?
    ensures exists a :: Internal(a) && Step(d, a, false) != d
  {
    hide SlotOk, SlotsOk, ReaderOk, QueueOk, SlotStep;
    if Complete(d.reader) {
      assert Internal(Return) && Step(d, Return, false).reader == Sleeping;
    } else if d.reader.occupied[0].None? {
      assert Internal(PickOccupied(0)) && Step(d, PickOccupied(0), false).reader.occupied[0].Some?;
    } else if d.reader.occupied[1].None? {
      assert Internal(PickOccupied(1)) && Step(d, PickOccupied(1), false).reader.occupied[1].Some?;
    } else if d.reader.distance[0].None? {
      assert Internal(PickDistance(0)) && Step(d, PickDistance(0), false).reader.distance[0].Some?;
    } else {
      assert Internal(PickDistance(1)) && Step(d, PickDistance(1), false).reader.distance[1].Some?;
    }
  }
}
