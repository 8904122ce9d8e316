/** What the contexts of the RPI1 driver achieve, in every run: the steps that have to happen,
    beside DriverTheorems, which says what never happens. */
module DriverLaws {
  import opened Options
  import opened LockHistory
  import opened SlotMachine
  import opened SlotInvariants
  import opened Driver
  import opened DriverTheorems

  /** d with the slot i replaced. */
  function WithSlot(d: State, i: nat, sl: Slot): State
    requires i < |d.slots|
  {
    d.(slots := d.slots[i := sl])
  }

  /** Time passes and nothing else happens by it. */
  lemma {:induction false} TimePasses(now: int, acts: seq<Action>, ns: nat)
    ensures var d := Run(now, acts, false); Run(now, acts + [Tick(ns)], false) == d.(now := d.now + ns)
  {
    hide Run;
    RunStep(now, acts, Tick(ns));
  }

  // ---- Measuring --------------------------------------------------------------------

  /** A tick makes an idle sensor wait for its echo, marks the trigger, and leaves a busy one
      and everything else alone. */
  lemma {:induction false} TimerArms(now: int, acts: seq<Action>, i: nat)
    requires i < NUM_SPACES
    ensures var d := Run(now, acts, false);
            var sl := d.slots[i];
            Run(now, acts + [TimerFires(i)], false)
            == if sl.echo.st == EchoIdle
               then WithSlot(d, i, sl.(echo := sl.echo.(st := WaitHigh, triggers := sl.echo.triggers + [|sl.echo.edges|])))
               else d
  {
    hide Run;
    RunStep(now, acts, TimerFires(i));
    NothingQueued(Run(now, acts, false).queue);
    SameSlot(Run(now, acts, false), i);
  }

  lemma NothingQueued(q: seq<Task>)
    ensures q + [] == q
  {
  }

  lemma SameSlot(d: State, i: nat)
    requires i < |d.slots|
    ensures WithSlot(d, i, d.slots[i]) == d
  {
  }

  /** An echo interrupt takes the time and the level of the pin it finds, unless one is still
      at work, and does nothing else. */
  lemma {:induction false} InterruptSamples(now: int, acts: seq<Action>, i: nat, high: bool)
    requires i < NUM_SPACES
    ensures var d := Run(now, acts, false);
            var sl := d.slots[i];
            Run(now, acts + [EchoIrq(i, high)], false)
            == if sl.echo.isr == EchoQuiet then WithSlot(d, i, sl.(echo := sl.echo.(isr := EchoSampled(Edge(d.now, high))))) else d
  {
    hide Run;
    RunStep(now, acts, EchoIrq(i, high));
    NothingQueued(Run(now, acts, false).queue);
    SameSlot(Run(now, acts, false), i);
  }

  /** An interrupt that has sampled the pin moves the measurement on: a high sample starts
      the pulse of a sensor that waits for one, a low sample ends the pulse of one that has
      seen it rise and puts its work last in the queue; any other sample is only noted. */
  lemma {:induction false} EdgesAdvance(now: int, acts: seq<Action>, i: nat)
    requires i < NUM_SPACES
    ensures var d, d' := Run(now, acts, false), Run(now, acts + [EchoCommit(i)], false);
            var sl := d.slots[i];
            sl.echo.isr.EchoSampled? ==>
              var edge := sl.echo.isr.edge;
              var e := sl.echo.(isr := EchoQuiet, edges := sl.echo.edges + [edge]);
              if e.st == WaitHigh && edge.high then d' == WithSlot(d, i, sl.(echo := e.(st := WaitLow, start := edge.time)))
              else if e.st == WaitLow && !edge.high then
                d' == WithSlot(d, i, sl.(echo := e.(st := EchoDone, stop := edge.time, queued := true))).(queue := d.queue + [SensorTask(i)])
              else d' == WithSlot(d, i, sl.(echo := e))
  {
    hide Run, SlotOk;
    var d := Run(now, acts, false);
    RunStep(now, acts, EchoCommit(i));
    NothingQueued(d.queue);
    NothingQueued([SensorTask(i)]);
    SlotInRun(now, acts, i);
    LockOf(d.slots[i], JobAt(d.worker, i), d.now);
  }

  /** Storing the occupancy, lighting the lamp and announcing: whatever the other contexts
      do in between, the slot is then occupied and its lamp lit exactly for a pulse under
      348 us, and the flag is raised exactly if that is not what was reported before. */
  lemma {:induction false} ChangeIsAnnounced(now: int, acts: seq<Action>, o1: seq<Action>, o2: seq<Action>, i: nat)
    requires i < NUM_SPACES && WorkOn !in o1 && WorkOn !in o2
    ensures var d := Run(now, acts, false);
            var stored := Run(now, acts + [WorkOn], false);
            var lit := Run(now, acts + [WorkOn] + o1 + [WorkOn], false);
            var before, after := Run(now, acts + [WorkOn] + o1 + [WorkOn] + o2, false), Run(now, acts + [WorkOn] + o1 + [WorkOn] + o2 + [WorkOn], false);
            Updating(JobAt(d.worker, i)) ==>
              var occupied := JobAt(d.worker, i).sensorPc.us < 348;
              && stored.slots[i].report.occupied == occupied
              && lit.slots[i].report.led == occupied
              && after.changed == (before.changed || d.slots[i].report.occupied != occupied)
              && JobAt(before.worker, i).Measure? && JobAt(before.worker, i).sensorPc.Notify?
  {
    hide Run, Step, SlotOk;
    var d := Run(now, acts, false);
    var job := JobAt(d.worker, i);
    if Updating(job) {
      var us, prev := job.sensorPc.us, job.sensorPc.prev;
      SlotInRun(now, acts, i);
      ValuesOf(d.slots[i], job, d.now);
      var a1 := acts + [WorkOn];
      RunStep(now, acts, WorkOn);
      ReportSteps(d, i);
      WorkerWaits(now, a1, o1);
      RunStep(now, a1 + o1, WorkOn);
      ReportSteps(Run(now, a1 + o1, false), i);
      var a2 := a1 + o1 + [WorkOn];
      WorkerWaits(now, a2, o2);
      RunStep(now, a2 + o2, WorkOn);
      ReportSteps(Run(now, a2 + o2, false), i);
    }
  }

  /** An accepted pulse is reported: whatever the other contexts do in between, the worker
      goes from judging it to storing its length in whole centimetres of 58 us, and on to
      the occupancy. */
  lemma {:induction false} PulseIsReported(now: int, acts: seq<Action>, others: seq<Action>, i: nat)
    requires i < NUM_SPACES && WorkOn !in others
    ensures var d, d' := Run(now, acts, false), Run(now, acts + [WorkOn] + others + [WorkOn], false);
            var job, job' := JobAt(d.worker, i), JobAt(d'.worker, i);
            job.Measure? && job.sensorPc.Judge? && 1000 <= job.sensorPc.stop - job.sensorPc.start < 23_201_000 ==>
              var length := job.sensorPc.stop - job.sensorPc.start;
              && 58_000 * d'.slots[i].report.distance <= length < 58_000 * (d'.slots[i].report.distance + 1)
              && Updating(job') && 1000 * job'.sensorPc.us <= length < 1000 * (job'.sensorPc.us + 1)
  {
    hide Run, Step;
    var job := JobAt(Run(now, acts, false).worker, i);
    if job.Measure? && job.sensorPc.Judge? && 1000 <= job.sensorPc.stop - job.sensorPc.start < 23_201_000 {
      RunStep(now, acts, WorkOn);
      JudgeAccepts(Run(now, acts, false), i);
      WorkerWaits(now, acts + [WorkOn], others);
      RunStep(now, acts + [WorkOn] + others, WorkOn);
      DistanceStored(Run(now, acts + [WorkOn] + others, false), i);
    }
  }

  lemma JudgeAccepts(d: State, i: nat)
    requires Shaped(d) && i < NUM_SPACES && JobAt(d.worker, i).Measure? && JobAt(d.worker, i).sensorPc.Judge?
    requires var pc := JobAt(d.worker, i).sensorPc; 1000 <= pc.stop - pc.start < 23_201_000
    ensures var pc, w := JobAt(d.worker, i).sensorPc, Step(d, WorkOn, false).worker;
            && w.Busy? && w.slot == i && w.job.Measure? && w.job.sensorPc.PutDistance?
            && 1000 * w.job.sensorPc.us <= pc.stop - pc.start < 1000 * (w.job.sensorPc.us + 1)
  {
  }

  lemma DistanceStored(d: State, i: nat)
    requires Shaped(d) && i < NUM_SPACES && JobAt(d.worker, i).Measure? && JobAt(d.worker, i).sensorPc.PutDistance?
    ensures var pc, d' := JobAt(d.worker, i).sensorPc, Step(d, WorkOn, false);
            && 58 * d'.slots[i].report.distance <= pc.us < 58 * (d'.slots[i].report.distance + 1)
            && Updating(JobAt(d'.worker, i)) && JobAt(d'.worker, i).sensorPc.us == pc.us
  {
  }

  /** And it is judged: after the announcement the worker reads the lock word, and then,
      whatever the others do in between, the reading that goes on record is the occupancy
      just reported, with the time it is judged and the lock word that was read. */
  lemma {:induction false} ReportIsJudged(now: int, acts: seq<Action>, o1: seq<Action>, o2: seq<Action>, i: nat)
    requires i < NUM_SPACES && WorkOn !in o1 && WorkOn !in o2
    ensures var d := Run(now, acts, false);
            var seen := Run(now, acts + [WorkOn] + o1, false);
            var before, after := Run(now, acts + [WorkOn] + o1 + [WorkOn] + o2, false), Run(now, acts + [WorkOn] + o1 + [WorkOn] + o2 + [WorkOn], false);
            var job := JobAt(d.worker, i);
            job.Measure? && job.sensorPc.Notify? ==>
              after.slots[i].lock.readings
              == before.slots[i].lock.readings + [Reading(before.now, d.slots[i].report.occupied, seen.slots[i].lock.st)]
  {
    hide Run, Step, SlotOk;
    var d := Run(now, acts, false);
    var job := JobAt(d.worker, i);
    if job.Measure? && job.sensorPc.Notify? {
      SlotInRun(now, acts, i);
      ValuesOf(d.slots[i], job, d.now);
      var a1 := acts + [WorkOn];
      RunStep(now, acts, WorkOn);
      JudgeSteps(d, i);
      WorkerWaits(now, a1, o1);
      RunStep(now, a1 + o1, WorkOn);
      JudgeSteps(Run(now, a1 + o1, false), i);
      var a2 := a1 + o1 + [WorkOn];
      WorkerWaits(now, a2, o2);
      RunStep(now, a2 + o2, WorkOn);
      JudgeSteps(Run(now, a2 + o2, false), i);
    }
  }

  lemma JudgeSteps(d: State, i: nat)
    requires Shaped(d) && i < NUM_SPACES
    ensures var job, d' := JobAt(d.worker, i), Step(d, WorkOn, false);
            && Shaped(d')
            && (job.Measure? && job.sensorPc.Notify? ==> d'.worker == Busy(i, Measure(ReadLock(job.sensorPc.occupied))))
            && (job.Measure? && job.sensorPc.ReadLock? ==>
                  d'.worker == Busy(i, Measure(Think(job.sensorPc.occupied, d.slots[i].lock.st))))
            && (job.Measure? && job.sensorPc.Think? ==>
                  d'.slots[i].lock.readings
                  == d.slots[i].lock.readings + [Reading(d.now, job.sensorPc.occupied, job.sensorPc.seen)])
  {
  }

  lemma ReportSteps(d: State, i: nat)
    requires Shaped(d) && i < NUM_SPACES
    ensures var job, d' := JobAt(d.worker, i), Step(d, WorkOn, false);
            && Shaped(d')
            && (Updating(job) ==>
                  var pc := job.sensorPc;
                  d'.slots[i].report.occupied == (pc.us < 348) && d'.worker == Busy(i, Measure(PutLed(pc.us, pc.prev))))
            && (Lighting(job) ==>
                  var pc := job.sensorPc;
                  d'.slots[i].report.led == (pc.us < 348) && d'.worker == Busy(i, Measure(Notify(pc.us < 348, pc.prev))))
            && (job.Measure? && job.sensorPc.Notify? ==>
                  d'.changed == (d.changed || job.sensorPc.occupied != job.sensorPc.prev))
  {
  }

  /** Nothing else raises the flag. */
  lemma {:induction false} OnlyChangesRaise(now: int, acts: seq<Action>, a: Action)
    ensures var d, d' := Run(now, acts, false), Run(now, acts + [a], false);
            d'.changed && !d.changed ==> a == WorkOn && d.worker.Busy? && d.worker.job.Measure? && d.worker.job.sensorPc.Notify?
  {
    hide Run, SlotStep;
    var d := Run(now, acts, false);
    RunStep(now, acts, a);
    forall i: nat, act | i < NUM_SPACES
      ensures SlotStep(d.slots[i], JobAt(d.worker, i), act, d.now, false).raise ==>
                act == Work && JobAt(d.worker, i).Measure? && JobAt(d.worker, i).sensorPc.Notify?
    {
      RaisesAtNotify(d.slots[i], JobAt(d.worker, i), act, d.now);
    }
  }

  lemma RaisesAtNotify(sl: Slot, job: Job, act: SlotAct, now: int)
    requires Drivable(sl.bolt)
    ensures SlotStep(sl, job, act, now, false).raise ==> act == Work && job.Measure? && job.sensorPc.Notify?
  {
  }

  // ---- The queue --------------------------------------------------------------------

  /** The queue is first in, first out: the worker takes from the front, and any other
      action adds at most one item, at the end. */
  lemma {:induction false} QueueIsFifo(now: int, acts: seq<Action>, a: Action)
    ensures var d, d' := Run(now, acts, false), Run(now, acts + [a], false);
            if a == Dequeue && d.worker == Resting && d.queue != [] then d'.queue == d.queue[1..]
            else d'.queue == d.queue || exists t :: d'.queue == d.queue + [t]
  {
    hide Run, Inv, Step;
    var d := Run(now, acts, false);
    RunKeepsInv(now, acts);
    RunStep(now, acts, a);
    QueueGrows(d, a);
  }

  lemma QueueGrows(d: State, a: Action)
    requires Inv(d)
    ensures var d' := Step(d, a, false);
            if a == Dequeue && d.worker == Resting && d.queue != [] then d'.queue == d.queue[1..]
            else d'.queue == d.queue || exists t :: d'.queue == d.queue + [t]
  {
    hide SlotStep, SlotOk, SlotsOk, ReaderOk, QueueOk;
    forall i: nat, act | i < NUM_SPACES && act != BeginSensor && act != BeginLock
      ensures At(d, i, act, false).queue == d.queue || exists t :: At(d, i, act, false).queue == d.queue + [t]
    {
      PendingBits(d.slots[i], JobAt(d.worker, i), act, d.now);
      var o := SlotStep(d.slots[i], JobAt(d.worker, i), act, d.now, false);
      if o.addSensor {
        assert At(d, i, act, false).queue == d.queue + [SensorTask(i)];
      } else if o.addLock {
        assert At(d, i, act, false).queue == d.queue + [LockTask(i)];
      }
    }
    if a == Dequeue && d.worker == Resting && d.queue != [] {
      HeadIsPending(d);
      BeginTouchesPendingOnly(d.slots[d.queue[0].slot], if d.queue[0].SensorTask? then BeginSensor else BeginLock, d.now);
    }
  }

  // ---- The button -------------------------------------------------------------------

  /** A press is taken with its time, unless the interrupt is still at work. */
  lemma {:induction false} PressIsTaken(now: int, acts: seq<Action>, i: nat)
    requires i < NUM_SPACES
    ensures var d := Run(now, acts, false);
            var l := d.slots[i].lock;
            Run(now, acts + [ButtonIrq(i)], false)
            == if l.btn == BtnQuiet then WithSlot(d, i, d.slots[i].(lock := l.(btn := BtnTimed(d.now), presses := l.presses + [d.now]))) else d
  {
    hide Run;
    RunStep(now, acts, ButtonIrq(i));
    NothingQueued(Run(now, acts, false).queue);
    SameSlot(Run(now, acts, false), i);
  }

  /** A button interrupt accepts its press exactly if 300 ms have passed since the last one
      it accepted, and notes the time. */
  lemma {:induction false} PressIsJudged(now: int, acts: seq<Action>, i: nat)
    requires i < NUM_SPACES
    ensures var d := Run(now, acts, false);
            var l := d.slots[i].lock;
            var accepted := l.btn.BtnTimed? && l.btn.time - l.lastBtn >= 300_000_000;
            l.btn.BtnTimed? ==>
              Run(now, acts + [ButtonGo(i)], false)
              == WithSlot(d, i, d.slots[i].(lock := if accepted
                                                    then l.(btn := BtnAccepted, lastBtn := l.btn.time, marks := l.marks + [true])
                                                    else l.(btn := BtnQuiet, marks := l.marks + [false])))
  {
    hide Run;
    RunStep(now, acts, ButtonGo(i));
    NothingQueued(Run(now, acts, false).queue);
  }

  lemma ButtonMoves(d: State, i: nat)
    requires Shaped(d) && i < NUM_SPACES && LockOk(d.slots[i].lock, JobAt(d.worker, i))
    ensures var l, d' := d.slots[i].lock, Step(d, ButtonGo(i), false);
            && Shaped(d')
            && (l.btn == BtnAccepted && l.st == Locked ==> d' == WithSlot(d, i, d.slots[i].(lock := l.(btn := BtnSawLocked))))
            && (l.btn == BtnAccepted && l.st != Locked ==> d' == WithSlot(d, i, d.slots[i].(lock := l.(btn := BtnQuiet))))
            && (l.btn == BtnSawLocked ==> d' == WithSlot(d, i, d.slots[i].(lock := l.(btn := BtnStored, st := Unlocking))))
            && (l.btn == BtnStored ==> d' == WithSlot(d, i, d.slots[i].(lock := l.(btn := BtnCleared, pending := false))))
            && (l.btn == BtnCleared ==>
                  d' == WithSlot(d, i, d.slots[i].(lock := l.(btn := BtnQuiet, queued := true))).(queue := d.queue + [LockTask(i)]))
  {
    NothingQueued(d.queue);
    assert [] + [LockTask(i)] == [LockTask(i)];
  }

  /** Only its own steps move a button interrupt in progress on. */
  lemma OthersLeaveButton(d: State, a: Action, i: nat)
    requires Shaped(d) && i < NUM_SPACES && a != ButtonGo(i) && d.slots[i].lock.btn != BtnQuiet
    ensures Shaped(Step(d, a, false)) && Step(d, a, false).slots[i].lock.btn == d.slots[i].lock.btn
  {
    hide SlotStep;
    StepKeepsShape(d, a, false);
    forall act | act != Button
      ensures SlotStep(d.slots[i], JobAt(d.worker, i), act, d.now, false).slot.lock.btn == d.slots[i].lock.btn
    {
      ButtonUntouched(d.slots[i], JobAt(d.worker, i), act, d.now);
    }
  }

  lemma ButtonUntouched(sl: Slot, job: Job, act: SlotAct, now: int)
    requires Drivable(sl.bolt) && act != Button && sl.lock.btn != BtnQuiet
    ensures SlotStep(sl, job, act, now, false).slot.lock.btn == sl.lock.btn
  {
  }

  lemma {:induction false} ButtonWaits(now: int, acts: seq<Action>, others: seq<Action>, i: nat)
    requires i < NUM_SPACES && ButtonGo(i) !in others
    ensures var b := Run(now, acts, false).slots[i].lock.btn;
            b != BtnQuiet ==> Run(now, acts + others, false).slots[i].lock.btn == b
  {
    hide Run, Step;
    if others == [] {
      assert acts + others == acts;
    } else {
      var before, a := others[..|others| - 1], others[|others| - 1];
      ButtonWaits(now, acts, before, i);
      assert acts + others == acts + before + [a];
      RunStep(now, acts + before, a);
      if Run(now, acts, false).slots[i].lock.btn != BtnQuiet {
        OthersLeaveButton(Run(now, acts + before, false), a, i);
      }
    }
  }

  lemma LockOfRun(now: int, acts: seq<Action>, i: nat)
    requires i < NUM_SPACES
    ensures var d := Run(now, acts, false); LockOk(d.slots[i].lock, JobAt(d.worker, i))
  {
    hide SlotOk, Run;
    var d := Run(now, acts, false);
    SlotInRun(now, acts, i);
    LockOf(d.slots[i], JobAt(d.worker, i), d.now);
  }

  /** An accepted press on a LOCKED slot unlocks it: whatever the other contexts do between
      the interrupt's steps, its second step stores UNLOCKING, and its fourth leaves the
      order to unlock at the end of the queue, the slot still UNLOCKING.  On a slot that
      is not LOCKED it does nothing. */
  lemma {:induction false} PressUnlocks(now: int, acts: seq<Action>, o1: seq<Action>, o2: seq<Action>, o3: seq<Action>, i: nat)
    requires i < NUM_SPACES && ButtonGo(i) !in o1 && ButtonGo(i) !in o2 && ButtonGo(i) !in o3
    ensures var go := [ButtonGo(i)];
            var d := Run(now, acts, false);
            var l := d.slots[i].lock;
            var stored := Run(now, acts + go + o1 + go, false);
            var before, ordered := Run(now, acts + go + o1 + go + o2 + go + o3, false), Run(now, acts + go + o1 + go + o2 + go + o3 + go, false);
            l.btn == BtnAccepted ==>
              if l.st == Locked then
                && stored.slots[i].lock.st == Unlocking
                && ordered.queue == before.queue + [LockTask(i)]
                && ordered.slots[i].lock.st == Unlocking && !ordered.slots[i].lock.pending
              else Run(now, acts + go, false) == WithSlot(d, i, d.slots[i].(lock := l.(btn := BtnQuiet)))
  {
    hide Run, Step, LockOk;
    var go := [ButtonGo(i)];
    var a1, b1 := acts + go, acts + go + o1;
    var a2, b2 := b1 + go, b1 + go + o2;
    var a3, b3 := b2 + go, b2 + go + o3;
    if Run(now, acts, false).slots[i].lock.btn == BtnAccepted {
      LockOfRun(now, acts, i);
      RunStep(now, acts, ButtonGo(i));
      ButtonMoves(Run(now, acts, false), i);
      if Run(now, acts, false).slots[i].lock.st == Locked {
        ButtonWaits(now, a1, o1, i);
        LockOfRun(now, b1, i);
        RunStep(now, b1, ButtonGo(i));
        ButtonMoves(Run(now, b1, false), i);
        ButtonWaits(now, a2, o2, i);
        LockOfRun(now, b2, i);
        RunStep(now, b2, ButtonGo(i));
        ButtonMoves(Run(now, b2, false), i);
        ButtonWaits(now, a3, o3, i);
        LockOfRun(now, b3, i);
        RunStep(now, b3, ButtonGo(i));
        ButtonMoves(Run(now, b3, false), i);
        ClearedIsUnlocking(Run(now, b3, false).slots[i].lock, JobAt(Run(now, b3, false).worker, i));
      }
    }
  }

  lemma ClearedIsUnlocking(l: Lock, job: Job)
    requires LockOk(l, job) && l.btn == BtnCleared
    ensures l.st == Unlocking && !l.pending
  {
  }

  // ---- The reader -------------------------------------------------------------------

  /** Each of the four numbers of a read is what that slot reports when it is picked up, and
      picking one up touches no other. */
  lemma {:induction false} PicksWhatIsReported(now: int, acts: seq<Action>, i: nat)
    requires i < NUM_SPACES
    ensures var d := Run(now, acts, false);
            var dOcc, dDist := Run(now, acts + [PickOccupied(i)], false), Run(now, acts + [PickDistance(i)], false);
            && (d.reader.Collecting? && d.reader.occupied[i].None? ==>
                  dOcc.reader == d.reader.(occupied := d.reader.occupied[i := Some(d.slots[i].report.occupied)]))
            && (d.reader.Collecting? && d.reader.distance[i].None? ==>
                  dDist.reader == d.reader.(distance := d.reader.distance[i := Some(d.slots[i].report.distance)]))
  {
    hide Run, SlotStep;
    RunStep(now, acts, PickOccupied(i));
    RunStep(now, acts, PickDistance(i));
  }

  /** A read begins only when there is a change, by clearing the flag, with nothing picked
      up, and ends only when all four numbers are there. */
  lemma {:induction false} ReadsInTurn(now: int, acts: seq<Action>, a: Action)
    ensures var r, r' := Run(now, acts, false).reader, Run(now, acts + [a], false).reader;
            && (r != Woken && r' == Woken ==> a == Wake && r == Sleeping && Run(now, acts, false).changed)
            && (!r.Collecting? && r'.Collecting? ==>
                  a == Clear && r == Woken && r' == NOTHING_READ && !Run(now, acts + [a], false).changed)
            && (r.Collecting? && !r'.Collecting? ==> a == Return && Complete(r) && r' == Sleeping)
  {
    hide Run, SlotStep;
    RunStep(now, acts, a);
  }
}
