/** The RPI1 driver as a whole: two slots, the FIFO work queue with its single worker,
    the change flag and the one reader, under every interleaving.  A run is any list of
    actions; an action that cannot be taken changes nothing. */
module Driver {
  import opened Options
  import opened SlotMachine
  import opened SlotInvariants

  const NUM_SPACES := 2

  datatype Task = SensorTask(slot: nat) | LockTask(slot: nat)

  datatype Worker = Resting | Busy(slot: nat, job: Job)

  /** parking_read: asleep on the queue, woken with the flag not yet cleared, or filling in
      the four numbers, in whatever order they are read. */
  datatype Reader = Sleeping | Woken | Collecting(occupied: seq<Option<bool>>, distance: seq<Option<int>>)

  datatype State = State(now: int, slots: seq<Slot>, queue: seq<Task>, worker: Worker, changed: bool, reader: Reader)

  datatype Action =
    | Tick(ns: nat)
    | TimerFires(slot: nat)
    | EchoIrq(slot: nat, high: bool)
    | EchoCommit(slot: nat)
    | ButtonIrq(slot: nat)
    | ButtonGo(slot: nat)
    | Dequeue
    | WorkOn
    | Wake
    | Clear
    | PickOccupied(slot: nat)
    | PickDistance(slot: nat)
    | Return

  function Initial(now: int): State {
    State(now, [InitialSlot(-1), InitialSlot(1)], [], Resting, false, Sleeping)
  }

  function JobAt(w: Worker, i: nat): Job { if w.Busy? && w.slot == i then w.job else NoJob }

  predicate Shaped(d: State) {
    && |d.slots| == NUM_SPACES
    && Drivable(d.slots[0].bolt) && Drivable(d.slots[1].bolt)
    && (d.worker.Busy? ==> d.worker.slot < NUM_SPACES && d.worker.job != NoJob)
    && (d.reader.Collecting? ==> |d.reader.occupied| == NUM_SPACES && |d.reader.distance| == NUM_SPACES)
  }

  function Appended(o: Outcome, i: nat): seq<Task> {
    (if o.addSensor then [SensorTask(i)] else []) + (if o.addLock then [LockTask(i)] else [])
  }

  function WorkerAfter(w: Worker, i: nat, job: Job): Worker {
    if job != NoJob then Busy(i, job) else if JobAt(w, i) != NoJob then Resting else w
  }

  /** The step `act` at slot i, seen from the whole driver. */
  function At(d: State, i: nat, act: SlotAct, swap: bool): State
    requires Shaped(d)
  {
    if i >= NUM_SPACES then d
    else
      var o := SlotStep(d.slots[i], JobAt(d.worker, i), act, d.now, swap);
      d.(slots := d.slots[i := o.slot], queue := d.queue + Appended(o, i),
         worker := WorkerAfter(d.worker, i, o.job), changed := d.changed || o.raise)
  }

  predicate Complete(r: Reader) {
    r.Collecting? && |r.occupied| == NUM_SPACES && |r.distance| == NUM_SPACES
    && r.occupied[0].Some? && r.occupied[1].Some? && r.distance[0].Some? && r.distance[1].Some?
  }

  const NOTHING_READ: Reader := Collecting([None, None], [None, None])

  function Step(d: State, a: Action, swap: bool): State
    requires Shaped(d)
  {
    match a
    case Tick(ns) => d.(now := d.now + ns)
    case TimerFires(i) => At(d, i, Arm, swap)
    case EchoIrq(i, high) => At(d, i, Interrupt(high), swap)
    case EchoCommit(i) => At(d, i, Commit, swap)
    case ButtonIrq(i) => At(d, i, Press, swap)
    case ButtonGo(i) => At(d, i, Button, swap)
    case Dequeue =>
      if d.worker == Resting && d.queue != [] then
        match d.queue[0]
        case SensorTask(i) => At(d.(queue := d.queue[1..]), i, BeginSensor, swap)
        case LockTask(i) => At(d.(queue := d.queue[1..]), i, BeginLock, swap)
      else d
    case WorkOn => if d.worker.Busy? then At(d, d.worker.slot, Work, swap) else d
    case Wake => if d.reader == Sleeping && d.changed then d.(reader := Woken) else d
    case Clear => if d.reader == Woken then d.(changed := false, reader := NOTHING_READ) else d
    case PickOccupied(i) =>
      if d.reader.Collecting? && i < NUM_SPACES && d.reader.occupied[i].None? then
        At(d, i, Take, swap).(reader := d.reader.(occupied := d.reader.occupied[i := Some(d.slots[i].report.occupied)]))
      else d
    case PickDistance(i) =>
      if d.reader.Collecting? && i < NUM_SPACES && d.reader.distance[i].None? then
        d.(reader := d.reader.(distance := d.reader.distance[i := Some(d.slots[i].report.distance)]))
      else d
    case Return => if Complete(d.reader) then d.(reader := Sleeping) else d
  }

  // ---- The invariant ----------------------------------------------------------------

  ghost predicate QueueOk(d: State)
    requires |d.slots| == NUM_SPACES
  {
    && (forall a, b :: 0 <= a < b < |d.queue| ==> d.queue[a] != d.queue[b])
    && (forall t :: t in d.queue ==> t.slot < NUM_SPACES)
    && (forall i: nat :: i < NUM_SPACES ==> (SensorTask(i) in d.queue <==> d.slots[i].echo.queued))
    && (forall i: nat :: i < NUM_SPACES ==> (LockTask(i) in d.queue <==> d.slots[i].lock.queued))
  }

  predicate ToTake(r: Reader, i: nat) {
    r.Collecting? && i < |r.occupied| && r.occupied[i].None?
  }

  ghost predicate ReaderOk(d: State)
    requires Shaped(d)
  {
    && (d.reader == Woken ==> d.changed)
    && forall i: nat :: i < NUM_SPACES ==>
         && ReportOk(d.slots[i].report, JobAt(d.worker, i), d.changed, ToTake(d.reader, i))
         && (d.reader.Collecting? && d.reader.occupied[i].Some? ==> d.reader.occupied[i].value == d.slots[i].report.taken)
         && (d.reader.Collecting? && d.reader.distance[i].Some? ==>
             d.reader.distance[i].value == NO_DISTANCE || 0 <= d.reader.distance[i].value <= 400)
  }

  ghost predicate SlotsOk(d: State)
    requires Shaped(d)
  {
    forall i: nat :: i < NUM_SPACES ==> SlotOk(d.slots[i], JobAt(d.worker, i), d.now)
  }

  ghost predicate Inv(d: State) {
    Shaped(d) && SlotsOk(d) && QueueOk(d) && ReaderOk(d) && d.slots[0].bolt.dir == -1 && d.slots[1].bolt.dir == 1
  }

  /** A step at slot i by a context that may run now keeps the shape and the slots. */
  lemma AtKeepsSlots(d: State, i: nat, act: SlotAct)
    requires Shaped(d) && SlotsOk(d) && i < NUM_SPACES
    requires act == Work || act == BeginSensor || act == BeginLock ==> d.worker == Resting || d.worker.slot == i
    ensures var d' := At(d, i, act, false);
            && Shaped(d') && SlotsOk(d')
            && d'.slots[i].bolt.dir == d.slots[i].bolt.dir && d'.slots[1 - i] == d.slots[1 - i]
            && JobAt(d'.worker, 1 - i) == JobAt(d.worker, 1 - i)
            && JobAt(d'.worker, i) == SlotStep(d.slots[i], JobAt(d.worker, i), act, d.now, false).job
  {
    hide SlotOk;
    SlotOkStep(d.slots[i], JobAt(d.worker, i), act, d.now);
    OnlyWorkerTakesJobs(d.slots[i], JobAt(d.worker, i), act, d.now);
  }

  lemma OnlyWorkerTakesJobs(sl: Slot, job: Job, act: SlotAct, now: int)
    requires Drivable(sl.bolt)
    ensures act != Work && act != BeginSensor && act != BeginLock ==> SlotStep(sl, job, act, now, false).job == job
  {
  }

  lemma AtKeepsReader(d: State, i: nat, act: SlotAct)
    requires Shaped(d) && SlotsOk(d) && ReaderOk(d) && i < NUM_SPACES && act != Take
    requires act == Work || act == BeginSensor || act == BeginLock ==> d.worker == Resting || d.worker.slot == i
    ensures var d' := At(d, i, act, false); Shaped(d') && ReaderOk(d')
  {
    hide SlotOk, SlotStep, ValueOk;
    AtKeepsSlots(d, i, act);
    ValuesOf(d.slots[i], JobAt(d.worker, i), d.now);
    ReportOkStep(d.slots[i], JobAt(d.worker, i), act, d.now, d.changed, ToTake(d.reader, i));
    TakenOnlyByReader(d.slots[i], JobAt(d.worker, i), act, d.now);
  }

  lemma ValuesOf(sl: Slot, job: Job, now: int)
    requires SlotOk(sl, job, now)
    ensures ValueOk(sl.report, job)
  {
  }

  lemma TakenOnlyByReader(sl: Slot, job: Job, act: SlotAct, now: int)
    requires Drivable(sl.bolt) && act != Take
    ensures SlotStep(sl, job, act, now, false).slot.report.taken == sl.report.taken
  {
  }

  /** Which steps touch the pending bits, and how. */
  lemma PendingBits(sl: Slot, job: Job, act: SlotAct, now: int)
    requires Drivable(sl.bolt)
    ensures var o := SlotStep(sl, job, act, now, false);
            && (act == BeginSensor && job == NoJob ==> !o.slot.echo.queued && o.slot.lock.queued == sl.lock.queued && !o.addSensor && !o.addLock)
            && (act == BeginLock && job == NoJob ==> !o.slot.lock.queued && o.slot.echo.queued == sl.echo.queued && !o.addSensor && !o.addLock)
            && (act != BeginSensor && act != BeginLock ==>
                && o.slot.echo.queued == (sl.echo.queued || o.addSensor) && (o.addSensor ==> !sl.echo.queued)
                && o.slot.lock.queued == (sl.lock.queued || o.addLock) && (o.addLock ==> !sl.lock.queued)
                && !(o.addSensor && o.addLock))
  {
  }

  lemma AtKeepsQueue(d: State, i: nat, act: SlotAct)
    requires Shaped(d) && QueueOk(d) && i < NUM_SPACES && act != BeginSensor && act != BeginLock
    ensures QueueOk(At(d, i, act, false))
  {
    var o := SlotStep(d.slots[i], JobAt(d.worker, i), act, d.now, false);
    PendingBits(d.slots[i], JobAt(d.worker, i), act, d.now);
    var q, d' := d.queue, At(d, i, act, false);
    if o.addSensor {
      assert d'.queue == q + [SensorTask(i)];
    } else if o.addLock {
      assert d'.queue == q + [LockTask(i)];
    } else {
      assert d'.queue == q;
    }
    forall j: nat | j < NUM_SPACES
      ensures SensorTask(j) in d'.queue <==> d'.slots[j].echo.queued
      ensures LockTask(j) in d'.queue <==> d'.slots[j].lock.queued
    {
      assert SensorTask(j) in d'.queue <==> SensorTask(j) in q || (o.addSensor && i == j);
      assert LockTask(j) in d'.queue <==> LockTask(j) in q || (o.addLock && i == j);
    }
  }

  lemma BeginsJob(sl: Slot, act: SlotAct, now: int)
    requires Drivable(sl.bolt)
    requires (act == BeginSensor && sl.echo.queued) || (act == BeginLock && sl.lock.queued)
    ensures SlotStep(sl, NoJob, act, now, false).job == if act == BeginSensor then Measure(Snapshot) else Move(ReadPending)
  {
  }

  /** Taking an item starts its function, with its pending bit already clear. */
  lemma DequeueKeeps(d: State)
    requires Inv(d)
    ensures Inv(Step(d, Dequeue, false))
    ensures d.worker == Resting && d.queue != [] ==>
              var d', t := Step(d, Dequeue, false), d.queue[0];
              && d'.worker == Busy(t.slot, if t.SensorTask? then Measure(Snapshot) else Move(ReadPending))
              && t !in d'.queue
  {
    hide SlotOk, SlotStep, ReaderOk, SlotsOk;
    if d.worker == Resting && d.queue != [] {
      var t := d.queue[0];
      var act := if t.SensorTask? then BeginSensor else BeginLock;
      assert t in d.queue;
      var d1 := d.(queue := d.queue[1..]);
      assert SlotsOk(d1) by { TailKeeps(d); }
      assert ReaderOk(d1) by { TailKeeps(d); }
      AtKeepsSlots(d1, t.slot, act);
      AtKeepsReader(d1, t.slot, act);
      BeginsJob(d.slots[t.slot], act, d.now);
      DequeueKeepsQueue(d);
    }
  }

  lemma TailKeeps(d: State)
    requires Shaped(d) && SlotsOk(d) && ReaderOk(d) && d.queue != []
    ensures var d1 := d.(queue := d.queue[1..]); Shaped(d1) && SlotsOk(d1) && ReaderOk(d1)
  {
    hide SlotOk, ReportOk;
  }

  lemma DequeueKeepsQueue(d: State)
    requires Shaped(d) && QueueOk(d) && d.worker == Resting && d.queue != []
    ensures var act := if d.queue[0].SensorTask? then BeginSensor else BeginLock;
            var d' := At(d.(queue := d.queue[1..]), d.queue[0].slot, act, false);
            d.queue[0].slot < NUM_SPACES && QueueOk(d') && d.queue[0] !in d'.queue
  {
    hide SlotStep;
    var t := d.queue[0];
    assert t in d.queue;
    var act := if t.SensorTask? then BeginSensor else BeginLock;
    PendingBits(d.slots[t.slot], NoJob, act, d.now);
    RestOfQueue(d.queue);
    var d' := At(d.(queue := d.queue[1..]), t.slot, act, false);
    assert d'.queue == d.queue[1..];
  }

  lemma RestOfQueue(q: seq<Task>)
    requires q != [] && forall a, b :: 0 <= a < b < |q| ==> q[a] != q[b]
    ensures forall t :: t in q[1..] <==> t in q && t != q[0]
  {
    forall t | t in q && t != q[0] ensures t in q[1..] {
      var k :| 0 <= k < |q| && q[k] == t;
      assert q[1..][k - 1] == t;
    }
  }

  lemma PickKeeps(d: State, i: nat)
    requires Inv(d) && i < NUM_SPACES && d.reader.Collecting? && d.reader.occupied[i].None?
    ensures Inv(Step(d, PickOccupied(i), false))
  {
    hide SlotOk, SlotStep, QueueOk, ReaderOk;
    var d1 := At(d, i, Take, false);
    var d' := Step(d, PickOccupied(i), false);
    AtKeepsSlots(d, i, Take);
    AtKeepsQueue(d, i, Take);
    PickKeepsReader(d, i);
    assert d' == d1.(reader := d'.reader);
    assert SlotsOk(d');
    assert QueueOk(d') by { SameQueue(d1, d'); }
  }

  lemma SameQueue(d: State, d': State)
    requires |d.slots| == NUM_SPACES && QueueOk(d) && d'.queue == d.queue && d'.slots == d.slots
    ensures QueueOk(d')
  {
  }

  lemma PickKeepsReader(d: State, i: nat)
    requires Shaped(d) && ReaderOk(d) && i < NUM_SPACES && d.reader.Collecting? && d.reader.occupied[i].None?
    ensures var d' := Step(d, PickOccupied(i), false); Shaped(d') && ReaderOk(d')
  {
    hide SlotStep;
    TakeOnlyTakes(d.slots[i], JobAt(d.worker, i), d.now);
  }

  lemma TakeOnlyTakes(sl: Slot, job: Job, now: int)
    requires Drivable(sl.bolt)
    ensures SlotStep(sl, job, Take, now, false)
            == Quietly(sl.(report := sl.report.(taken := sl.report.occupied)), job)
  {
  }

  lemma PickDistanceKeeps(d: State, i: nat)
    requires Inv(d) && i < NUM_SPACES && d.reader.Collecting? && d.reader.distance[i].None?
    ensures Inv(Step(d, PickDistance(i), false))
  {
    hide SlotOk, At, QueueOk;
    ValuesOf(d.slots[i], JobAt(d.worker, i), d.now);
    ReportedValues(d.slots[i].report, JobAt(d.worker, i));
    SameQueue(d, Step(d, PickDistance(i), false));
  }

  lemma ReaderKeeps(d: State, a: Action)
    requires Inv(d) && (a == Wake || a == Clear || a.PickOccupied? || a.PickDistance? || a == Return)
    ensures Inv(Step(d, a, false))
  {
    hide SlotOk, At, QueueOk;
    match a {
      case PickOccupied(i) =>
        if d.reader.Collecting? && i < NUM_SPACES && d.reader.occupied[i].None? {
          PickKeeps(d, i);
        }
      case PickDistance(i) =>
        if d.reader.Collecting? && i < NUM_SPACES && d.reader.distance[i].None? {
          PickDistanceKeeps(d, i);
        }
      case Wake => SameQueue(d, Step(d, a, false));
      case Clear => SameQueue(d, Step(d, a, false));
      case Return => SameQueue(d, Step(d, a, false));
    }
  }

  lemma TimeKeeps(d: State, ns: nat)
    requires Inv(d)
    ensures Inv(Step(d, Tick(ns), false))
  {
    hide SlotOk;
    forall i: nat | i < NUM_SPACES ensures SlotOk(d.slots[i], JobAt(d.worker, i), d.now + ns) {
      SlotOkLater(d.slots[i], JobAt(d.worker, i), d.now, d.now + ns);
    }
  }

  /** Every action keeps the invariant. */
  lemma StepKeepsInv(d: State, a: Action)
    requires Inv(d)
    ensures Inv(Step(d, a, false))
  {
    hide SlotOk;
    match a {
      case Tick(ns) => TimeKeeps(d, ns);
      case TimerFires(i) => ContextKeeps(d, i, Arm);
      case EchoIrq(i, high) => ContextKeeps(d, i, Interrupt(high));
      case EchoCommit(i) => ContextKeeps(d, i, Commit);
      case ButtonIrq(i) => ContextKeeps(d, i, Press);
      case ButtonGo(i) => ContextKeeps(d, i, Button);
      case Dequeue => DequeueKeeps(d);
      case WorkOn => if d.worker.Busy? { ContextKeeps(d, d.worker.slot, Work); }
      case _ => ReaderKeeps(d, a);
    }
  }

  lemma ContextKeeps(d: State, i: nat, act: SlotAct)
    requires Inv(d) && act != Take && act != BeginSensor && act != BeginLock
    requires act == Work ==> d.worker.Busy? && d.worker.slot == i
    ensures Inv(At(d, i, act, false))
  {
    hide SlotOk;
    if i < NUM_SPACES {
      AtKeepsSlots(d, i, act);
      AtKeepsReader(d, i, act);
      AtKeepsQueue(d, i, act);
    }
  }

  lemma InitiallyInv(now: int)
    ensures Inv(Initial(now))
  {
    hide SlotOk;
    SlotOkInitially(-1, now);
    SlotOkInitially(1, now);
  }

  // ---- Runs -------------------------------------------------------------------------

  lemma SlotStepKeepsShape(sl: Slot, job: Job, act: SlotAct, now: int, swap: bool)
    requires Drivable(sl.bolt)
    ensures Drivable(SlotStep(sl, job, act, now, swap).slot.bolt)
  {
  }

  lemma StepKeepsShape(d: State, a: Action, swap: bool)
    requires Shaped(d)
    ensures Shaped(Step(d, a, swap))
  {
    hide SlotStep;
    forall i: nat, act | i < NUM_SPACES
      ensures Drivable(SlotStep(d.slots[i], JobAt(d.worker, i), act, d.now, swap).slot.bolt)
    {
      SlotStepKeepsShape(d.slots[i], JobAt(d.worker, i), act, d.now, swap);
    }
  }

  /** The driver after a list of actions, each taken in the state the last one left.
      With `swap`, stores to the lock word are compare-and-swaps. */
  function Run(now: int, acts: seq<Action>, swap: bool): (d: State)
    ensures Shaped(d)
  {
    if acts == [] then Initial(now)
    else
      var before := Run(now, acts[..|acts| - 1], swap);
      StepKeepsShape(before, acts[|acts| - 1], swap);
      Step(before, acts[|acts| - 1], swap)
  }

  /** Every state of every run satisfies the invariant. */
  lemma {:induction false} RunKeepsInv(now: int, acts: seq<Action>)
    ensures Inv(Run(now, acts, false))
  {
    hide Inv, Step;
    if acts == [] {
      InitiallyInv(now);
    } else {
      RunKeepsInv(now, acts[..|acts| - 1]);
      StepKeepsInv(Run(now, acts[..|acts| - 1], false), acts[|acts| - 1]);
    }
  }

  /** What the invariant says about one slot, and about the queue. */
  lemma SlotInRun(now: int, acts: seq<Action>, i: nat)
    requires i < NUM_SPACES
    ensures var d := Run(now, acts, false); SlotOk(d.slots[i], JobAt(d.worker, i), d.now)
  {
    hide SlotOk;
    RunKeepsInv(now, acts);
  }
}
