/** What every step at a slot keeps, one concern at a time. */
module SlotInvariants {
  import opened Options
  import opened Stepper
  import opened LockHistory
  import opened SlotMachine
  import Debounce

  function One(b: bool): nat { if b then 1 else 0 }

  // ---- Who owns the lock word -------------------------------------------------------

  /** The places where a lock or unlock is under way: still being handed over by the
      sensor work or by the button interrupt, queued, or being carried out. */
  function HandOvers(l: Lock, job: Job): nat {
    One(job == Measure(PutPending) || job == Measure(PutQueue)) +
    One(l.btn == BtnStored || l.btn == BtnCleared) +
    One(l.queued) + One(job.Move?)
  }

  predicate Turning(st: LockState) { st == Locking || st == Unlocking }

  predicate NextOf(seen: LockState, next: LockState) {
    || (seen == Free && next == Timing)
    || (seen == Timing && (next == Free || next == Locking))
    || (seen == WaitEmpty && next == Free)
  }

  /** The lock word, the direction flag and everybody's view of them. */
  predicate LockOk(l: Lock, job: Job) {
    && HandOvers(l, job) == One(Turning(l.st))
    && (l.queued || job == Move(ReadPending) ==> (l.pending <==> l.st == Locking))
    && (job == Measure(PutPending) || job == Measure(PutQueue) ==> l.st == Locking)
    && (job == Measure(PutQueue) ==> l.pending)
    && (l.btn == BtnStored || l.btn == BtnCleared ==> l.st == Unlocking)
    && (l.btn == BtnCleared ==> !l.pending)
    && (l.btn == BtnSawLocked ==> l.st == Locked)
    && (job.Move? && !job.lockPc.ReadPending? ==> (job.lockPc.doLock <==> l.st == Locking))
    && (job.Measure? && job.sensorPc.Think? && (job.sensorPc.seen == Free || job.sensorPc.seen == Timing || job.sensorPc.seen == WaitEmpty)
        ==> l.st == job.sensorPc.seen)
    && (job.Measure? && job.sensorPc.PutLock? ==> l.st == job.sensorPc.seen && NextOf(job.sensorPc.seen, job.sensorPc.next))
  }

  lemma LockOkButton(sl: Slot, job: Job)
    requires LockOk(sl.lock, job)
    ensures var o := ButtonStep(sl, job, false); LockOk(o.slot.lock, o.job)
  {
  }

  lemma LockOkSensor(sl: Slot, pc: SensorPc, now: int)
    requires LockOk(sl.lock, Measure(pc))
    ensures var o := SensorStep(sl, pc, now, false); LockOk(o.slot.lock, o.job)
  {
  }

  lemma LockOkMove(sl: Slot, pc: LockPc)
    requires Drivable(sl.bolt) && LockOk(sl.lock, Move(pc))
    ensures var o := LockStep(sl, pc, false); LockOk(o.slot.lock, o.job)
  {
  }

  lemma LockOkStep(sl: Slot, job: Job, act: SlotAct, now: int)
    requires Drivable(sl.bolt) && LockOk(sl.lock, job)
    ensures var o := SlotStep(sl, job, act, now, false); LockOk(o.slot.lock, o.job)
  {
    match act {
      case Button => LockOkButton(sl, job);
      case Work =>
        match job {
          case Measure(pc) => LockOkSensor(sl, pc, now);
          case Move(pc) => LockOkMove(sl, pc);
          case NoJob =>
        }
      case _ =>
    }
  }

  /** A compare-and-swap in place of each plain store would change nothing: no other
      context writes the lock word between a context's read and its dependent write. */
  lemma SwapNeverFails(sl: Slot, job: Job, act: SlotAct, now: int)
    requires Drivable(sl.bolt) && LockOk(sl.lock, job)
    ensures SlotStep(sl, job, act, now, true) == SlotStep(sl, job, act, now, false)
  {
  }

  // ---- The sensor work item ---------------------------------------------------------

  predicate EchoWorkOk(e: Echo, job: Job) {
    && (e.st == EchoDone <==> e.queued || job == Measure(Snapshot))
    && !(e.queued && job == Measure(Snapshot))
  }

  lemma EchoWorkOkStep(sl: Slot, job: Job, act: SlotAct, now: int)
    requires Drivable(sl.bolt) && EchoWorkOk(sl.echo, job)
    ensures var o := SlotStep(sl, job, act, now, false); EchoWorkOk(o.slot.echo, o.job)
  {
  }

  /** queue_work never meets a pending item: whenever a context is about to queue an
      item, its pending bit is clear. */
  lemma QueueNeverPending(sl: Slot, job: Job, act: SlotAct, now: int)
    requires Drivable(sl.bolt) && EchoWorkOk(sl.echo, job) && LockOk(sl.lock, job)
    ensures var o := SlotStep(sl, job, act, now, false);
            && (o.addSensor <==> act == Commit && sl.echo.isr.EchoSampled? && sl.echo.st == WaitLow && !sl.echo.isr.edge.high)
            && (o.addLock <==> (act == Work && job == Measure(PutQueue)) || (act == Button && sl.lock.btn == BtnCleared))
            && (o.addSensor ==> !sl.echo.queued && o.slot.echo.queued)
            && (o.addLock ==> !sl.lock.queued && o.slot.lock.queued)
  {
  }

  // ---- The bolt ---------------------------------------------------------------------

  /** How far the bolt is out, in half-steps of the locking direction. */
  function BoltPosition(b: Bolt): int { b.dir * b.rotor.pos }

  /** Half-steps the move in progress has added to the bolt, from where it began. */
  function PartialMove(job: Job): int {
    if job.Move? && !job.lockPc.ReadPending? then
      var done := if job.lockPc.Turn? then job.lockPc.done else LOCK_STEPS;
      if job.lockPc.doLock then done else -done
    else 0
  }

  predicate BoltOk(b: Bolt, st: LockState, job: Job) {
    && (b.dir == 1 || b.dir == -1)
    && InPhase(b.rotor, b.step)
    && BoltPosition(b) == LOCK_STEPS * (b.locks - b.unlocks) + PartialMove(job)
    && b.locks - b.unlocks == One(st == Locked || st == Unlocking)
    && (job.Move? && job.lockPc.Turn? ==> job.lockPc.done <= LOCK_STEPS)
    && (!job.Move? || job.lockPc.ReadPending? || job.lockPc.Finish? ==> b.rotor.coils == OFF)
  }

  lemma BoltOkTurn(b: Bolt, st: LockState, doLock: bool, done: nat)
    requires Drivable(b) && BoltOk(b, st, Move(Turn(doLock, done))) && done < LOCK_STEPS
    ensures BoltOk(TurnBolt(b, doLock), st, Move(Turn(doLock, done + 1)))
  {
    hide InPhase, Drive, HalfStep;
    var dir := Direction(b, doLock);
    StepTurnsByOne(b.rotor, b.step, dir);
    var b' := TurnBolt(b, doLock);
    assert b'.rotor.pos == b.rotor.pos + dir;
    if b.dir == 1 {
      assert BoltPosition(b) == b.rotor.pos && BoltPosition(b') == b'.rotor.pos;
    } else {
      assert BoltPosition(b) == -b.rotor.pos && BoltPosition(b') == -b'.rotor.pos;
    }
  }

  lemma BoltOkMove(sl: Slot, pc: LockPc)
    requires Drivable(sl.bolt) && LockOk(sl.lock, Move(pc)) && BoltOk(sl.bolt, sl.lock.st, Move(pc))
    ensures var o := LockStep(sl, pc, false);
            BoltOk(o.slot.bolt, o.slot.lock.st, o.job) && o.slot.bolt.dir == sl.bolt.dir
  {
    match pc {
      case Turn(doLock, done) =>
        if done < LOCK_STEPS {
          BoltOkTurn(sl.bolt, sl.lock.st, doLock, done);
        }
      case _ =>
    }
  }

  lemma BoltOkButton(sl: Slot, job: Job)
    requires LockOk(sl.lock, job) && BoltOk(sl.bolt, sl.lock.st, job)
    ensures var o := ButtonStep(sl, job, false);
            BoltOk(o.slot.bolt, o.slot.lock.st, o.job) && o.slot.bolt == sl.bolt
  {
  }

  lemma BoltOkSensor(sl: Slot, pc: SensorPc, now: int)
    requires LockOk(sl.lock, Measure(pc)) && BoltOk(sl.bolt, sl.lock.st, Measure(pc))
    ensures var o := SensorStep(sl, pc, now, false);
            BoltOk(o.slot.bolt, o.slot.lock.st, o.job) && o.slot.bolt == sl.bolt
  {
  }

  lemma BoltOkStep(sl: Slot, job: Job, act: SlotAct, now: int)
    requires Drivable(sl.bolt) && LockOk(sl.lock, job) && BoltOk(sl.bolt, sl.lock.st, job)
    ensures var o := SlotStep(sl, job, act, now, false);
            BoltOk(o.slot.bolt, o.slot.lock.st, o.job) && o.slot.bolt.dir == sl.bolt.dir
  {
    match act {
      case Button => BoltOkButton(sl, job);
      case Work =>
        match job {
          case Measure(pc) => BoltOkSensor(sl, pc, now);
          case Move(pc) => BoltOkMove(sl, pc);
          case NoJob =>
        }
      case _ =>
    }
  }

  /** The bolt never leaves its 341-step travel; it is fully out when the slot is LOCKED
      and fully in when it is FREE, TIMING or waiting to empty; the motor phase is the
      bolt position in the motor's own direction, modulo 8. */
  lemma BoltTravel(b: Bolt, l: Lock, job: Job)
    requires LockOk(l, job) && BoltOk(b, l.st, job)
    ensures 0 <= BoltPosition(b) <= LOCK_STEPS
    ensures l.st == Locked ==> BoltPosition(b) == LOCK_STEPS
    ensures l.st == Free || l.st == Timing || l.st == WaitEmpty ==> BoltPosition(b) == 0
    ensures b.step == (b.dir * BoltPosition(b)) % 8
    ensures b.rotor.slips == 0
  {
    assert b.dir * BoltPosition(b) == b.rotor.pos;
  }

  // ---- Echo edges -------------------------------------------------------------------

  ghost predicate EdgesOrdered(es: seq<Edge>, now: int) {
    && (forall a, b :: 0 <= a <= b < |es| ==> es[a].time <= es[b].time)
    && (forall a :: 0 <= a < |es| ==> es[a].time <= now)
  }

  /** Edge a read high, and so did every edge after it up to b. */
  ghost predicate HighFrom(es: seq<Edge>, a: nat, b: nat) {
    a < b <= |es| && forall c :: a <= c < b ==> es[c].high
  }

  ghost predicate AllLow(es: seq<Edge>, a: nat, b: nat) {
    a <= b <= |es| && forall c :: a <= c < b ==> !es[c].high
  }

  /** A pulse that rose at `start`, with the first high sample since index z, and has not
      fallen yet. */
  ghost predicate RisingPulse(es: seq<Edge>, z: nat, start: int) {
    exists a: nat :: AllLow(es, z, a) && HighFrom(es, a, |es|) && es[a].time == start
  }

  /** Edge a is the first high sample from index z on and b the first low one after it. */
  ghost predicate PulseEnds(es: seq<Edge>, z: nat, a: nat, b: nat, start: int, stop: int) {
    AllLow(es, z, a) && HighFrom(es, a, b) && b < |es| && !es[b].high && es[a].time == start && es[b].time == stop
  }

  /** start and stop are the ends of the first pulse since index z. */
  ghost predicate OnePulse(es: seq<Edge>, z: nat, start: int, stop: int) {
    exists a: nat, b: nat :: PulseEnds(es, z, a, b, start, stop)
  }

  /** start and stop are the ends of the first pulse after the trigger z, and no later
      trigger came before that pulse was over. */
  ghost predicate TriggeredPulse(e: Echo, z: nat, start: int, stop: int) {
    z in e.triggers && exists a: nat, b: nat ::
      PulseEnds(e.edges, z, a, b, start, stop) && forall y :: y in e.triggers ==> y <= z || y > b
  }

  ghost predicate TriggersOk(e: Echo) {
    && (forall y :: y in e.triggers ==> y <= LastTrigger(e) <= |e.edges|)
    && (e.st != EchoIdle ==> e.triggers != [])
  }

  ghost predicate EchoOk(e: Echo, job: Job, now: int) {
    && EdgesOrdered(e.edges, now)
    && (e.isr.EchoSampled? ==> EdgesOrdered(e.edges, e.isr.edge.time) && e.isr.edge.time <= now)
    && TriggersOk(e)
    && (e.st == WaitHigh ==> AllLow(e.edges, LastTrigger(e), |e.edges|))
    && (e.st == WaitLow ==> RisingPulse(e.edges, LastTrigger(e), e.start))
    && (e.st == EchoDone ==> OnePulse(e.edges, LastTrigger(e), e.start, e.stop))
    && (job.Measure? && job.sensorPc.Judge? ==>
          TriggeredPulse(e, job.sensorPc.trigger, job.sensorPc.start, job.sensorPc.stop))
  }

  lemma EndsOutliveEdge(es: seq<Edge>, e: Edge, z: nat, a: nat, b: nat, start: int, stop: int)
    requires PulseEnds(es, z, a, b, start, stop)
    ensures PulseEnds(es + [e], z, a, b, start, stop)
  {
    assert AllLow(es + [e], z, a) && HighFrom(es + [e], a, b);
  }

  lemma PulseOutlivesEdge(es: seq<Edge>, e: Edge, z: nat, start: int, stop: int)
    requires OnePulse(es, z, start, stop)
    ensures OnePulse(es + [e], z, start, stop)
  {
    var a: nat, b: nat :| PulseEnds(es, z, a, b, start, stop);
    EndsOutliveEdge(es, e, z, a, b, start, stop);
  }

  /** A judged pulse stays what it is, whatever edges and triggers come after it. */
  lemma TriggeredPulseOutlives(e: Echo, e': Echo, z: nat, start: int, stop: int)
    requires TriggeredPulse(e, z, start, stop)
    requires e'.edges == e.edges || exists edge :: e'.edges == e.edges + [edge]
    requires e'.triggers == e.triggers || e'.triggers == e.triggers + [|e.edges|]
    ensures TriggeredPulse(e', z, start, stop)
  {
    var a: nat, b: nat :|
      PulseEnds(e.edges, z, a, b, start, stop) && forall y :: y in e.triggers ==> y <= z || y > b;
    if e'.edges != e.edges {
      var edge :| e'.edges == e.edges + [edge];
      EndsOutliveEdge(e.edges, edge, z, a, b, start, stop);
    }
    assert PulseEnds(e'.edges, z, a, b, start, stop);
  }

  /** What the worker snapshots is the pulse of the last trigger. */
  lemma SnapshotIsTriggered(e: Echo)
    requires TriggersOk(e) && e.st == EchoDone && OnePulse(e.edges, LastTrigger(e), e.start, e.stop)
    ensures TriggeredPulse(e, LastTrigger(e), e.start, e.stop)
  {
    var a: nat, b: nat :| PulseEnds(e.edges, LastTrigger(e), a, b, e.start, e.stop);
  }

  lemma PulseFalls(es: seq<Edge>, e: Edge, z: nat, start: int)
    requires RisingPulse(es, z, start)
    ensures if e.high then RisingPulse(es + [e], z, start) else OnePulse(es + [e], z, start, e.time)
  {
    var a: nat :| AllLow(es, z, a) && HighFrom(es, a, |es|) && es[a].time == start;
    var es' := es + [e];
    assert AllLow(es', z, a);
    if e.high {
      assert HighFrom(es', a, |es'|);
    } else {
      assert HighFrom(es', a, |es|) && es'[|es|] == e;
      assert PulseEnds(es', z, a, |es|, start, e.time);
    }
  }

  lemma EchoOkCommit(sl: Slot, job: Job, now: int)
    requires Drivable(sl.bolt) && EchoOk(sl.echo, job, now) && EchoWorkOk(sl.echo, job) && sl.echo.isr.EchoSampled?
    ensures var o := SlotStep(sl, job, Commit, now, false); EchoOk(o.slot.echo, o.job, now)
  {
    hide OnePulse, TriggeredPulse;
    var e := sl.echo;
    var es, edge := e.edges, e.isr.edge;
    var es' := es + [edge];
    assert EdgesOrdered(es', now);
    match e.st {
      case WaitHigh =>
        if edge.high {
          assert AllLow(es', LastTrigger(e), |es|) && HighFrom(es', |es|, |es'|) && es'[|es|] == edge;
        } else {
          assert AllLow(es', LastTrigger(e), |es'|);
        }
      case WaitLow => PulseFalls(es, edge, LastTrigger(e), e.start);
      case EchoDone => PulseOutlivesEdge(es, edge, LastTrigger(e), e.start, e.stop);
      case EchoIdle =>
    }
    if job.Measure? && job.sensorPc.Judge? {
      var e' := SlotStep(sl, job, Commit, now, false).slot.echo;
      assert e'.edges == es + [edge] && e'.triggers == e.triggers;
      TriggeredPulseOutlives(e, e', job.sensorPc.trigger, job.sensorPc.start, job.sensorPc.stop);
    }
  }

  lemma EchoOkArm(sl: Slot, job: Job, now: int)
    requires Drivable(sl.bolt) && EchoOk(sl.echo, job, now) && sl.echo.st == EchoIdle
    ensures var o := SlotStep(sl, job, Arm, now, false); EchoOk(o.slot.echo, o.job, now)
  {
    hide OnePulse, TriggeredPulse;
    if job.Measure? && job.sensorPc.Judge? {
      var e' := SlotStep(sl, job, Arm, now, false).slot.echo;
      TriggeredPulseOutlives(sl.echo, e', job.sensorPc.trigger, job.sensorPc.start, job.sensorPc.stop);
    }
  }

  lemma EchoOkStep(sl: Slot, job: Job, act: SlotAct, now: int)
    requires Drivable(sl.bolt) && EchoOk(sl.echo, job, now) && EchoWorkOk(sl.echo, job)
    ensures var o := SlotStep(sl, job, act, now, false); EchoOk(o.slot.echo, o.job, now)
  {
    hide OnePulse, TriggeredPulse, RisingPulse;
    if act == Commit && sl.echo.isr.EchoSampled? {
      EchoOkCommit(sl, job, now);
    } else if act == Arm && sl.echo.st == EchoIdle {
      EchoOkArm(sl, job, now);
    } else {
      if act == Work && job == Measure(Snapshot) {
        SnapshotIsTriggered(sl.echo);
        TriggeredPulseOutlives(sl.echo, SlotStep(sl, job, act, now, false).slot.echo, LastTrigger(sl.echo), sl.echo.start, sl.echo.stop);
      }
      var e' := SlotStep(sl, job, act, now, false).slot.echo;
      assert e'.edges == sl.echo.edges && e'.triggers == sl.echo.triggers;
      if job.Measure? && job.sensorPc.Judge? {
        TriggeredPulseOutlives(sl.echo, e', job.sensorPc.trigger, job.sensorPc.start, job.sensorPc.stop);
      }
    }
  }

  lemma PulseIsForward(es: seq<Edge>, z: nat, start: int, stop: int, now: int)
    requires EdgesOrdered(es, now) && OnePulse(es, z, start, stop)
    ensures start <= stop <= now
  {
    var a: nat, b: nat :| PulseEnds(es, z, a, b, start, stop);
  }

  // ---- What the slot reports --------------------------------------------------------

  predicate Updating(job: Job) { job.Measure? && job.sensorPc.PutOccupied? }

  predicate Lighting(job: Job) { job.Measure? && job.sensorPc.PutLed? }

  predicate ValueOk(r: Report, job: Job) {
    && (r.pulse.Some? ==> 0 < r.pulse.value <= MAX_PULSE_US && r.distance == DistanceOf(r.pulse.value))
    && (r.pulse.None? ==> r.distance == NO_DISTANCE && !Updating(job) && !Lighting(job))
    && (Updating(job) ==> r.pulse == Some(job.sensorPc.us))
    && (Lighting(job) ==> r.pulse == Some(job.sensorPc.us))
    && (!Updating(job) ==> r.occupied == (r.pulse.Some? && OccupiedBy(r.pulse.value)))
    && (!Updating(job) && !Lighting(job) ==> r.led == r.occupied)
    && (job.Measure? && job.sensorPc.PutDistance? ==> 0 < job.sensorPc.us <= MAX_PULSE_US && job.sensorPc.prev == r.occupied)
    && (Updating(job) ==> job.sensorPc.prev == r.occupied)
    && (job.Measure? && job.sensorPc.Notify? ==> job.sensorPc.occupied == r.occupied)
  }

  lemma ValueOkStep(sl: Slot, job: Job, act: SlotAct, now: int)
    requires Drivable(sl.bolt) && ValueOk(sl.report, job)
    ensures var o := SlotStep(sl, job, act, now, false); ValueOk(o.slot.report, o.job)
  {
  }

  /** The distance is 999 or at most 400, and outside the two middle stores of an update
      the slot is occupied exactly when it is at most 5, which is when the last accepted
      pulse was shorter than 348 us. */
  lemma ReportedValues(r: Report, job: Job)
    requires ValueOk(r, job)
    ensures r.distance == NO_DISTANCE || 0 <= r.distance <= 400
    ensures !Updating(job) ==> (r.occupied <==> r.distance <= OCCUPIED_THRESHOLD_CM)
    ensures !Updating(job) ==> (r.occupied <==> r.pulse.Some? && r.pulse.value < 348)
    ensures !Updating(job) && !Lighting(job) ==> r.led == r.occupied
  {
  }

  /** us is the length in whole microseconds of a pulse that was really seen, of 1 to 23200. */
  ghost predicate Measures(e: Echo, us: int, from: Pulse) {
    && TriggeredPulse(e, from.trigger, from.start, from.stop)
    && 1000 * us <= from.stop - from.start < 1000 * (us + 1)
    && 1 <= us <= 23200
  }

  /** The pulse being reported and the pulse last reported were measured. */
  ghost predicate MeasuredOk(e: Echo, r: Report, job: Job) {
    && (job.Measure? && job.sensorPc.PutDistance? ==> Measures(e, job.sensorPc.us, job.sensorPc.from))
    && (r.pulse.Some? ==> Measures(e, r.pulse.value, r.from))
  }

  lemma MeasuresOutlives(e: Echo, e': Echo, us: int, from: Pulse)
    requires Measures(e, us, from)
    requires e'.edges == e.edges || exists edge :: e'.edges == e.edges + [edge]
    requires e'.triggers == e.triggers || e'.triggers == e.triggers + [|e.edges|]
    ensures Measures(e', us, from)
  {
    TriggeredPulseOutlives(e, e', from.trigger, from.start, from.stop);
  }

  lemma HistoryGrows(sl: Slot, job: Job, act: SlotAct, now: int)
    requires Drivable(sl.bolt)
    ensures var e, e' := sl.echo, SlotStep(sl, job, act, now, false).slot.echo;
            && (e'.edges == e.edges || exists edge :: e'.edges == e.edges + [edge])
            && (e'.triggers == e.triggers || e'.triggers == e.triggers + [|e.edges|])
  {
    if act == Commit && sl.echo.isr.EchoSampled? {
      assert SlotStep(sl, job, act, now, false).slot.echo.edges == sl.echo.edges + [sl.echo.isr.edge];
    }
  }

  /** Which pulses a step brings into play: the one judged, or the one already on its way. */
  lemma PulseFlow(sl: Slot, job: Job, act: SlotAct, now: int)
    requires Drivable(sl.bolt)
    ensures var o := SlotStep(sl, job, act, now, false);
            && (o.job.Measure? && o.job.sensorPc.PutDistance? ==>
                  var pc := o.job.sensorPc;
                  o.job == job
                  || (job.Measure? && job.sensorPc == Judge(pc.from.start, pc.from.stop, pc.from.trigger)
                      && 1000 * pc.us <= pc.from.stop - pc.from.start < 1000 * (pc.us + 1) && 1 <= pc.us <= 23200))
            && ((o.slot.report.pulse == sl.report.pulse && o.slot.report.from == sl.report.from)
                || (job.Measure? && job.sensorPc.PutDistance?
                    && o.slot.report.pulse == Some(job.sensorPc.us) && o.slot.report.from == job.sensorPc.from))
  {
  }

  lemma MeasuredOkStep(sl: Slot, job: Job, act: SlotAct, now: int)
    requires Drivable(sl.bolt) && MeasuredOk(sl.echo, sl.report, job) && EchoOk(sl.echo, job, now)
    ensures var o := SlotStep(sl, job, act, now, false); MeasuredOk(o.slot.echo, o.slot.report, o.job)
  {
    hide SlotStep, TriggeredPulse, OnePulse, RisingPulse;
    var o := SlotStep(sl, job, act, now, false);
    HistoryGrows(sl, job, act, now);
    PulseFlow(sl, job, act, now);
    if job.Measure? && job.sensorPc.Judge? {
      var pc := job.sensorPc;
      TriggeredPulseOutlives(sl.echo, o.slot.echo, pc.trigger, pc.start, pc.stop);
    }
    if job.Measure? && job.sensorPc.PutDistance? {
      MeasuresOutlives(sl.echo, o.slot.echo, job.sensorPc.us, job.sensorPc.from);
    }
    if sl.report.pulse.Some? {
      MeasuresOutlives(sl.echo, o.slot.echo, sl.report.pulse.value, sl.report.from);
    }
  }

  // ---- The change flag --------------------------------------------------------------

  /** The worker has changed the occupancy and has yet to raise the flag. */
  predicate AboutToRaise(job: Job) {
    || (Lighting(job) && OccupiedBy(job.sensorPc.us) != job.sensorPc.prev)
    || (job.Measure? && job.sensorPc.Notify? && job.sensorPc.occupied != job.sensorPc.prev)
  }

  /** No change is lost: what the reader last picked up is current, or the flag is up,
      or it is about to go up, or the reader has yet to pick this slot up. */
  predicate ReportOk(r: Report, job: Job, changed: bool, toTake: bool) {
    r.taken != r.occupied ==> changed || AboutToRaise(job) || toTake
  }

  lemma ReportOkStep(sl: Slot, job: Job, act: SlotAct, now: int, changed: bool, toTake: bool)
    requires Drivable(sl.bolt) && ValueOk(sl.report, job) && ReportOk(sl.report, job, changed, toTake)
    ensures var o := SlotStep(sl, job, act, now, false);
            ReportOk(o.slot.report, o.job, changed || o.raise, toTake && act != Take)
  {
  }

  // ---- The readings -----------------------------------------------------------------

  /** The lock word as the sensor work is about to leave it. */
  function LockWord(l: Lock, job: Job): LockState {
    if job.Measure? && job.sensorPc.PutLock? then job.sensorPc.next else l.st
  }

  predicate TimerAgrees(t: Timer, word: LockState, l: Lock) {
    if word == Free then t.st == Free
    else if word == Timing then t == Timer(Timing, l.start, l.count)
    else t.st == Locking
  }

  ghost predicate HistoryOk(l: Lock, job: Job, now: int) {
    && Ordered(l.readings)
    && (forall r :: r in l.readings ==> r.time <= now)
    && TimerAgrees(Track(Epoch(l.readings), |Epoch(l.readings)|), LockWord(l, job), l)
  }

  /** Judging one more reading keeps the timer in step with the readings. */
  lemma ThinkAgrees(l: Lock, r: Reading)
    requires var e := Epoch(l.readings); TimerAgrees(Track(e, |e|), l.st, l)
    requires r.seen == Free || r.seen == Timing || r.seen == WaitEmpty ==> l.st == r.seen
    requires r.seen == Locking || r.seen == Locked || r.seen == Unlocking ==> Track(Epoch(l.readings), |Epoch(l.readings)|).st == Locking
    ensures var t := Decide(Timer(r.seen, l.start, l.count), r.occupied, r.time);
            var e := Epoch(l.readings + [r]);
            TimerAgrees(Track(e, |e|), if t.st == r.seen then l.st else t.st, l.(start := t.start, count := t.count))
  {
    var e := Epoch(l.readings);
    EpochOfOneMore(l.readings, r);
    if r.seen == Free || r.seen == Timing {
      TrackOfPrefix(e, r, |e|);
      assert Track(e + [r], |e| + 1) == Decide(Track(e, |e|), r.occupied, r.time);
    }
  }

  /** A stale sight of the lock word can only be of a slot that is locking, locked or
      unlocking. */
  predicate SightOk(l: Lock, job: Job) {
    job.Measure? && job.sensorPc.Think? && (job.sensorPc.seen == Locking || job.sensorPc.seen == Locked || job.sensorPc.seen == Unlocking)
    ==> l.st == Locking || l.st == Locked || l.st == Unlocking
  }

  lemma SightOkStep(sl: Slot, job: Job, act: SlotAct, now: int)
    requires Drivable(sl.bolt) && LockOk(sl.lock, job) && SightOk(sl.lock, job)
    ensures var o := SlotStep(sl, job, act, now, false); SightOk(o.slot.lock, o.job)
  {
    match act {
      case Work => if job.Move? { assert !SlotStep(sl, job, act, now, false).job.Measure?; }
      case _ =>
    }
  }

  /** What the worker that judges a reading knows about the lock word. */
  lemma SeenAtThink(l: Lock, occ: bool, seen: LockState, now: int)
    requires var job := Measure(Think(occ, seen)); LockOk(l, job) && SightOk(l, job) && HistoryOk(l, job, now)
    ensures var e := Epoch(l.readings);
            && TimerAgrees(Track(e, |e|), l.st, l)
            && (seen == Free || seen == Timing || seen == WaitEmpty ==> l.st == seen)
            && (seen == Locking || seen == Locked || seen == Unlocking ==> Track(e, |e|).st == Locking)
            && Ordered(l.readings) && forall r :: r in l.readings ==> r.time <= now
  {
    hide Track, Epoch;
  }

  lemma OrderedOneMore(rs: seq<Reading>, r: Reading)
    requires Ordered(rs) && forall q :: q in rs ==> q.time <= r.time
    ensures Ordered(rs + [r]) && forall q :: q in rs + [r] ==> q.time <= r.time
  {
  }

  lemma HistoryOkThink(l: Lock, occ: bool, seen: LockState, now: int)
    requires var job := Measure(Think(occ, seen)); LockOk(l, job) && SightOk(l, job) && HistoryOk(l, job, now)
    ensures var t := Decide(Timer(seen, l.start, l.count), occ, now);
            HistoryOk(l.(start := t.start, count := t.count, readings := l.readings + [Reading(now, occ, seen)]),
                      if t.st == seen then NoJob else Measure(PutLock(seen, t.st)), now)
  {
    hide LockOk, SightOk, Track, Epoch, Decide, Ordered;
    SeenAtThink(l, occ, seen, now);
    OrderedOneMore(l.readings, Reading(now, occ, seen));
    ThinkAgrees(l, Reading(now, occ, seen));
  }

  /** Steps that append no reading and leave the word about to be stored as it is, or
      move it on within a stay that has locked. */
  lemma HistoryOkQuiet(l: Lock, job: Job, l': Lock, job': Job, now: int)
    requires HistoryOk(l, job, now)
    requires l'.readings == l.readings && l'.start == l.start && l'.count == l.count
    requires LockWord(l', job') == LockWord(l, job)
             || (LockWord(l, job) != Free && LockWord(l, job) != Timing && LockWord(l', job') != Free && LockWord(l', job') != Timing)
    ensures HistoryOk(l', job', now)
  {
  }

  lemma HistoryOkSensor(sl: Slot, pc: SensorPc, now: int)
    requires LockOk(sl.lock, Measure(pc)) && SightOk(sl.lock, Measure(pc)) && HistoryOk(sl.lock, Measure(pc), now)
    ensures var o := SensorStep(sl, pc, now, false); HistoryOk(o.slot.lock, o.job, now)
  {
    if pc.Think? {
      HistoryOkThink(sl.lock, pc.occupied, pc.seen, now);
    } else {
      var o := SensorStep(sl, pc, now, false);
      HistoryOkQuiet(sl.lock, Measure(pc), o.slot.lock, o.job, now);
    }
  }

  lemma HistoryOkMove(sl: Slot, pc: LockPc, now: int)
    requires Drivable(sl.bolt) && LockOk(sl.lock, Move(pc)) && HistoryOk(sl.lock, Move(pc), now)
    ensures var o := LockStep(sl, pc, false); HistoryOk(o.slot.lock, o.job, now)
  {
    var o := LockStep(sl, pc, false);
    HistoryOkQuiet(sl.lock, Move(pc), o.slot.lock, o.job, now);
  }

  lemma HistoryOkButton(sl: Slot, job: Job, now: int)
    requires LockOk(sl.lock, job) && HistoryOk(sl.lock, job, now)
    ensures var o := ButtonStep(sl, job, false); HistoryOk(o.slot.lock, o.job, now)
  {
    var o := ButtonStep(sl, job, false);
    HistoryOkQuiet(sl.lock, job, o.slot.lock, o.job, now);
  }

  lemma HistoryOkStep(sl: Slot, job: Job, act: SlotAct, now: int)
    requires Drivable(sl.bolt) && LockOk(sl.lock, job) && SightOk(sl.lock, job) && HistoryOk(sl.lock, job, now)
    ensures var o := SlotStep(sl, job, act, now, false); HistoryOk(o.slot.lock, o.job, now)
  {
    match act {
      case Button => HistoryOkButton(sl, job, now);
      case Work =>
        match job {
          case Measure(pc) => HistoryOkSensor(sl, pc, now);
          case Move(pc) => HistoryOkMove(sl, pc, now);
          case NoJob =>
        }
      case _ =>
        var o := SlotStep(sl, job, act, now, false);
        HistoryOkQuiet(sl.lock, job, o.slot.lock, o.job, now);
    }
  }

  /** The lock decision, from the readings alone: judging a reading leads to LOCKING
      exactly when the slot was FREE or TIMING and the reading is due in its epoch. */
  lemma LocksWhenDue(l: Lock, occ: bool, seen: LockState, now: int)
    requires var job := Measure(Think(occ, seen)); LockOk(l, job) && HistoryOk(l, job, now)
    ensures var e := Epoch(l.readings + [Reading(now, occ, seen)]);
            (Decide(Timer(seen, l.start, l.count), occ, now).st == Locking && seen != Locking)
            <==> (seen == Free || seen == Timing) && LockDue(e, |e| - 1)
  {
    hide LockDue, TimerMeans, StaySince, EmptyRun, Track, Epoch;
    var r := Reading(now, occ, seen);
    var before := Epoch(l.readings);
    EpochOfOneMore(l.readings, r);
    if seen == Free || seen == Timing {
      var e := before + [r];
      var t := Track(before, |before|);
      TrackOfPrefix(before, r, |before|);
      EpochIsOrdered(l.readings + [r]);
      TrackMeaning(e, |before|);
      OneReading(e, |before|, t);
      assert Decide(t, occ, now).st == Decide(Timer(seen, l.start, l.count), occ, now).st;
    }
  }

  // ---- The button -------------------------------------------------------------------

  const BOUNCE_NS := DEBOUNCE_MS * NS_PER_MS

  /** The presses the interrupt has judged. */
  function JudgedPresses(l: Lock): seq<int>
    requires |l.marks| <= |l.presses|
  {
    l.presses[..|l.marks|]
  }

  /** All presses but the one in hand are judged, as a debouncer that starts at time 0 would;
      last_btn_time is the last accepted one. */
  predicate PressesOk(l: Lock) {
    && |l.presses| == |l.marks| + One(l.btn.BtnTimed?)
    && (l.btn.BtnTimed? ==> l.presses[|l.marks|] == l.btn.time)
    && l.marks == Debounce.Accepted(0, BOUNCE_NS, JudgedPresses(l))
    && l.lastBtn == Debounce.LastAccepted(0, BOUNCE_NS, JudgedPresses(l))
  }

  lemma PressesOkStep(sl: Slot, job: Job, act: SlotAct, now: int)
    requires Drivable(sl.bolt) && PressesOk(sl.lock)
    ensures var o := SlotStep(sl, job, act, now, false); PressesOk(o.slot.lock)
  {
    var l, l' := sl.lock, SlotStep(sl, job, act, now, false).slot.lock;
    if act == Button && l.btn.BtnTimed? {
      Debounce.MillisecondTest(l.btn.time, l.lastBtn, DEBOUNCE_MS);
      Debounce.AcceptedOneMore(0, BOUNCE_NS, JudgedPresses(l), l.btn.time);
      assert JudgedPresses(l') == JudgedPresses(l) + [l.btn.time];
    } else {
      OtherStepsKeepPresses(sl, job, act, now);
      assert JudgedPresses(l') == JudgedPresses(l);
    }
  }

  lemma OtherStepsKeepPresses(sl: Slot, job: Job, act: SlotAct, now: int)
    requires Drivable(sl.bolt) && !(act == Button && sl.lock.btn.BtnTimed?)
    ensures var l, l' := sl.lock, SlotStep(sl, job, act, now, false).slot.lock;
            && l'.marks == l.marks && l'.lastBtn == l.lastBtn
            && if act == Press && l.btn == BtnQuiet then l'.btn == BtnTimed(now) && l'.presses == l.presses + [now]
               else l'.presses == l.presses && l'.btn.BtnTimed? == l.btn.BtnTimed? && (l.btn.BtnTimed? ==> l'.btn == l.btn)
  {
  }

  // ---- All of it --------------------------------------------------------------------

  ghost predicate SlotOk(sl: Slot, job: Job, now: int) {
    && Drivable(sl.bolt)
    && LockOk(sl.lock, job)
    && SightOk(sl.lock, job)
    && EchoWorkOk(sl.echo, job)
    && BoltOk(sl.bolt, sl.lock.st, job)
    && EchoOk(sl.echo, job, now)
    && ValueOk(sl.report, job)
    && HistoryOk(sl.lock, job, now)
    && PressesOk(sl.lock)
    && MeasuredOk(sl.echo, sl.report, job)
  }

  lemma SlotOkStep(sl: Slot, job: Job, act: SlotAct, now: int)
    requires SlotOk(sl, job, now)
    ensures var o := SlotStep(sl, job, act, now, false); SlotOk(o.slot, o.job, now) && o.slot.bolt.dir == sl.bolt.dir
  {
    LockOkStep(sl, job, act, now);
    SightOkStep(sl, job, act, now);
    EchoWorkOkStep(sl, job, act, now);
    BoltOkStep(sl, job, act, now);
    EchoOkStep(sl, job, act, now);
    ValueOkStep(sl, job, act, now);
    HistoryOkStep(sl, job, act, now);
    PressesOkStep(sl, job, act, now);
    MeasuredOkStep(sl, job, act, now);
  }

  lemma SlotOkLater(sl: Slot, job: Job, now: int, later: int)
    requires SlotOk(sl, job, now) && now <= later
    ensures SlotOk(sl, job, later)
  {
  }

  lemma SlotOkInitially(lockDir: int, now: int)
    requires lockDir == 1 || lockDir == -1
    ensures SlotOk(InitialSlot(lockDir), NoJob, now)
  {
    hide BoltOk, EchoOk, ValueOk, HistoryOk, PressesOk;
    var sl := InitialSlot(lockDir);
    assert BoltOk(sl.bolt, sl.lock.st, NoJob) && ValueOk(sl.report, NoJob) by { RestsInitially(lockDir); }
    assert EchoOk(sl.echo, NoJob, now) && HistoryOk(sl.lock, NoJob, now) && PressesOk(sl.lock) by { NothingRecordedInitially(lockDir, now); }
  }

  lemma RestsInitially(lockDir: int)
    requires lockDir == 1 || lockDir == -1
    ensures var sl := InitialSlot(lockDir); BoltOk(sl.bolt, sl.lock.st, NoJob) && ValueOk(sl.report, NoJob)
  {
  }

  lemma NothingRecordedInitially(lockDir: int, now: int)
    ensures var sl := InitialSlot(lockDir);
            EchoOk(sl.echo, NoJob, now) && HistoryOk(sl.lock, NoJob, now) && PressesOk(sl.lock)
  {
    assert JudgedPresses(InitialSlot(lockDir).lock) == [];
  }
}
