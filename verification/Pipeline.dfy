/** From the slot sensors to the FULL lamp at the gate: the RPI1 driver, the daemon that
    reads its status line and publishes the lot state, the MQTT topic, and the bridge that
    writes what it receives to the RPI2 gate driver.  The topic keeps the order of its
    messages (MQTT 3.1.1 section 4.6), delivers each at least once (section 4.3.2), and
    hands its last message to a new subscription (section 3.3.1.3). */
module Pipeline {
  import opened Options
  import opened SlotMachine
  import opened SlotInvariants
  import opened Driver
  import opened DriverTheorems
  import StatusText
  import Daemon
  import GateDevice

  /** The daemon is in read(), or about to publish the line it got, or has left its loop
      after a failed read. */
  datatype DaemonState = InRead | Publishing(line: string) | Stopped

  /** `sent` is every lot message so far, `next` the one the bridge is handed next, `acked`
      how many it has acknowledged, `last` the one it was handed last (-1 for none).
      `told` is the occupancy of both slots in the last line read: history only. */
  datatype System = System(driver: State, daemon: DaemonState, sent: seq<string>, acked: nat, next: nat, last: int,
                           capacity: GateDevice.Capacity, told: (bool, bool))

  datatype Event =
    | Drive(action: Action)
    | ReadReturns
    | Publish
    | Deliver
    | Acknowledge(count: nat)
    | Redeliver
    | Resubscribe

  function Start(now: int): System {
    System(Initial(now), InRead, [], 0, 0, -1, GateDevice.Capacity(false, false), (false, false))
  }

  function Bit(b: bool): int { if b then 1 else 0 }

  function StatusOf(r: Reader): StatusText.Status
    requires Complete(r)
  {
    StatusText.Status(Bit(r.occupied[0].value), Bit(r.occupied[1].value), r.distance[0].value, r.distance[1].value)
  }

  predicate SystemShaped(s: System) { Shaped(s.driver) && (s.next <= |s.sent|) && s.acked <= s.next }

  function Next(s: System, e: Event): System
    requires SystemShaped(s)
  {
    match e
    case Drive(a) =>
      if a == Return || (a == Wake && s.daemon != InRead) then s else s.(driver := Step(s.driver, a, false))
    case ReadReturns =>
      if Complete(s.driver.reader) && s.daemon == InRead then
        var line := StatusText.Print(StatusOf(s.driver.reader));
        s.(driver := Step(s.driver, Return, false),
           daemon := if |line| > Daemon.READ_SIZE then Stopped else Publishing(line),
           told := (s.driver.reader.occupied[0].value, s.driver.reader.occupied[1].value))
      else s
    case Publish =>
      if s.daemon.Publishing? then
        match StatusText.Parse(s.daemon.line)
        case None => s.(daemon := InRead)
        case Some(status) => s.(daemon := InRead, sent := s.sent + [Daemon.LotText(status)])
      else s
    case Deliver =>
      if s.next < |s.sent| then
        s.(capacity := GateDevice.Obey(s.capacity, GateDevice.Command(s.sent[s.next])), last := s.next, next := s.next + 1)
      else s
    case Acknowledge(count) => if s.acked <= count <= s.next then s.(acked := count) else s
    case Redeliver => s.(next := s.acked)
    case Resubscribe => if s.sent == [] then s else s.(acked := |s.sent| - 1, next := |s.sent| - 1)
  }

  // ---- The invariant ----------------------------------------------------------------

  function Lot(told: (bool, bool)): string { if told.0 && told.1 then "FULL" else "AVAILABLE" }

  /** The newest lot state on its way: the line in the daemon's hands, else the last
      message sent, else nothing, which stands for "available". */
  ghost predicate ToldIsNewest(daemon: DaemonState, sent: seq<string>, told: (bool, bool)) {
    match daemon
    case InRead => if sent == [] then told == (false, false) else sent[|sent| - 1] == Lot(told)
    case Publishing(line) => exists d1: int, d2: int :: line == StatusText.Print(StatusText.Status(Bit(told.0), Bit(told.1), d1, d2))
    case Stopped => false
  }

  ghost predicate SystemOk(s: System) {
    && SystemShaped(s)
    && Inv(s.driver)
    && (!s.driver.reader.Collecting? ==>
        s.told == (s.driver.slots[0].report.taken, s.driver.slots[1].report.taken))
    && (s.daemon != InRead ==> s.driver.reader == Sleeping)
    && ToldIsNewest(s.daemon, s.sent, s.told)
    && (forall k :: 0 <= k < |s.sent| ==> s.sent[k] == "FULL" || s.sent[k] == "AVAILABLE")
    && -1 <= s.last < |s.sent|
    && (s.next == |s.sent| ==> s.last == |s.sent| - 1)
    && s.capacity == (if s.last < 0 then GateDevice.Capacity(false, false)
                      else GateDevice.Capacity(s.sent[s.last] == "FULL", s.sent[s.last] == "FULL"))
  }

  lemma LotCommands()
    ensures GateDevice.Command("FULL") == "FULL" && GateDevice.Command("AVAILABLE") == "AVAILABLE"
  {
    GateDevice.CommandIs("FULL", "FULL");
    GateDevice.CommandIs("AVAILABLE", "AVAILABLE");
  }

  /** A driver step other than picking an occupancy up leaves what was picked up alone. */
  lemma DriveKeepsTaken(d: State, a: Action)
    requires Inv(d) && a != Return
    ensures var d' := Step(d, a, false);
            && Inv(d')
            && (!d'.reader.Collecting? ==> d'.slots[0].report.taken == d.slots[0].report.taken
                                           && d'.slots[1].report.taken == d.slots[1].report.taken
                                           && !d.reader.Collecting?)
            && (d.reader == Sleeping && a != Wake ==> d'.reader == Sleeping)
  {
    hide SlotOk, SlotStep, QueueOk, ReaderOk, SlotsOk;
    StepKeepsInv(d, a);
    forall i: nat, act | i < NUM_SPACES && act != Take
      ensures SlotStep(d.slots[i], JobAt(d.worker, i), act, d.now, false).slot.report.taken == d.slots[i].report.taken
    {
      TakenOnlyByReader(d.slots[i], JobAt(d.worker, i), act, d.now);
    }
  }

  lemma DriveKeeps(s: System, a: Action)
    requires SystemOk(s)
    ensures SystemOk(Next(s, Drive(a)))
  {
    hide Inv, Step;
    if !(a == Return || (a == Wake && s.daemon != InRead)) {
      StepKeepsShape(s.driver, a, false);
      DriveKeepsTaken(s.driver, a);
    }
  }

  /** What a complete reading holds. */
  lemma ReadingInRange(d: State)
    requires Inv(d) && Complete(d.reader)
    ensures d.reader.occupied[0].value == d.slots[0].report.taken && d.reader.occupied[1].value == d.slots[1].report.taken
    ensures forall i :: 0 <= i < NUM_SPACES ==>
              var v := d.reader.distance[i].value; v == NO_DISTANCE || 0 <= v <= 400
  {
    hide SlotOk, ReportOk, QueueOk;
  }

  /** The line of a read always fits, so the daemon's loop never ends on it. */
  lemma ReadKeeps(s: System)
    requires SystemOk(s)
    ensures SystemOk(Next(s, ReadReturns))
  {
    hide Inv, Step, StatusText.Print;
    if Complete(s.driver.reader) && s.daemon == InRead {
      var d := s.driver;
      ReadingInRange(d);
      var status := StatusOf(d.reader);
      StatusText.ReachableLineFits(status);
      StepKeepsInv(d, Return);
      var s' := Next(s, ReadReturns);
      assert s'.driver == d.(reader := Sleeping) by { ReturnOnlySleeps(d); }
      assert s'.daemon == Publishing(StatusText.Print(StatusText.Status(Bit(s'.told.0), Bit(s'.told.1), status.distance1, status.distance2)));
    }
  }

  lemma ReturnOnlySleeps(d: State)
    requires Shaped(d) && Complete(d.reader)
    ensures Step(d, Return, false) == d.(reader := Sleeping)
  {
  }

  lemma PublishKeeps(s: System)
    requires SystemOk(s)
    ensures SystemOk(Next(s, Publish))
  {
    hide Inv, StatusText.Print, StatusText.Parse;
    if s.daemon.Publishing? {
      var d1: int, d2: int :| s.daemon.line == StatusText.Print(StatusText.Status(Bit(s.told.0), Bit(s.told.1), d1, d2));
      StatusText.RoundTrip(StatusText.Status(Bit(s.told.0), Bit(s.told.1), d1, d2));
    }
  }

  lemma DeliverKeeps(s: System)
    requires SystemOk(s)
    ensures SystemOk(Next(s, Deliver))
  {
    hide Inv, GateDevice.Command;
    LotCommands();
  }

  lemma NextKeeps(s: System, e: Event)
    requires SystemOk(s)
    ensures SystemOk(Next(s, e))
  {
    hide Inv;
    match e {
      case Drive(a) => DriveKeeps(s, a);
      case ReadReturns => ReadKeeps(s);
      case Publish => PublishKeeps(s);
      case Deliver => DeliverKeeps(s);
      case _ =>
    }
  }

  /** The system after any list of events. */
  ghost function After(now: int, es: seq<Event>): (s: System)
    ensures SystemOk(s)
  {
    if es == [] then InitiallyInv(now); Start(now)
    else
      var before := After(now, es[..|es| - 1]);
      NextKeeps(before, es[|es| - 1]);
      Next(before, es[|es| - 1])
  }

  // ---- Convergence ------------------------------------------------------------------

  /** Everything on its way has arrived. */
  predicate Drained(s: System)
    requires |s.driver.slots| == NUM_SPACES
  {
    Quiet(s.driver) && s.daemon == InRead && s.next == |s.sent|
  }

  ghost predicate Converged(s: System)
    requires |s.driver.slots| == NUM_SPACES
  {
    && s.capacity.full == (s.driver.slots[0].report.occupied && s.driver.slots[1].report.occupied)
    && s.capacity.led == s.capacity.full
  }

  lemma QuietReaderIsCurrent(d: State)
    requires Inv(d) && Quiet(d)
    ensures forall i: nat :: i < NUM_SPACES ==> d.slots[i].report.taken == d.slots[i].report.occupied
  {
    hide SlotOk, QueueOk;
  }

  /** In any drained state the capacity flag and the lamp say whether both slots are
      occupied, although lines may have mixed readings of different moments. */
  lemma DrainedIsConverged(s: System)
    requires SystemOk(s) && Drained(s)
    ensures Converged(s)
  {
    hide Inv;
    QuietReaderIsCurrent(s.driver);
  }

  /** Steps of the system that need no new sensor edge, button press, trigger or tick and
      no reconnection. */
  predicate Settling(e: Event) {
    (e.Drive? && Internal(e.action) && e.action != Return) || e == ReadReturns || e == Publish || e == Deliver
  }

  function ToDo(s: System): nat
    requires |s.driver.slots| == NUM_SPACES && s.next <= |s.sent|
  {
    3 * WorkLeft(s.driver) + (if s.daemon.Publishing? then 2 else 0) + (|s.sent| - s.next)
  }

  /** Every settling step that does anything leaves less to do. */
  lemma SettlingDescends(s: System, e: Event)
    requires SystemOk(s) && Settling(e)
    ensures SystemOk(Next(s, e))
    ensures Next(s, e) == s || ToDo(Next(s, e)) < ToDo(s)
  {
    hide Inv, Step, StatusText.Print, StatusText.Parse, GateDevice.Command, WorkLeft;
    NextKeeps(s, e);
    match e {
      case Drive(a) => InternalStepsDescend(s.driver, a);
      case ReadReturns =>
        if Complete(s.driver.reader) && s.daemon == InRead {
          InternalStepsDescend(s.driver, Return);
          ReturnOnlySleeps(s.driver);
        }
      case Publish =>
        if s.daemon.Publishing? {
          var d1: int, d2: int :| s.daemon.line == StatusText.Print(StatusText.Status(Bit(s.told.0), Bit(s.told.1), d1, d2));
          StatusText.RoundTrip(StatusText.Status(Bit(s.told.0), Bit(s.told.1), d1, d2));
        }
      case Deliver =>
    }
  }

  /** A system no settling step can change is drained. */
  lemma StuckIsDrained(s: System)
    requires SystemOk(s) && Stuck(s)
    ensures Drained(s)
  {
    hide Inv, Step, StatusText.Print, StatusText.Parse, GateDevice.Command, Quiet;
    assert Settling(Publish) && Settling(Deliver) && Settling(ReadReturns);
    assert Next(s, Deliver) == s && Next(s, Publish) == s && Next(s, ReadReturns) == s;
    assert s.next == |s.sent|;
    assert s.daemon == InRead;
    assert !Complete(s.driver.reader);
    forall a | Internal(a) ensures Step(s.driver, a, false) == s.driver {
      if a == Return {
        IncompleteStays(s.driver);
      } else {
        assert Settling(Drive(a));
        assert Next(s, Drive(a)) == s;
      }
    }
    StuckIsQuiet(s.driver);
  }

  lemma IncompleteStays(d: State)
    requires Shaped(d) && !Complete(d.reader)
    ensures Step(d, Return, false) == d
  {
  }

  /** The system after a list of events from a given state. */
  ghost function Onward(s: System, es: seq<Event>): (s': System)
    requires SystemOk(s)
    ensures SystemOk(s')
    decreases |es|
  {
    if es == [] then s else NextKeeps(s, es[0]); Onward(Next(s, es[0]), es[1..])
  }

  /** Every event of the list is a settling step that changes something. */
  ghost predicate AllSettling(s: System, es: seq<Event>)
    requires SystemOk(s)
    decreases |es|
  {
    es == [] || (Settling(es[0]) && Next(s, es[0]) != s && (NextKeeps(s, es[0]); AllSettling(Next(s, es[0]), es[1..])))
  }

  /** Settling always ends: from any state there is a bound on the steps that still change
      something. */
  lemma {:induction false} SettlingEnds(s: System, es: seq<Event>)
    requires SystemOk(s)
    ensures AllSettling(s, es) ==> |es| <= ToDo(s)
    decreases |es|
  {
    hide Inv, Next, ToDo, ToldIsNewest;
    if AllSettling(s, es) && es != [] {
      SettlingDescends(s, es[0]);
      SettlingEnds(Next(s, es[0]), es[1..]);
    }
  }

  /** No settling step changes anything any more. */
  ghost predicate Stuck(s: System)
    requires SystemShaped(s)
  {
    forall e :: Settling(e) ==> Next(s, e) == s
  }

  /** There always is a settling that goes on until nothing is left to do. */
  lemma {:induction false} CanSettle(s: System) returns (es: seq<Event>)
    requires SystemOk(s)
    ensures AllSettling(s, es) && Stuck(Onward(s, es))
    decreases ToDo(s)
  {
    hide Inv, Next, ToDo, ToldIsNewest;
    if e :| Settling(e) && Next(s, e) != s {
      SettlingDescends(s, e);
      var rest := CanSettle(Next(s, e));
      es := [e] + rest;
      assert es[1..] == rest;
    } else {
      es := [];
    }
  }

  /** End-to-end convergence.  After any run whatever, once the sensors go quiet: settling
      ends within ToDo steps; whichever way it goes, when it can go no further the capacity
      flag and the lamp say "both slots occupied"; and it can be brought to that point. */
  lemma Convergence(now: int, run: seq<Event>)
    ensures var s := After(now, run);
            && (forall es :: AllSettling(s, es) ==> |es| <= ToDo(s))
            && (forall es :: AllSettling(s, es) && Stuck(Onward(s, es)) ==> Drained(Onward(s, es)) && Converged(Onward(s, es)))
            && (exists es :: AllSettling(s, es) && Stuck(Onward(s, es)))
  {
    hide Inv, Next, ToDo, Drained, Converged, ToldIsNewest, AllSettling, After, Stuck;
    var s := After(now, run);
    forall es ensures AllSettling(s, es) ==> |es| <= ToDo(s) {
      SettlingEnds(s, es);
    }
    forall es | AllSettling(s, es) && Stuck(Onward(s, es)) ensures Drained(Onward(s, es)) && Converged(Onward(s, es)) {
      StuckIsDrained(Onward(s, es));
      DrainedIsConverged(Onward(s, es));
    }
    var es := CanSettle(s);
  }
}
