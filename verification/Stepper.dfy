/** The 28BYJ-48 stepper shared by the slot bolts and the gate: the eight half-step
    coil patterns, and a rotor that only sees the patterns written to its pins.
    The rotor position is never told to the rotor by a program; it follows from the
    patterns.  A pattern that is not next to the last energised one makes the rotor
    slip, and the position says nothing after that. */
module Stepper {

  datatype Coils = Coils(in1: bool, in2: bool, in3: bool, in4: bool)

  const OFF: Coils := Coils(false, false, false, false)

  /** The cycle of half-step patterns. */
  function HalfStep(k: int): Coils
    requires 0 <= k < 8
  {
    match k
    case 0 => Coils(true, false, false, false)
    case 1 => Coils(true, true, false, false)
    case 2 => Coils(false, true, false, false)
    case 3 => Coils(false, true, true, false)
    case 4 => Coils(false, false, true, false)
    case 5 => Coils(false, false, true, true)
    case 6 => Coils(false, false, false, true)
    case _ => Coils(true, false, false, true)
  }

  /** Each coil is on in three neighbouring patterns out of eight, the coils one after the
      other two patterns apart. */
  lemma CoilsInTurn(k: int)
    requires 0 <= k < 8
    ensures HalfStep(k).in1 <==> k in {7, 0, 1}
    ensures HalfStep(k).in2 <==> k in {1, 2, 3}
    ensures HalfStep(k).in3 <==> k in {3, 4, 5}
    ensures HalfStep(k).in4 <==> k in {5, 6, 7}
  {
  }

  /** How many of the four pins differ. */
  function Distance(a: Coils, b: Coils): nat {
    (if a.in1 != b.in1 then 1 else 0) + (if a.in2 != b.in2 then 1 else 0) +
    (if a.in3 != b.in3 then 1 else 0) + (if a.in4 != b.in4 then 1 else 0)
  }

  /** `coils` is what the pins show now, `last` the last pattern that was not all zero
      (the rotor rests there when the coils go off), `lo` and `hi` the extreme positions
      ever visited, `slips` the number of patterns the rotor could not follow. */
  datatype Rotor = Rotor(pos: int, lo: int, hi: int, coils: Coils, last: Coils, slips: nat)

  /** The rotor of a motor whose pins start low, resting at half-step 0. */
  const RESTING: Rotor := Rotor(0, 0, 0, OFF, HalfStep(0), 0)

  function MovedTo(r: Rotor, pos: int): Rotor {
    r.(pos := pos, lo := if pos < r.lo then pos else r.lo, hi := if pos > r.hi then pos else r.hi)
  }

  /** The rotor after the pattern `c` is put on the pins.  It turns one half-step
      forward when `c` is the cyclic successor of the last energised pattern, one back
      when it is the predecessor, and not at all when `c` is the same or all zero. */
  function Drive(r: Rotor, c: Coils): Rotor {
    if c == OFF || c == r.last then r.(coils := c)
    else if Successor(r.last) == c then MovedTo(r, r.pos + 1).(coils := c, last := c)
    else if Successor(c) == r.last then MovedTo(r, r.pos - 1).(coils := c, last := c)
    else r.(coils := c, last := c, slips := r.slips + 1)
  }

  /** The next half-step pattern; OFF for a pattern that is not in the cycle. */
  function Successor(c: Coils): Coils {
    if c == HalfStep(0) then HalfStep(1)
    else if c == HalfStep(1) then HalfStep(2)
    else if c == HalfStep(2) then HalfStep(3)
    else if c == HalfStep(3) then HalfStep(4)
    else if c == HalfStep(4) then HalfStep(5)
    else if c == HalfStep(5) then HalfStep(6)
    else if c == HalfStep(6) then HalfStep(7)
    else if c == HalfStep(7) then HalfStep(0)
    else OFF
  }

  /** The software phase counter agrees with the rotor: it names the last energised
      pattern and is the position modulo 8, and no step was ever lost. */
  predicate InPhase(r: Rotor, phase: int) {
    && 0 <= phase < 8
    && phase == r.pos % 8
    && r.last == HalfStep(phase)
    && r.slips == 0
  }

  /** Phase counter update of the drivers, dir being 1 or -1. */
  function NextPhase(phase: int, dir: int): int { (phase + dir + 8) % 8 }

  /** One motor step in phase turns the rotor by exactly `dir` and stays in phase. */
  lemma StepTurnsByOne(r: Rotor, phase: int, dir: int)
    requires InPhase(r, phase)
    requires dir == 1 || dir == -1
    ensures var p := NextPhase(phase, dir);
            && InPhase(Drive(r, HalfStep(p)), p)
            && Drive(r, HalfStep(p)) == MovedTo(r, r.pos + dir).(coils := HalfStep(p), last := HalfStep(p))
  {
    var p := NextPhase(phase, dir);
    assert p == (r.pos + dir) % 8;
    if dir == 1 {
      assert p == if phase == 7 then 0 else phase + 1;
      assert Successor(r.last) == HalfStep(p);
    } else {
      assert p == if phase == 0 then 7 else phase - 1;
      assert Successor(HalfStep(p)) == r.last;
      assert Successor(r.last) != HalfStep(p);
    }
  }

  /** De-energising leaves the rotor in phase. */
  lemma OffKeepsPhase(r: Rotor, phase: int)
    requires InPhase(r, phase)
    ensures InPhase(Drive(r, OFF), phase) && Drive(r, OFF) == r.(coils := OFF)
  {
  }

  /** The rotor can follow a pattern change exactly when a single coil changes: two
      different half-step patterns differ in one coil if and only if they are neighbours. */
  lemma NeighboursDifferInOneCoil(i: int, j: int)
    requires 0 <= i < 8 && 0 <= j < 8
    ensures Distance(HalfStep(i), HalfStep(j)) == 1
            <==> Successor(HalfStep(i)) == HalfStep(j) || Successor(HalfStep(j)) == HalfStep(i)
  {
    assert i == 0 || i == 1 || i == 2 || i == 3 || i == 4 || i == 5 || i == 6 || i == 7;
    assert j == 0 || j == 1 || j == 2 || j == 3 || j == 4 || j == 5 || j == 6 || j == 7;
  }

  /** n steps in one direction from a rotor in phase: the closed form the drivers'
      loops are proved against. */
  function Turned(r: Rotor, n: nat, dir: int): Rotor {
    if n == 0 then r
    else
      var pos := r.pos + n * dir;
      r.(pos := pos,
         lo := if pos < r.lo then pos else r.lo,
         hi := if pos > r.hi then pos else r.hi,
         coils := HalfStep(pos % 8),
         last := HalfStep(pos % 8))
  }

  /** One more step extends the closed form, when the run goes on in one direction. */
  lemma TurnedExtends(r: Rotor, n: nat, dir: int)
    requires dir == 1 || dir == -1
    requires InPhase(r, r.pos % 8) && r.lo <= r.pos <= r.hi
    ensures InPhase(Turned(r, n, dir), (r.pos + n * dir) % 8)
    ensures Drive(Turned(r, n, dir), HalfStep(NextPhase((r.pos + n * dir) % 8, dir))) == Turned(r, n + 1, dir)
    ensures NextPhase((r.pos + n * dir) % 8, dir) == (r.pos + (n + 1) * dir) % 8
  {
    var t := Turned(r, n, dir);
    assert t.pos == r.pos + n * dir;
    assert (n + 1) * dir == n * dir + dir;
    StepTurnsByOne(t, t.pos % 8, dir);
  }
}
