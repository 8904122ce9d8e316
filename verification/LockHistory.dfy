/** When a slot locks: the decision of the driver, reading by reading, against a
    statement about the list of readings alone. */
module LockHistory {

  datatype LockState = Free | Timing | Locking | Locked | Unlocking | WaitEmpty

  const LOCK_TIMEOUT_MS := 10000
  const UNOCCUPIED_RELEASE_COUNT := 6
  const NS_PER_MS := 1000000

  /** A reading the filter accepted: when it was judged (in ns), what it said, and the
      lock state it found. */
  datatype Reading = Reading(time: int, occupied: bool, seen: LockState)

  /** Lock state, start of the stay and count of unoccupied readings in a row. */
  datatype Timer = Timer(st: LockState, start: int, count: nat)

  /** The switch at the end of sensor_work_func. */
  function Decide(t: Timer, occupied: bool, now: int): Timer {
    match t.st
    case Free => if occupied then Timer(Timing, now, 0) else t
    case Timing =>
      if !occupied then
        if t.count + 1 >= UNOCCUPIED_RELEASE_COUNT then Timer(Free, t.start, t.count + 1)
        else Timer(Timing, t.start, t.count + 1)
      else if (now - t.start) / NS_PER_MS >= LOCK_TIMEOUT_MS then Timer(Locking, t.start, 0)
      else Timer(Timing, t.start, 0)
    case WaitEmpty => if !occupied then t.(st := Free) else t
    case _ => t
  }

  /** The decisions over the first n readings, from a free slot. */
  function Track(e: seq<Reading>, n: nat): Timer
    requires n <= |e|
  {
    if n == 0 then Timer(Free, 0, 0) else Decide(Track(e, n - 1), e[n - 1].occupied, e[n - 1].time)
  }

  /** Length of the run of unoccupied readings that ends just before index m. */
  function EmptyRun(e: seq<Reading>, m: nat): nat
    requires m <= |e|
  {
    if m == 0 || e[m - 1].occupied then 0 else 1 + EmptyRun(e, m - 1)
  }

  /** Reading k was occupied and up to index n no six readings in a row were empty. */
  ghost predicate StaySince(e: seq<Reading>, k: nat, n: nat)
    requires n <= |e|
  {
    k < n && e[k].occupied && forall m :: k < m <= n ==> EmptyRun(e, m) < 6
  }

  /** The declarative rule: reading n is occupied, and some earlier occupied reading is
      at least ten seconds older with no release (six empty readings in a row) since. */
  ghost predicate LockDue(e: seq<Reading>, n: nat) {
    && n < |e|
    && e[n].occupied
    && exists k :: 0 <= k < n && StaySince(e, k, n) && e[n].time - e[k].time >= 10_000_000_000
  }

  ghost predicate Ordered(e: seq<Reading>) {
    forall a, b :: 0 <= a <= b < |e| ==> e[a].time <= e[b].time
  }

  /** The earliest reading of the stay in progress. */
  ghost predicate StayBegins(e: seq<Reading>, k: nat, n: nat)
    requires n <= |e|
  {
    StaySince(e, k, n) && forall j :: 0 <= j < k ==> !StaySince(e, j, n)
  }

  /** What the timer says about the first n readings, as long as none of them was due. */
  ghost predicate TimerMeans(e: seq<Reading>, n: nat, t: Timer)
    requires n <= |e|
  {
    && (t.st == Free || t.st == Timing)
    && (t.st == Timing ==> t.count == EmptyRun(e, n) && exists k :: 0 <= k < n && StayBegins(e, k, n) && e[k].time == t.start)
    && (t.st == Free ==> forall k :: 0 <= k < n ==> !StaySince(e, k, n))
  }

  lemma {:induction false} EmptyRunIsARun(e: seq<Reading>, m: nat)
    requires m <= |e|
    ensures EmptyRun(e, m) <= m
    ensures forall i :: m - EmptyRun(e, m) <= i < m ==> !e[i].occupied
    ensures EmptyRun(e, m) < m ==> e[m - EmptyRun(e, m) - 1].occupied
  {
    if m != 0 && !e[m - 1].occupied {
      EmptyRunIsARun(e, m - 1);
    }
  }

  /** Staying on: with one more reading, an earlier stay goes on unless that reading is
      the sixth empty one in a row. */
  lemma StayGoesOn(e: seq<Reading>, k: nat, n: nat)
    requires k < n < |e|
    ensures StaySince(e, k, n + 1) <==> StaySince(e, k, n) && EmptyRun(e, n + 1) < 6
  {
    if StaySince(e, k, n) && EmptyRun(e, n + 1) < 6 {
      forall m | k < m <= n + 1 ensures EmptyRun(e, m) < 6 {
      }
    }
    if StaySince(e, k, n + 1) {
      assert EmptyRun(e, n + 1) < 6;
      forall m | k < m <= n ensures EmptyRun(e, m) < 6 {
      }
    }
  }

  /** One reading: it makes the slot lock exactly when it is due, and otherwise the
      timer keeps its meaning. */
  lemma OneReading(e: seq<Reading>, n: nat, t: Timer)
    requires n < |e| && Ordered(e)
    requires TimerMeans(e, n, t)
    ensures var t' := Decide(t, e[n].occupied, e[n].time);
            && (t'.st == Locking <==> LockDue(e, n))
            && (t'.st != Locking ==> TimerMeans(e, n + 1, t'))
  {
    var t' := Decide(t, e[n].occupied, e[n].time);
    assert EmptyRun(e, n + 1) == if e[n].occupied then 0 else 1 + EmptyRun(e, n);
    var n' := n + 1;
    forall k | 0 <= k < n ensures StaySince(e, k, n') <==> StaySince(e, k, n) && EmptyRun(e, n') < 6 {
      StayGoesOn(e, k, n);
    }
    if t.st == Timing {
      var k0 :| 0 <= k0 < n && StayBegins(e, k0, n) && e[k0].time == t.start;
      FirstOfStayDecides(e, n, k0);
      if t'.st == Timing {
        assert StayBegins(e, k0, n');
      }
    } else if t'.st == Timing {
      assert StayBegins(e, n, n');
    }
  }

  /** Of all readings a stay can be counted from, the first one decides. */
  lemma FirstOfStayDecides(e: seq<Reading>, n: nat, k0: nat)
    requires n < |e| && Ordered(e) && StayBegins(e, k0, n)
    ensures LockDue(e, n) <==> e[n].occupied && e[n].time - e[k0].time >= 10_000_000_000
  {
    if LockDue(e, n) {
      var k :| 0 <= k < n && StaySince(e, k, n) && e[n].time - e[k].time >= 10_000_000_000;
      assert k0 <= k;
      assert e[k0].time <= e[k].time;
      assert e[n].time - e[k0].time >= e[n].time - e[k].time;
    }
  }

  /** The refinement: over any list of readings in time order, the driver's timer has
      reached LOCKING by reading n exactly when some reading up to there was due; until
      then it is TIMING exactly while a stay is in progress, it counts the empty
      readings at the end, and it runs from the first reading of the stay. */
  lemma {:induction false} TrackMeaning(e: seq<Reading>, n: nat)
    requires n <= |e| && Ordered(e)
    ensures Track(e, n).st == Locking <==> exists m :: 0 <= m < n && LockDue(e, m)
    ensures Track(e, n).st != Locking ==> TimerMeans(e, n, Track(e, n))
  {
    if n != 0 {
      TrackMeaning(e, n - 1);
      if Track(e, n - 1).st != Locking {
        OneReading(e, n - 1, Track(e, n - 1));
      }
    }
  }

  /** A stay is in progress exactly when the timer runs. */
  lemma TimingMeansStay(e: seq<Reading>, n: nat)
    requires n <= |e| && Ordered(e) && Track(e, n).st != Locking
    ensures Track(e, n).st == Timing <==> exists k :: 0 <= k < n && StaySince(e, k, n)
  {
    TrackMeaning(e, n);
  }

  /** The readings that count for the present stay: those judged while the slot was FREE
      or TIMING, since the last one that ended a wait for the slot to empty. */
  function Epoch(rs: seq<Reading>): seq<Reading> {
    if rs == [] then []
    else
      var r := rs[|rs| - 1];
      var before := Epoch(rs[..|rs| - 1]);
      match r.seen
      case WaitEmpty => if r.occupied then before else []
      case Free | Timing => before + [r]
      case _ => before
  }

  lemma EpochOfOneMore(rs: seq<Reading>, r: Reading)
    ensures Epoch(rs + [r]) == match r.seen
                               case WaitEmpty => if r.occupied then Epoch(rs) else []
                               case Free | Timing => Epoch(rs) + [r]
                               case _ => Epoch(rs)
  {
    assert (rs + [r])[..|rs|] == rs;
  }

  lemma {:induction false} TrackOfPrefix(e: seq<Reading>, r: Reading, n: nat)
    requires n <= |e|
    ensures Track(e + [r], n) == Track(e, n)
  {
    if n != 0 {
      TrackOfPrefix(e, r, n - 1);
    }
  }

  /** Readings of an epoch are in time order when all readings are. */
  lemma {:induction false} EpochIsOrdered(rs: seq<Reading>)
    requires Ordered(rs)
    ensures Ordered(Epoch(rs))
    ensures forall r :: r in Epoch(rs) ==> r in rs
  {
    if rs != [] {
      var before := rs[..|rs| - 1];
      EpochIsOrdered(before);
      assert forall r :: r in Epoch(before) ==> r.time <= rs[|rs| - 1].time;
    }
  }
}
