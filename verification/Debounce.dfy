/** Switch debouncing: the interrupt handler of the gate driver on its wrapping tick
    counter, and what it accepts over any sequence of presses. */
module Debounce {

  /** An unsigned tick counter with an even number of values, and the 300 ms of DEBOUNCE_MS in
      ticks; the tick rate is the kernel's, so both are left open. */
  datatype Counter = Counter(values: nat, window: nat)

  predicate Sound(c: Counter) { c.values % 2 == 0 && 0 < c.window < c.values / 2 }

  /** What the counter shows at time t of a clock that does not wrap. */
  function Wrap(t: int, values: nat): int
    requires values > 0
  {
    t % values
  }

  /** time_before(a, b): the wrapped difference, read as signed, is negative. */
  predicate TimeBefore(c: Counter, a: int, b: int)
    requires c.values > 0
  {
    Wrap(a - b, c.values) >= c.values / 2
  }

  /** The test that turns a press away, on the counter. */
  predicate TooSoon(c: Counter, now: int, last: int)
    requires c.values > 0
  {
    TimeBefore(c, now, Wrap(last + c.window, c.values))
  }

  /** Whether the counter takes a time difference for one that is not negative. */
  predicate Ahead(c: Counter, difference: int)
    requires c.values > 0
  {
    difference % c.values < c.values / 2
  }

  /** On an unbounded clock the test is a plain comparison.  The counter agrees with it if
      and only if it sees the sign of the time past the window as it is: whatever the two
      times are, the stored one lying ahead included. */
  lemma WrappedTestAgrees(c: Counter, now: int, last: int)
    requires Sound(c)
    ensures (TooSoon(c, Wrap(now, c.values), Wrap(last, c.values)) <==> now < last + c.window)
            <==> (Ahead(c, now - last - c.window) <==> now - last - c.window >= 0)
  {
    hide TooSoon;
    CounterTest(c, now, last);
  }

  lemma CounterTest(c: Counter, now: int, last: int)
    requires Sound(c)
    ensures TooSoon(c, Wrap(now, c.values), Wrap(last, c.values)) <==> Wrap(now - last - c.window, c.values) >= c.values / 2
  {
    hide Wrap;
    WrapDifference(c, now, last);
  }

  /** The first wrong answer: a press half the range after the window is over is still
      turned away. */
  lemma LongSilenceTurnsAway(c: Counter, last: int)
    requires Sound(c)
    ensures TooSoon(c, Wrap(last + c.window + c.values / 2, c.values), Wrap(last, c.values))
  {
    hide TooSoon;
    CounterTest(c, last + c.window + c.values / 2, last);
    WrapSmall(c.values / 2, c.values);
  }

  /** So it agrees for all presses less than half the range, and a window, after the last
      accepted one. */
  lemma WrappedTestAgreesWithinHalf(c: Counter, now: int, last: int)
    requires Sound(c) && last <= now < last + c.window + c.values / 2
    ensures TooSoon(c, Wrap(now, c.values), Wrap(last, c.values)) <==> now < last + c.window
  {
    hide TooSoon;
    CounterTest(c, now, last);
    if now - last >= c.window {
      WrapSmall(now - last - c.window, c.values);
    } else {
      WrapNegative(now - last - c.window, c.values);
    }
  }

  /** A stored time that lies ahead of the counter, as the initial 0 does while the counter
      has yet to wrap round to it: presses are turned away exactly while it is at most
      half the range ahead, the window counted in; before that they are let through. */
  lemma TimeAhead(c: Counter, now: int, last: int)
    requires Sound(c) && now <= last <= now + c.values - c.window
    ensures TooSoon(c, Wrap(now, c.values), Wrap(last, c.values)) <==> last - now + c.window <= c.values / 2
  {
    hide TooSoon;
    CounterTest(c, now, last);
    var d := now - last - c.window;
    AddMultiple(d, 1, c.values);
    if d + c.values == 0 {
      WrapSmall(0, c.values);
    } else {
      WrapSmall(d + c.values, c.values);
    }
  }

  lemma WrapDifference(c: Counter, now: int, last: int)
    requires Sound(c)
    ensures Wrap(Wrap(now, c.values) - Wrap(Wrap(last, c.values) + c.window, c.values), c.values)
            == Wrap(now - last - c.window, c.values)
  {
    hide Wrap;
    WrapSum(last, c.window, c.values);
    WrapMinus(now, last + c.window, c.values);
    assert now - (last + c.window) == now - last - c.window;
  }

  lemma WrapSum(x: int, w: int, m: nat)
    requires m > 0
    ensures Wrap(Wrap(x, m) + w, m) == Wrap(x + w, m)
  {
    hide Wrap;
    var q := Quotient(x, m);
    var y := Wrap(x, m) + w;
    assert x + w == y + m * q;
    AddMultiple(y, q, m);
  }

  lemma WrapMinus(x: int, y: int, m: nat)
    requires m > 0
    ensures Wrap(Wrap(x, m) - Wrap(y, m), m) == Wrap(x - y, m)
  {
    hide Wrap;
    var p := Quotient(x, m);
    var q := Quotient(y, m);
    Distribute(m, p, q, 0);
    var d := Wrap(x, m) - Wrap(y, m);
    assert x - y == d + m * (p - q);
    AddMultiple(d, p - q, m);
  }

  lemma Quotient(x: int, m: nat) returns (q: int)
    requires m > 0
    ensures x == m * q + Wrap(x, m)
  {
    q := x / m;
  }

  lemma Distribute(m: int, x: int, y: int, z: int)
    ensures m * (x - y - z) == m * x - m * y - m * z
  {
  }

  lemma {:induction false} AddMultiple(x: int, k: int, m: nat)
    requires m > 0
    ensures Wrap(x + m * k, m) == Wrap(x, m)
    decreases if k < 0 then -k else k
  {
    hide Wrap;
    if k > 0 {
      AddMultiple(x, k - 1, m);
      Distribute(m, k, 1, 0);
      OnceMore(x + m * (k - 1), m);
    } else if k < 0 {
      AddMultiple(x, k + 1, m);
      Distribute(m, k, -1, 0);
      OnceMore(x + m * k, m);
    }
  }

  lemma OnceMore(x: int, m: nat)
    requires m > 0
    ensures Wrap(x + m, m) == Wrap(x, m)
  {
    var q, r := x / m, x % m;
    assert x + m == m * (q + 1) + r;
    DivisionIsUnique(x + m, m, q + 1, r);
  }

  lemma DivisionIsUnique(x: int, m: nat, q: int, r: nat)
    requires m > 0 && x == m * q + r && r < m
    ensures x % m == r
  {
    assert m * (x / m - q) == r - x % m by {
      assert x == m * (x / m) + x % m;
      Distribute(m, x / m, q, 0);
    }
    SmallMultiple(m, x / m - q);
  }

  lemma SmallMultiple(m: nat, d: int)
    requires 0 - m < m * d < m
    ensures d == 0
  {
    if d > 0 {
      Distribute(m, d, 1, 0);
    } else if d < 0 {
      Distribute(m, d, -1, 0);
    }
  }

  lemma WrapNegative(d: int, m: nat)
    requires m > 0 && m % 2 == 0 && -(m / 2) <= d < 0
    ensures Wrap(d, m) == d + m && d + m >= m / 2
  {
    DivisionIsUnique(d, m, -1, d + m);
  }

  lemma WrapSmall(d: nat, m: nat)
    requires d < m
    ensures Wrap(d, m) == d
  {
  }

  /** The slot buttons measure in whole milliseconds of a nanosecond clock that does not
      wrap; cutting off the fraction moves no boundary. */
  lemma MillisecondTest(now: int, last: int, windowMs: nat)
    ensures (now - last) / 1000000 < windowMs <==> now < last + windowMs * 1000000
  {
  }

  // ---- Sequences of presses ---------------------------------------------------------

  /** Which presses the handler accepts, on an unbounded clock; `last` is the time of the
      last accepted press. */
  function Accepted(last: int, window: nat, presses: seq<int>): (r: seq<bool>)
    ensures |r| == |presses|
    decreases |presses|
  {
    if presses == [] then []
    else if presses[0] < last + window then [false] + Accepted(last, window, presses[1..])
    else [true] + Accepted(presses[0], window, presses[1..])
  }

  /** The time of the last accepted press. */
  function LastAccepted(last: int, window: nat, presses: seq<int>): int
    decreases |presses|
  {
    if presses == [] then last else LastAccepted(From(last, window, presses[0]), window, presses[1..])
  }

  /** One more press is measured from the last accepted one. */
  lemma {:induction false} AcceptedOneMore(last: int, window: nat, presses: seq<int>, press: int)
    ensures Accepted(last, window, presses + [press])
            == Accepted(last, window, presses) + [press >= LastAccepted(last, window, presses) + window]
    ensures LastAccepted(last, window, presses + [press]) == From(LastAccepted(last, window, presses), window, press)
    decreases |presses|
  {
    var all := presses + [press];
    if presses == [] {
      assert all[1..] == [];
    } else {
      assert all[0] == presses[0] && all[1..] == presses[1..] + [press];
      AcceptedOneMore(From(last, window, presses[0]), window, presses[1..], press);
    }
  }

  /** What debouncing is for: two accepted presses are at least a window apart, the first
      one a window after `last`; and a press is only turned away less than a window after
      an accepted one (or after `last`). */
  ghost predicate Debounced(last: int, window: nat, presses: seq<int>, acc: seq<bool>) {
    |acc| == |presses| && AfterLast(last, window, presses, acc) && Apart(window, presses, acc) && OnlyBounces(last, window, presses, acc)
  }

  ghost predicate AfterLast(last: int, window: nat, presses: seq<int>, acc: seq<bool>)
    requires |acc| == |presses|
  {
    forall i :: 0 <= i < |acc| && acc[i] ==> presses[i] >= last + window
  }

  ghost predicate Apart(window: nat, presses: seq<int>, acc: seq<bool>)
    requires |acc| == |presses|
  {
    forall i, j :: 0 <= i < j < |acc| && acc[i] && acc[j] ==> presses[j] >= presses[i] + window
  }

  ghost predicate OnlyBounces(last: int, window: nat, presses: seq<int>, acc: seq<bool>)
    requires |acc| == |presses|
  {
    forall j :: 0 <= j < |acc| && !acc[j] ==> presses[j] < last + window || ShadowedBy(window, presses, acc, j)
  }

  /** Press j comes less than a window after an earlier accepted press. */
  ghost predicate ShadowedBy(window: nat, presses: seq<int>, acc: seq<bool>, j: nat)
    requires |acc| == |presses| && j < |acc|
  {
    exists i :: 0 <= i < j && acc[i] && presses[j] < presses[i] + window
  }

  /** The handler's choice is debounced, and it is the only one that is. */
  lemma AcceptsGreedily(last: int, window: nat, presses: seq<int>, acc: seq<bool>)
    ensures Debounced(last, window, presses, acc) <==> acc == Accepted(last, window, presses)
  {
    hide Debounced, Accepted;
    if acc == Accepted(last, window, presses) {
      AcceptedIsDebounced(last, window, presses);
    }
    if Debounced(last, window, presses, acc) {
      DebouncedIsAccepted(last, window, presses, acc);
    }
  }

  /** The time the later presses are measured from once the first has been decided. */
  function From(last: int, window: nat, press: int): int { if press >= last + window then press else last }

  lemma {:induction false} AcceptedIsDebounced(last: int, window: nat, presses: seq<int>)
    ensures Debounced(last, window, presses, Accepted(last, window, presses))
    decreases |presses|
  {
    if presses != [] {
      hide Debounced;
      var from := From(last, window, presses[0]);
      AcceptedIsDebounced(from, window, presses[1..]);
      PressByPress(last, window, presses, [presses[0] >= last + window] + Accepted(from, window, presses[1..]));
    }
  }

  lemma {:induction false} DebouncedIsAccepted(last: int, window: nat, presses: seq<int>, acc: seq<bool>)
    requires Debounced(last, window, presses, acc)
    ensures acc == Accepted(last, window, presses)
    decreases |presses|
  {
    hide Debounced;
    assert |acc| == |presses| by { SameLength(last, window, presses, acc); }
    if presses != [] {
      PressByPress(last, window, presses, acc);
      DebouncedIsAccepted(From(last, window, presses[0]), window, presses[1..], acc[1..]);
      assert acc == [acc[0]] + acc[1..];
    }
  }

  lemma SameLength(last: int, window: nat, presses: seq<int>, acc: seq<bool>)
    requires Debounced(last, window, presses, acc)
    ensures |acc| == |presses|
  {
  }

  /** A choice is debounced exactly when the window decides the first press and the choice
      for the later presses is debounced from there. */
  lemma PressByPress(last: int, window: nat, presses: seq<int>, acc: seq<bool>)
    requires presses != [] && |acc| == |presses|
    ensures Debounced(last, window, presses, acc)
            <==> (acc[0] <==> presses[0] >= last + window) && Debounced(From(last, window, presses[0]), window, presses[1..], acc[1..])
  {
    hide AfterLast, Apart, OnlyBounces, ShadowedBy, From;
    assert acc == [acc[0]] + acc[1..];
    if acc[0] <==> presses[0] >= last + window {
      WindowsSplit(last, window, presses, acc);
      BouncesSplit(last, window, presses, acc);
    } else {
      FirstMisjudged(last, window, presses, acc);
    }
  }

  lemma FirstMisjudged(last: int, window: nat, presses: seq<int>, acc: seq<bool>)
    requires presses != [] && |acc| == |presses| && !(acc[0] <==> presses[0] >= last + window)
    ensures !(AfterLast(last, window, presses, acc) && OnlyBounces(last, window, presses, acc))
  {
  }

  lemma WindowsSplit(last: int, window: nat, presses: seq<int>, acc: seq<bool>)
    requires presses != [] && |acc| == |presses| && (acc[0] <==> presses[0] >= last + window)
    ensures AfterLast(last, window, presses, acc) && Apart(window, presses, acc)
            <==> AfterLast(From(last, window, presses[0]), window, presses[1..], acc[1..]) && Apart(window, presses[1..], acc[1..])
  {
    var rest, later := presses[1..], acc[1..];
    var from := From(last, window, presses[0]);
    if AfterLast(last, window, presses, acc) && Apart(window, presses, acc) {
      forall i | 0 <= i < |later| && later[i] ensures rest[i] >= from + window {
        assert acc[i + 1] && presses[i + 1] == rest[i];
      }
      forall i, j | 0 <= i < j < |later| && later[i] && later[j] ensures rest[j] >= rest[i] + window {
        assert acc[i + 1] && acc[j + 1];
      }
    }
    if AfterLast(from, window, rest, later) && Apart(window, rest, later) {
      forall i | 0 <= i < |acc| && acc[i] ensures presses[i] >= last + window {
        assert i > 0 ==> later[i - 1] && rest[i - 1] == presses[i];
      }
      forall i, j | 0 <= i < j < |acc| && acc[i] && acc[j] ensures presses[j] >= presses[i] + window {
        assert later[j - 1] && rest[j - 1] == presses[j];
        assert i > 0 ==> later[i - 1] && rest[i - 1] == presses[i];
      }
    }
  }

  lemma BouncesSplit(last: int, window: nat, presses: seq<int>, acc: seq<bool>)
    requires presses != [] && |acc| == |presses| && (acc[0] <==> presses[0] >= last + window)
    ensures OnlyBounces(last, window, presses, acc)
            <==> OnlyBounces(From(last, window, presses[0]), window, presses[1..], acc[1..])
  {
    hide ShadowedBy;
    var rest, later := presses[1..], acc[1..];
    var from := From(last, window, presses[0]);
    forall j | 0 < j < |acc|
      ensures presses[j] < last + window || ShadowedBy(window, presses, acc, j)
              <==> rest[j - 1] < from + window || ShadowedBy(window, rest, later, j - 1)
    {
      ShadowShifts(window, presses, acc, j);
    }
    if OnlyBounces(last, window, presses, acc) {
      forall j | 0 <= j < |later| && !later[j] ensures rest[j] < from + window || ShadowedBy(window, rest, later, j) {
        assert !acc[j + 1];
      }
    }
    if OnlyBounces(from, window, rest, later) {
      forall j | 0 <= j < |acc| && !acc[j] ensures presses[j] < last + window || ShadowedBy(window, presses, acc, j) {
        assert j > 0 ==> !later[j - 1];
      }
    }
  }

  lemma ShadowShifts(window: nat, presses: seq<int>, acc: seq<bool>, j: nat)
    requires |acc| == |presses| && 0 < j < |acc|
    ensures ShadowedBy(window, presses, acc, j)
            <==> ShadowedBy(window, presses[1..], acc[1..], j - 1) || (acc[0] && presses[j] < presses[0] + window)
  {
    if ShadowedBy(window, presses, acc, j) {
      var i :| 0 <= i < j && acc[i] && presses[j] < presses[i] + window;
      if i > 0 {
        assert acc[1..][i - 1];
      }
    }
    if ShadowedBy(window, presses[1..], acc[1..], j - 1) {
      var i :| 0 <= i < j - 1 && acc[1..][i] && presses[1..][j - 1] < presses[1..][i] + window;
      assert acc[i + 1];
    }
  }

  // ---- The handler ------------------------------------------------------------------

  /** switch_irq_handler with its two variables; `last` is the true time of the last
      accepted press, which the counter only holds modulo its range. */
  class Switch {
    const counter: Counter
    var lastSwitchTime: int
    var switchPressed: bool
    ghost var last: int

    ghost predicate Valid()
      reads this
    {
      Sound(counter) && lastSwitchTime == Wrap(last, counter.values)
    }

    constructor (counter: Counter, last: int)
      requires Sound(counter)
      ensures Valid() && this.counter == counter && this.last == last && !switchPressed
    {
      this.counter := counter;
      lastSwitchTime := Wrap(last, counter.values);
      switchPressed := false;
      this.last := last;
    }

    /** One interrupt at any time `now`; the handler sees it on the wrapping counter. */
    method Handle(now: int) returns (accepted: bool)
      requires Valid()
      modifies this
      ensures Valid()
      ensures accepted <==> Ahead(counter, now - old(last) - counter.window)
      ensures old(last) <= now < old(last) + counter.window + counter.values / 2 ==> (accepted <==> now >= old(last) + counter.window)
      ensures last == if accepted then now else old(last)
      ensures switchPressed == (old(switchPressed) || accepted)
    {
      hide TooSoon;
      var jiffies := Wrap(now, counter.values);
      CounterTest(counter, now, last);
      if last <= now < last + counter.window + counter.values / 2 {
        WrappedTestAgreesWithinHalf(counter, now, last);
      }
      if TooSoon(counter, jiffies, lastSwitchTime) {
        return false;
      }
      lastSwitchTime := jiffies;
      last := now;
      switchPressed := true;
      return true;
    }

    /** A sequence of interrupts, with no silence of half the counter's range. */
    method HandleAll(presses: seq<int>) returns (acc: seq<bool>)
      requires Valid()
      requires presses != [] ==> 0 <= presses[0] - last <= counter.values / 2
      requires forall i :: 0 < i < |presses| ==> 0 <= presses[i] - presses[i - 1] <= counter.values / 2
      modifies this
      ensures Valid()
      ensures Debounced(old(last), counter.window, presses, acc)
      ensures switchPressed == (old(switchPressed) || true in acc)
    {
      ghost var start := last;
      acc := [];
      for k := 0 to |presses|
        invariant Valid() && |acc| == k
        invariant k > 0 ==> last <= presses[k - 1] < last + counter.window
        invariant k == 0 ==> last == start
        invariant acc + Accepted(last, counter.window, presses[k..]) == Accepted(start, counter.window, presses)
        invariant switchPressed == (old(switchPressed) || true in acc)
      {
        hide Accepted, Debounced, Ahead;
        ghost var rest := presses[k..];
        assert rest[0] == presses[k] && rest[1..] == presses[k + 1..];
        AcceptedOne(acc, last, counter.window, rest);
        var a := Handle(presses[k]);
        acc := acc + [a];
      }
      assert presses[|presses|..] == [];
      AcceptsGreedily(start, counter.window, presses, acc);
    }
  }

  lemma AcceptedOne(acc: seq<bool>, last: int, window: nat, rest: seq<int>)
    requires rest != []
    ensures acc + Accepted(last, window, rest)
            == acc + [rest[0] >= last + window] + Accepted(From(last, window, rest[0]), window, rest[1..])
  {
  }
}
