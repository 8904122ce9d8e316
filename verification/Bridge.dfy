/** The MQTT bridge on RPI2: it samples the gate driver's state text and publishes the
    gate value and the opening events.  What it publishes is compared with the states the
    driver really went through. */
module Bridge {
  import opened Options
  import opened KernelGate

  /** gate_device_read: the text of a state. */
  function Name(s: SystemState): string {
    match s
    case Idle => "IDLE"
    case EntryDetected => "ENTRY_DETECTED"
    case EntryWaiting => "ENTRY_WAITING"
    case ExitRequested => "EXIT_REQUESTED"
    case ExitVehicleDetected => "EXIT_VEHICLE_DETECTED"
    case ExitVehicleWaiting => "EXIT_VEHICLE_WAITING"
  }

  datatype Message = GateValue(text: string) | Event(event: string, reason: string)

  function GateText(name: string): string { if name == "IDLE" then "CLOSED" else "OPEN" }

  function EventFor(prev: string, next: string): seq<Message> {
    if prev == "IDLE" && next == "ENTRY_DETECTED" then [Event("ENTRY_OPEN", "vehicle_detected")]
    else if prev == "IDLE" && next == "EXIT_REQUESTED" then [Event("EXIT_OPEN", "switch_pressed")]
    else []
  }

  const UNKNOWN := "UNKNOWN"

  /** The text the bridge holds as the previous one after these polls; a poll that could
      not read the device counts for nothing. */
  function Held(polls: seq<Option<string>>): string {
    if polls == [] then UNKNOWN
    else match polls[|polls| - 1]
         case None => Held(polls[..|polls| - 1])
         case Some(name) => name
  }

  /** All it has published. */
  function Published(polls: seq<Option<string>>): seq<Message> {
    if polls == [] then []
    else
      var before := polls[..|polls| - 1];
      match polls[|polls| - 1]
      case None => Published(before)
      case Some(name) =>
        if name == Held(before) then Published(before)
        else Published(before) + [GateValue(GateText(name))] + EventFor(Held(before), name)
  }

  /** state_to_gate. */
  method StateToGate(name: string) returns (gate: string)
    ensures gate == "CLOSED" <==> name == "IDLE"
    ensures gate == "OPEN" <==> name != "IDLE"
  {
    gate := if name == "IDLE" then "CLOSED" else "OPEN";
  }

  /** transition_to_event, with its two out-buffers; an empty event means none. */
  method TransitionToEvent(prev: string, next: string) returns (ev: string, reason: string)
    ensures EventFor(prev, next) == if ev == "" then [] else [Event(ev, reason)]
  {
    ev, reason := "", "";
    if prev == "IDLE" && next == "ENTRY_DETECTED" {
      ev := "ENTRY_OPEN";
      reason := "vehicle_detected";
    } else if prev == "IDLE" && next == "EXIT_REQUESTED" {
      ev := "EXIT_OPEN";
      reason := "switch_pressed";
    }
  }

  /** The loop of poll_gate_state over the polls of a run. */
  method PollGateState(polls: seq<Option<string>>) returns (published: seq<Message>)
    ensures published == Published(polls)
    ensures forall found :: PollsFor(polls, found) ==> published == Announcements(found)
  {
    var prev := UNKNOWN;
    published := [];
    for i := 0 to |polls|
      invariant prev == Held(polls[..i])
      invariant published == Published(polls[..i])
    {
      assert polls[..i + 1][..i] == polls[..i];
      match polls[i] {
        case None =>
        case Some(cur) =>
          if cur != prev {
            var gate := StateToGate(cur);
            var before := published;
            published := published + [GateValue(gate)];
            var ev, reason := TransitionToEvent(prev, cur);
            if ev != "" {
              published := published + [Event(ev, reason)];
            }
            assert published == before + [GateValue(GateText(cur))] + EventFor(prev, cur);
            prev := cur;
          }
      }
    }
    assert polls[..|polls|] == polls;
    forall found | PollsFor(polls, found) ensures published == Announcements(found) {
      PublishedIsAnnounced(polls, found);
    }
  }

  // ---- Sampling the driver ----------------------------------------------------------

  /** at[j] is which of the written states the j-th successful poll found. */
  predicate Sampling(ss: seq<SystemState>, at: seq<nat>) {
    (forall j :: 0 <= j < |at| ==> at[j] < |ss|) && (forall i, j :: 0 <= i <= j < |at| ==> at[i] <= at[j])
  }

  /** The first n states found. */
  function Sampled(ss: seq<SystemState>, at: seq<nat>, n: nat): (found: seq<SystemState>)
    requires Sampling(ss, at) && n <= |at|
    ensures |found| == n && (n > 0 ==> found[n - 1] == ss[at[n - 1]])
  {
    if n == 0 then [] else Sampled(ss, at, n - 1) + [ss[at[n - 1]]]
  }

  /** The polls that find these states, between polls that find nothing. */
  ghost predicate PollsFor(polls: seq<Option<string>>, found: seq<SystemState>) {
    if polls == [] then found == []
    else
      var before := polls[..|polls| - 1];
      match polls[|polls| - 1]
      case None => PollsFor(before, found)
      case Some(name) => found != [] && name == Name(found[|found| - 1]) && PollsFor(before, found[..|found| - 1])
  }

  function Events(ms: seq<Message>): seq<Message> {
    if ms == [] then []
    else if ms[|ms| - 1].Event? then Events(ms[..|ms| - 1]) + [ms[|ms| - 1]]
    else Events(ms[..|ms| - 1])
  }

  lemma {:induction false} EventsConcat(a: seq<Message>, b: seq<Message>)
    ensures Events(a + b) == Events(a) + Events(b)
  {
    if b == [] {
      assert a + b == a;
    } else {
      assert (a + b)[..|a + b| - 1] == a + b[..|b| - 1];
      EventsConcat(a, b[..|b| - 1]);
    }
  }

  /** What the events say about a sampled list of states, one state at a time. */
  function OpenEvents(ss: seq<SystemState>): seq<Message> {
    if |ss| < 2 then []
    else OpenEvents(ss[..|ss| - 1]) + EventFor(Name(ss[|ss| - 2]), Name(ss[|ss| - 1]))
  }

  lemma NamesDiffer(a: SystemState, b: SystemState)
    ensures Name(a) == Name(b) ==> a == b
    ensures Name(a) != UNKNOWN
  {
    hide Name;
    NameLengths(a);
    NameLengths(b);
  }

  lemma NameLengths(a: SystemState)
    ensures |Name(a)| == match a
                         case Idle => 4
                         case EntryDetected => 14
                         case EntryWaiting => 13
                         case ExitRequested => 14
                         case ExitVehicleDetected => 21
                         case ExitVehicleWaiting => 20
    ensures a == EntryDetected ==> Name(a)[1] == 'N'
    ensures a == ExitRequested ==> Name(a)[1] == 'X'
  {
  }

  /** The events published are those of the states found, side by side. */
  lemma {:induction false} PublishedEvents(polls: seq<Option<string>>, found: seq<SystemState>)
    requires PollsFor(polls, found)
    ensures Events(Published(polls)) == OpenEvents(found)
    ensures Held(polls) == if found == [] then UNKNOWN else Name(found[|found| - 1])
  {
    hide EventFor, GateText, Name;
    if polls != [] {
      var before := polls[..|polls| - 1];
      match polls[|polls| - 1] {
        case None => PublishedEvents(before, found);
        case Some(name) =>
          var earlier := found[..|found| - 1];
          PublishedEvents(before, earlier);
          EventsConcat(Published(before), if name == Held(before) then [] else [GateValue(GateText(name))] + EventFor(Held(before), name));
          assert Published(polls) == Published(before) + if name == Held(before) then [] else [GateValue(GateText(name))] + EventFor(Held(before), name);
          NewEvents(Held(before), name);
      }
    }
  }

  lemma NewEvents(held: string, name: string)
    ensures Events(if name == held then [] else [GateValue(GateText(name))] + EventFor(held, name)) == EventFor(held, name)
    ensures held == UNKNOWN ==> EventFor(held, name) == []
  {
    if name != held {
      EventsConcat([GateValue(GateText(name))], EventFor(held, name));
    }
  }

  /** The last gate value published is CLOSED exactly when the last state found is IDLE. */
  lemma {:induction false} LastGateValue(polls: seq<Option<string>>, found: seq<SystemState>)
    requires PollsFor(polls, found) && found != []
    ensures LastValue(Published(polls)) == Some(if found[|found| - 1] == Idle then "CLOSED" else "OPEN")
  {
    var before := polls[..|polls| - 1];
    match polls[|polls| - 1] {
      case None => LastGateValue(before, found);
      case Some(name) =>
        var earlier := found[..|found| - 1];
        var s := found[|found| - 1];
        PublishedEvents(before, earlier);
        NamesDiffer(s, Idle);
        if name != Held(before) {
          LastValueConcat(Published(before), GateText(name), EventFor(Held(before), name));
        } else {
          NamesDiffer(s, s);
          NamesDiffer(s, earlier[|earlier| - 1]);
          LastGateValue(before, earlier);
        }
    }
  }

  function LastValue(ms: seq<Message>): Option<string> {
    if ms == [] then None
    else if ms[|ms| - 1].GateValue? then Some(ms[|ms| - 1].text)
    else LastValue(ms[..|ms| - 1])
  }

  lemma LastValueConcat(ms: seq<Message>, text: string, evs: seq<Message>)
    requires |evs| <= 1 && forall e :: e in evs ==> e.Event?
    ensures LastValue(ms + [GateValue(text)] + evs) == Some(text)
  {
    var all := ms + [GateValue(text)] + evs;
    var withValue := ms + [GateValue(text)];
    assert withValue[|withValue| - 1] == GateValue(text);
    if evs == [] {
      assert all == withValue;
    } else {
      assert all[|all| - 1] == evs[0] && evs[0] in evs;
      assert all[..|all| - 1] == withValue;
    }
  }

  // ---- What is published ------------------------------------------------------------

  /** What is to be published for the j-th state found: nothing while the state stays, else
      the gate value, and with a change out of IDLE its event. */
  function Announcement(found: seq<SystemState>, j: nat): seq<Message>
    requires j < |found|
  {
    if j > 0 && found[j - 1] == found[j] then []
    else
      [GateValue(if found[j] == Idle then "CLOSED" else "OPEN")] +
      if j > 0 && found[j - 1] == Idle && found[j] == EntryDetected then [Event("ENTRY_OPEN", "vehicle_detected")]
      else if j > 0 && found[j - 1] == Idle && found[j] == ExitRequested then [Event("EXIT_OPEN", "switch_pressed")]
      else []
  }

  function Announcements(found: seq<SystemState>): seq<Message> {
    if found == [] then [] else Announcements(found[..|found| - 1]) + Announcement(found, |found| - 1)
  }

  /** Whatever the polls, failed ones included, what is published is what the states found
      call for and nothing else. */
  lemma {:induction false} PublishedIsAnnounced(polls: seq<Option<string>>, found: seq<SystemState>)
    requires PollsFor(polls, found)
    ensures Published(polls) == Announcements(found)
  {
    hide EventFor, GateText, Name, Announcement, Events, OpenEvents;
    if polls != [] {
      var before := polls[..|polls| - 1];
      match polls[|polls| - 1] {
        case None => PublishedIsAnnounced(before, found);
        case Some(name) =>
          hide Announcements;
          var n := |found| - 1;
          PublishedIsAnnounced(before, found[..n]);
          PublishedEvents(before, found[..n]);
          OneAnnouncement(found, n);
          AnnouncementsOneMore(found);
          assert Published(polls) == Published(before) + if name == Held(before) then [] else [GateValue(GateText(name))] + EventFor(Held(before), name);
      }
    }
  }

  lemma AnnouncementsOneMore(found: seq<SystemState>)
    requires found != []
    ensures Announcements(found) == Announcements(found[..|found| - 1]) + Announcement(found, |found| - 1)
  {
  }

  lemma OneAnnouncement(found: seq<SystemState>, n: nat)
    requires n < |found|
    ensures var held := if n == 0 then UNKNOWN else Name(found[n - 1]);
            Announcement(found, n)
            == if Name(found[n]) == held then [] else [GateValue(GateText(Name(found[n])))] + EventFor(held, Name(found[n]))
  {
    hide EventFor, Name;
    NamesDiffer(found[n], Idle);
    assert Name(Idle) == "IDLE" by { IdleText(); }
    if n == 0 {
      NewEvents(UNKNOWN, Name(found[0]));
    } else {
      NamesDiffer(found[n], found[n - 1]);
      EventsAreForOpenings(found[n - 1], found[n]);
    }
  }

  lemma IdleText()
    ensures Name(Idle) == "IDLE"
  {
  }

  predicate ChangesAt(found: seq<SystemState>, j: nat) { j < |found| && (j == 0 || found[j - 1] != found[j]) }

  function Values(ms: seq<Message>): seq<string> {
    if ms == [] then []
    else if ms[|ms| - 1].GateValue? then Values(ms[..|ms| - 1]) + [ms[|ms| - 1].text]
    else Values(ms[..|ms| - 1])
  }

  lemma {:induction false} ValuesConcat(a: seq<Message>, b: seq<Message>)
    ensures Values(a + b) == Values(a) + Values(b)
  {
    if b == [] {
      assert a + b == a;
    } else {
      assert (a + b)[..|a + b| - 1] == a + b[..|b| - 1];
      ValuesConcat(a, b[..|b| - 1]);
    }
  }

  lemma ValuesOfOne(found: seq<SystemState>, j: nat)
    requires j < |found|
    ensures Values(Announcement(found, j)) == if ChangesAt(found, j) then [if found[j] == Idle then "CLOSED" else "OPEN"] else []
  {
    var value := [GateValue(if found[j] == Idle then "CLOSED" else "OPEN")];
    if ChangesAt(found, j) {
      ValuesConcat(value, Announcement(found, j)[1..]);
    }
  }

  /** `changes` are the indices where the state changes, in order, and `values` says of each
      whether the gate is closed there, that is, whether the new state is IDLE. */
  ghost predicate PerChange(found: seq<SystemState>, changes: seq<nat>, values: seq<string>) {
    && |changes| == |values|
    && (forall i :: 0 <= i < |changes| ==>
          ChangesAt(found, changes[i]) && values[i] == if found[changes[i]] == Idle then "CLOSED" else "OPEN")
    && (forall i, j :: 0 <= i < j < |changes| ==> changes[i] < changes[j])
    && (forall j: nat :: ChangesAt(found, j) ==> j in changes)
  }

  lemma PerOneMore(found: seq<SystemState>, changes: seq<nat>, values: seq<string>)
    requires found != [] && PerChange(found[..|found| - 1], changes, values)
    ensures var n := |found| - 1;
            if ChangesAt(found, n) then PerChange(found, changes + [n], values + [if found[n] == Idle then "CLOSED" else "OPEN"])
            else PerChange(found, changes, values)
  {
    var n := |found| - 1;
    forall j: nat | j < n ensures ChangesAt(found[..n], j) <==> ChangesAt(found, j) {
    }
    forall i | 0 <= i < |changes| ensures changes[i] < n && ChangesAt(found, changes[i]) && found[..n][changes[i]] == found[changes[i]] {
      assert ChangesAt(found[..n], changes[i]);
    }
    forall j: nat | ChangesAt(found, j) ensures j == n || j in changes {
      assert j < n ==> ChangesAt(found[..n], j);
    }
    forall j | j in changes + [n] ensures j == n || j in changes {
    }
  }

  /** One gate value for the first state found and one for each change, in order, and no
      other. */
  lemma {:induction false} OneValuePerChange(found: seq<SystemState>) returns (changes: seq<nat>)
    ensures PerChange(found, changes, Values(Announcements(found)))
  {
    if found == [] {
      changes := [];
    } else {
      hide Announcement, Announcements, Values, PerChange;
      var n := |found| - 1;
      var before := found[..n];
      changes := OneValuePerChange(before);
      AnnouncementsOneMore(found);
      ValuesConcat(Announcements(before), Announcement(found, n));
      ValuesOfOne(found, n);
      PerOneMore(found, changes, Values(Announcements(before)));
      if ChangesAt(found, n) {
        changes := changes + [n];
      } else {
        assert Values(Announcements(before)) + [] == Values(Announcements(before));
      }
    }
  }

  // ---- Soundness --------------------------------------------------------------------

  /** The message for a real change out of IDLE. */
  ghost predicate RealOpening(ss: seq<SystemState>, t: nat, m: Message) {
    0 < t < |ss| && ss[t - 1] == Idle && EventFor(Name(Idle), Name(ss[t])) == [m]
  }

  predicate EntryFamily(s: SystemState) { s == EntryDetected || s == EntryWaiting }

  /** Coming from IDLE, the family a state belongs to tells how IDLE was left: the last
      IDLE before it is followed by the first state of that family. */
  lemma {:induction false} LastOpening(ss: seq<SystemState>, lo: nat, hi: nat) returns (t: nat)
    requires Path(ss) && lo < hi < |ss| && ss[lo] == Idle && ss[hi] != Idle
    ensures lo < t <= hi && ss[t - 1] == Idle
    ensures ss[t] == if EntryFamily(ss[hi]) then EntryDetected else ExitRequested
  {
    assert Edge(ss[hi - 1], ss[hi]);
    if ss[hi - 1] == Idle {
      t := hi;
    } else {
      t := LastOpening(ss, lo, hi - 1);
    }
  }

  lemma EventsAreForOpenings(a: SystemState, b: SystemState)
    ensures EventFor(Name(a), Name(b)) == (if a == Idle && b == EntryDetected then [Event("ENTRY_OPEN", "vehicle_detected")]
                                           else if a == Idle && b == ExitRequested then [Event("EXIT_OPEN", "switch_pressed")]
                                           else [])
  {
    NamesDiffer(a, Idle);
    NamesDiffer(b, EntryDetected);
    NamesDiffer(b, ExitRequested);
  }

  /** Poll r reports the opening at t with this message: the opening came after the poll
      before r, and no later than r. */
  ghost predicate Reports(ss: seq<SystemState>, at: seq<nat>, r: nat, t: nat, m: Message)
    requires Sampling(ss, at)
  {
    && 0 < r < |at| && at[r - 1] < t <= at[r]
    && EventFor(Name(ss[at[r - 1]]), Name(ss[at[r]])) == [m]
    && RealOpening(ss, t, m)
  }

  /** The events belong one to one and in order to real openings, and to the polls that
      report them. */
  ghost predicate RealInOrder(ss: seq<SystemState>, at: seq<nat>, openings: seq<nat>, reporters: seq<nat>, evs: seq<Message>)
    requires Sampling(ss, at)
  {
    && |openings| == |reporters| == |evs|
    && (forall i :: 0 <= i < |evs| ==> Reports(ss, at, reporters[i], openings[i], evs[i]))
    && (forall i, j :: 0 <= i < j < |reporters| ==> reporters[i] < reporters[j])
    && (forall i, j :: 0 <= i < j < |openings| ==> openings[i] < openings[j])
  }

  /** The last sample of n adds its event to those of the samples before. */
  lemma EventsOneMore(ss: seq<SystemState>, at: seq<nat>, n: nat)
    requires Sampling(ss, at) && 2 <= n <= |at|
    ensures OpenEvents(Sampled(ss, at, n))
            == OpenEvents(Sampled(ss, at, n - 1)) + EventFor(Name(ss[at[n - 2]]), Name(ss[at[n - 1]]))
  {
    hide Name, EventFor;
    var found := Sampled(ss, at, n);
    assert found[..n - 1] == Sampled(ss, at, n - 1);
    assert found[n - 2] == Sampled(ss, at, n - 1)[n - 2] == ss[at[n - 2]];
  }

  lemma {:induction false} SampledEventsAreReal(ss: seq<SystemState>, at: seq<nat>, n: nat)
    returns (openings: seq<nat>, reporters: seq<nat>)
    requires Path(ss) && Sampling(ss, at) && n <= |at|
    ensures RealInOrder(ss, at, openings, reporters, OpenEvents(Sampled(ss, at, n)))
    ensures forall r :: r in reporters ==> r < n
  {
    hide Name, EventFor, RealInOrder, Edge, OpenEvents, Sampled;
    if n < 2 {
      openings, reporters := [], [];
      assert RealInOrder(ss, at, [], [], OpenEvents(Sampled(ss, at, n))) by { FewSamples(ss, at, n); }
    } else {
      openings, reporters := SampledEventsAreReal(ss, at, n - 1);
      var a, b := ss[at[n - 2]], ss[at[n - 1]];
      EventsOneMore(ss, at, n);
      EventsAreForOpenings(a, b);
      var evs := OpenEvents(Sampled(ss, at, n - 1));
      if a == Idle && (b == EntryDetected || b == ExitRequested) {
        var t := LastOpening(ss, at[n - 2], at[n - 1]);
        OneMoreOpening(ss, at, openings, reporters, evs, t, n - 1);
        openings, reporters := openings + [t], reporters + [n - 1];
      } else {
        assert evs + [] == evs;
      }
    }
  }

  lemma FewSamples(ss: seq<SystemState>, at: seq<nat>, n: nat)
    requires Sampling(ss, at) && n <= |at| && n < 2
    ensures RealInOrder(ss, at, [], [], OpenEvents(Sampled(ss, at, n)))
  {
  }

  lemma OneMoreOpening(ss: seq<SystemState>, at: seq<nat>, openings: seq<nat>, reporters: seq<nat>, evs: seq<Message>, t: nat, r: nat)
    requires Sampling(ss, at) && RealInOrder(ss, at, openings, reporters, evs)
    requires 0 < r < |at| && at[r - 1] < t <= at[r] && forall p :: p in reporters ==> p < r
    requires ss[t - 1] == Idle && ss[at[r - 1]] == Idle && ss[at[r]] == ss[t]
    requires ss[t] == EntryDetected || ss[t] == ExitRequested
    ensures RealInOrder(ss, at, openings + [t], reporters + [r], evs + EventFor(Name(Idle), Name(ss[t])))
  {
    hide Name, EventFor;
    EventsAreForOpenings(Idle, ss[t]);
    var m := EventFor(Name(Idle), Name(ss[t]))[0];
    assert EventFor(Name(Idle), Name(ss[t])) == [m];
    assert Reports(ss, at, r, t, m);
    forall i | 0 <= i < |openings|
      ensures openings[i] < t && reporters[i] < r && Reports(ss, at, reporters[i], openings[i], evs[i])
    {
      assert reporters[i] in reporters;
      assert at[reporters[i]] <= at[r - 1];
    }
  }

  /** Soundness under any subsampling: the published events belong, one to one and in
      order, to real changes out of IDLE with the same reason, each made since the poll
      before the one that reported it. */
  lemma EventsAreReal(ss: seq<SystemState>, at: seq<nat>, polls: seq<Option<string>>)
    returns (openings: seq<nat>, reporters: seq<nat>)
    requires Path(ss) && Sampling(ss, at) && PollsFor(polls, Sampled(ss, at, |at|))
    ensures RealInOrder(ss, at, openings, reporters, Events(Published(polls)))
  {
    hide RealInOrder, Path, OpenEvents, Events, Published, PollsFor, Sampled, Name;
    openings, reporters := SampledEventsAreReal(ss, at, |at|);
    PublishedEvents(polls, Sampled(ss, at, |at|));
  }

  // ---- Completeness -----------------------------------------------------------------

  predicate OpeningAt(ss: seq<SystemState>, t: nat) { 0 < t < |ss| && ss[t - 1] == Idle && ss[t] != Idle }

  /** The j-th poll and the one before it show the opening at t and no other: the earlier
      one found IDLE, the later one the state it led to, and it is the only one between. */
  ghost predicate Caught(ss: seq<SystemState>, at: seq<nat>, t: nat, j: nat)
    requires Sampling(ss, at) && OpeningAt(ss, t) && 0 < j < |at|
  {
    && at[j - 1] < t <= at[j]
    && ss[at[j - 1]] == Idle && ss[at[j]] == ss[t]
    && forall u: nat :: at[j - 1] < u <= at[j] && OpeningAt(ss, u) ==> u == t
  }

  ghost predicate NothingMissed(ss: seq<SystemState>, at: seq<nat>)
    requires Sampling(ss, at)
  {
    forall t: nat :: OpeningAt(ss, t) ==> exists j: nat :: 0 < j < |at| && Caught(ss, at, t, j)
  }

  /** The events of the changes after lo, up to hi. */
  function Between(ss: seq<SystemState>, lo: nat, hi: nat): seq<Message>
    requires lo <= hi < |ss|
  {
    if lo == hi then [] else Between(ss, lo, hi - 1) + EventFor(Name(ss[hi - 1]), Name(ss[hi]))
  }

  lemma {:induction false} BetweenSplits(ss: seq<SystemState>, lo: nat, mid: nat, hi: nat)
    requires lo <= mid <= hi < |ss|
    ensures Between(ss, lo, hi) == Between(ss, lo, mid) + Between(ss, mid, hi)
  {
    hide Name, EventFor;
    if mid < hi {
      BetweenSplits(ss, lo, mid, hi - 1);
    }
  }

  lemma {:induction false} AllBetween(ss: seq<SystemState>, n: nat)
    requires n < |ss|
    ensures OpenEvents(ss[..n + 1]) == Between(ss, 0, n)
  {
    hide Name, EventFor;
    if n > 0 {
      AllBetween(ss, n - 1);
      assert ss[..n + 1][..n] == ss[..n];
    }
  }

  /** A single change has an event exactly if it is an opening. */
  lemma OneChange(ss: seq<SystemState>, t: nat)
    requires Path(ss) && 0 < t < |ss|
    ensures Between(ss, t - 1, t) == EventFor(Name(ss[t - 1]), Name(ss[t]))
    ensures |Between(ss, t - 1, t)| == if OpeningAt(ss, t) then 1 else 0
  {
    hide Name, EventFor;
    assert Edge(ss[t - 1], ss[t]);
    EventsAreForOpenings(ss[t - 1], ss[t]);
    assert Between(ss, t - 1, t - 1) == [];
  }

  lemma {:induction false} NoneBetween(ss: seq<SystemState>, lo: nat, hi: nat)
    requires Path(ss) && lo <= hi < |ss|
    ensures Between(ss, lo, hi) == [] <==> forall t: nat :: lo < t <= hi ==> !OpeningAt(ss, t)
  {
    hide Name, EventFor, Path;
    if lo < hi {
      hide Between;
      NoneBetween(ss, lo, hi - 1);
      BetweenSplits(ss, lo, hi - 1, hi);
      OneChange(ss, hi);
    }
  }

  /** Among the changes after lo up to hi, the event of the opening at t stands between
      those before and those after it. */
  lemma BetweenAround(ss: seq<SystemState>, lo: nat, t: nat, hi: nat)
    requires Path(ss) && lo < t <= hi < |ss| && OpeningAt(ss, t)
    ensures |Between(ss, lo, hi)| == |Between(ss, lo, t - 1)| + 1 + |Between(ss, t, hi)|
    ensures Between(ss, lo, t - 1) == [] && Between(ss, t, hi) == [] ==> Between(ss, lo, hi) == EventFor(Name(Idle), Name(ss[t]))
  {
    hide Name, EventFor, Path, Between;
    BetweenSplits(ss, lo, t - 1, hi);
    BetweenSplits(ss, t - 1, t, hi);
    OneChange(ss, t);
  }

  /** Two successive polls report what happened between them. */
  ghost predicate Faithful(ss: seq<SystemState>, lo: nat, hi: nat)
    requires lo <= hi < |ss|
  {
    EventFor(Name(ss[lo]), Name(ss[hi])) == Between(ss, lo, hi)
  }

  /** They never report more openings than there were, and if they report as many, they
      report the right ones. */
  lemma FaithfulByCount(ss: seq<SystemState>, lo: nat, hi: nat)
    requires Path(ss) && lo <= hi < |ss|
    ensures |EventFor(Name(ss[lo]), Name(ss[hi]))| <= |Between(ss, lo, hi)|
    ensures Faithful(ss, lo, hi) <==> |EventFor(Name(ss[lo]), Name(ss[hi]))| == |Between(ss, lo, hi)|
  {
    hide Name, EventFor, Path, Between;
    EventsAreForOpenings(ss[lo], ss[hi]);
    if EventFor(Name(ss[lo]), Name(ss[hi])) != [] {
      assert lo < hi;
      var t := LastOpening(ss, lo, hi);
      BetweenAround(ss, lo, t, hi);
    }
  }

  /** Every opening between poll j and the one before it is caught by them. */
  ghost predicate CatchesAll(ss: seq<SystemState>, at: seq<nat>, j: nat)
    requires Sampling(ss, at) && 0 < j < |at|
  {
    forall t: nat :: at[j - 1] < t <= at[j] && OpeningAt(ss, t) ==> Caught(ss, at, t, j)
  }

  /** When exactly two polls report what happened between them: nothing happened,
      or they catch the one opening there was. */
  lemma FaithfulByOpenings(ss: seq<SystemState>, at: seq<nat>, j: nat)
    requires Path(ss) && Sampling(ss, at) && 0 < j < |at|
    ensures Faithful(ss, at[j - 1], at[j]) <==> CatchesAll(ss, at, j)
  {
    hide Name, EventFor, Path, Between;
    var lo, hi := at[j - 1], at[j];
    FaithfulByCount(ss, lo, hi);
    EventsAreForOpenings(ss[lo], ss[hi]);
    NoneBetween(ss, lo, hi);
    if exists t: nat :: lo < t <= hi && OpeningAt(ss, t) {
      var t: nat :| lo < t <= hi && OpeningAt(ss, t);
      BetweenAround(ss, lo, t, hi);
      NoneBetween(ss, lo, t - 1);
      NoneBetween(ss, t, hi);
      EventsAreForOpenings(Idle, ss[t]);
      OneChange(ss, t);
      OpeningLeadsTo(ss, t);
      if Faithful(ss, lo, hi) {
        assert Caught(ss, at, t, j);
      }
    }
  }

  lemma OpeningLeadsTo(ss: seq<SystemState>, t: nat)
    requires Path(ss) && OpeningAt(ss, t)
    ensures ss[t] == EntryDetected || ss[t] == ExitRequested
  {
    assert Edge(ss[t - 1], ss[t]);
  }

  /** The first n polls report everything up to the last of them. */
  ghost predicate FaithfulUpTo(ss: seq<SystemState>, at: seq<nat>, n: nat)
    requires Sampling(ss, at) && 0 < n <= |at|
  {
    Between(ss, 0, at[0]) == [] && forall j: nat :: 0 < j < n ==> Faithful(ss, at[j - 1], at[j])
  }

  lemma {:induction false} ReportedSoFar(ss: seq<SystemState>, at: seq<nat>, n: nat)
    requires Path(ss) && Sampling(ss, at) && 0 < n <= |at|
    ensures var evs, all := OpenEvents(Sampled(ss, at, n)), Between(ss, 0, at[n - 1]);
            && |evs| <= |all|
            && (FaithfulUpTo(ss, at, n) <==> evs == all)
            && (FaithfulUpTo(ss, at, n) <==> |evs| == |all|)
  {
    hide Name, EventFor, Path, Between, Faithful;
    var found := Sampled(ss, at, n);
    if n > 1 {
      ReportedSoFar(ss, at, n - 1);
      BetweenSplits(ss, 0, at[n - 2], at[n - 1]);
      FaithfulByCount(ss, at[n - 2], at[n - 1]);
      assert found[..n - 1] == Sampled(ss, at, n - 1) && found[n - 2] == ss[at[n - 2]];
      assert FaithfulUpTo(ss, at, n) <==> FaithfulUpTo(ss, at, n - 1) && Faithful(ss, at[n - 2], at[n - 1]);
      FaithfulMeans(ss, at[n - 2], at[n - 1]);
    }
  }

  lemma FaithfulMeans(ss: seq<SystemState>, lo: nat, hi: nat)
    requires lo <= hi < |ss|
    ensures Faithful(ss, lo, hi) <==> EventFor(Name(ss[lo]), Name(ss[hi])) == Between(ss, lo, hi)
  {
  }

  /** The polls around index t. */
  lemma PollsAround(ss: seq<SystemState>, at: seq<nat>, t: nat) returns (j: nat)
    requires Sampling(ss, at) && at != [] && at[0] < t <= at[|at| - 1]
    ensures 0 < j < |at| && at[j - 1] < t <= at[j]
  {
    j := 1;
    while at[j] < t
      invariant 0 < j < |at| && at[j - 1] < t
      decreases |at| - j
    {
      j := j + 1;
    }
  }

  lemma MissedNowhere(ss: seq<SystemState>, at: seq<nat>)
    requires Path(ss) && Sampling(ss, at) && at != []
    ensures NothingMissed(ss, at)
            <==> FaithfulUpTo(ss, at, |at|) && Between(ss, at[|at| - 1], |ss| - 1) == []
  {
    hide Edge, Between, Caught, Faithful;
    var last := at[|at| - 1];
    NoneBetween(ss, 0, at[0]);
    NoneBetween(ss, last, |ss| - 1);
    forall j: nat | 0 < j < |at|
      ensures Faithful(ss, at[j - 1], at[j]) <==> CatchesAll(ss, at, j)
    {
      FaithfulByOpenings(ss, at, j);
    }
    if FaithfulUpTo(ss, at, |at|) && Between(ss, last, |ss| - 1) == [] {
      forall t: nat | OpeningAt(ss, t) ensures exists j: nat :: 0 < j < |at| && Caught(ss, at, t, j) {
        var j := PollsAround(ss, at, t);
        assert Caught(ss, at, t, j);
      }
    }
    if NothingMissed(ss, at) {
      forall t: nat | OpeningAt(ss, t) ensures at[0] < t <= last {
        var j: nat :| 0 < j < |at| && Caught(ss, at, t, j);
        CaughtBetween(ss, at, t, j);
      }
      forall j: nat | 0 < j < |at| ensures CatchesAll(ss, at, j) {
        CatchesItsOwn(ss, at, j);
      }
    }
  }

  lemma CatchesItsOwn(ss: seq<SystemState>, at: seq<nat>, j: nat)
    requires Sampling(ss, at) && NothingMissed(ss, at) && 0 < j < |at|
    ensures CatchesAll(ss, at, j)
  {
    hide Caught;
    forall t: nat | at[j - 1] < t <= at[j] && OpeningAt(ss, t) ensures Caught(ss, at, t, j) {
      var k: nat :| 0 < k < |at| && Caught(ss, at, t, k);
      CaughtBetween(ss, at, t, k);
      GapIsUnique(ss, at, t, j, k);
    }
  }

  lemma GapIsUnique(ss: seq<SystemState>, at: seq<nat>, t: nat, j: nat, k: nat)
    requires Sampling(ss, at) && 0 < j < |at| && 0 < k < |at|
    requires at[j - 1] < t <= at[j] && at[k - 1] < t <= at[k]
    ensures j == k
  {
  }

  lemma CaughtBetween(ss: seq<SystemState>, at: seq<nat>, t: nat, j: nat)
    requires Sampling(ss, at) && OpeningAt(ss, t) && 0 < j < |at| && Caught(ss, at, t, j)
    ensures at[j - 1] < t <= at[j]
  {
  }

  /** Completeness: the published events are exactly the driver's openings, in order, each
      with its reason, if and only if every opening is caught by two successive polls. */
  lemma ReportsAllIffCaught(ss: seq<SystemState>, at: seq<nat>, polls: seq<Option<string>>)
    requires Path(ss) && Sampling(ss, at) && PollsFor(polls, Sampled(ss, at, |at|))
    ensures Events(Published(polls)) == OpenEvents(ss) <==> NothingMissed(ss, at)
  {
    hide Name, EventFor, Edge, Between, Caught, Faithful, OpenEvents, Events, Published, PollsFor, FaithfulUpTo;
    var n := |ss| - 1;
    PublishedEvents(polls, Sampled(ss, at, |at|));
    AllBetween(ss, n);
    assert ss[..n + 1] == ss;
    if at == [] {
      NoneBetween(ss, 0, n);
      assert OpenEvents([]) == [] by { NoStatesNoEvents(); }
    } else {
      ReportedSoFar(ss, at, |at|);
      BetweenSplits(ss, 0, at[|at| - 1], n);
      MissedNowhere(ss, at);
    }
  }

  lemma NoStatesNoEvents()
    ensures OpenEvents([]) == []
  {
  }

  /** An opening closed again between two polls is missed, and the gate driver has such runs:
      a press opens the gate, nobody comes, and ten seconds later it closes. */
  lemma CoarseSamplingMisses() returns (ts: seq<Turn>)
    ensures Timed(0, ts) && forall t :: t in ts ==> |t.checks| == CHECKS
    ensures var ss, at := Run(LOADED, ts).written, [0, 2];
            ss == [Idle, ExitRequested, Idle] && Path(ss) && Sampling(ss, at) && OpeningAt(ss, 1) && !NothingMissed(ss, at)
  {
    hide NothingMissed;
    ts := PressAndTimeout();
    MissedStay();
  }

  lemma MissedStay()
    ensures var ss, at := [Idle, ExitRequested, Idle], [0, 2];
            Path(ss) && Sampling(ss, at) && OpeningAt(ss, 1) && !NothingMissed(ss, at)
  {
    var ss, at := [Idle, ExitRequested, Idle], [0, 2];
    assert OpeningAt(ss, 1);
  }

  lemma PressAndTimeout() returns (ts: seq<Turn>)
    ensures Timed(0, ts) && forall t :: t in ts ==> |t.checks| == CHECKS
    ensures Run(LOADED, ts).written == [Idle, ExitRequested, Idle]
  {
    hide Open, Shut;
    var quiet := seq(CHECKS, _ => Check(false, NoEcho, 12));
    var press := Turn(true, 2, NoEcho, 2, quiet, 12, false);
    var timeout := Turn(false, 12, NoEcho, 12, quiet, 12, false);
    ts := [press, timeout];
    assert ts[1..] == [timeout] && [timeout][1..] == [];
    var g1 := Iterate(LOADED, press);
    assert g1.state == ExitRequested && g1.written == [Idle, ExitRequested] && !g1.pressed && !g1.reopen && g1.exitRequest == 2 by {
      OpenOnlyMoves(LOADED);
    }
    CloseCompletes(g1, timeout);
    CloseWrites(g1, timeout);
    assert ClockOk(0, press) && ClockOk(12, timeout) && Timed(12, [timeout]);
    assert Iterate(g1, timeout).written == g1.written + [Idle];
    assert Run(LOADED, ts) == Run(g1, [timeout]) == Run(Iterate(g1, timeout), []) == Iterate(g1, timeout);
  }

  lemma OpenOnlyMoves(g: Gate)
    ensures Open(g) == g.(rotor := Open(g).rotor, step := Open(g).step)
  {
  }

  /** How many times the state changed up to index t: which stay t belongs to. */
  function Stay(ss: seq<SystemState>, t: nat): nat
    requires t < |ss|
  {
    if t == 0 then 0 else Stay(ss, t - 1) + if ss[t] != ss[t - 1] then 1 else 0
  }

  /** Every stay in a state is polled at least once. */
  ghost predicate FineSampling(ss: seq<SystemState>, at: seq<nat>)
    requires Sampling(ss, at)
  {
    forall t: nat :: t < |ss| ==> Polled(ss, at, t)
  }

  ghost predicate Polled(ss: seq<SystemState>, at: seq<nat>, t: nat)
    requires Sampling(ss, at) && t < |ss|
  {
    exists j: nat :: PolledAt(ss, at, t, j)
  }

  /** Poll j falls into the stay that index t belongs to. */
  ghost predicate PolledAt(ss: seq<SystemState>, at: seq<nat>, t: nat, j: nat)
    requires Sampling(ss, at) && t < |ss|
  {
    j < |at| && Stay(ss, at[j]) == Stay(ss, t)
  }

  lemma StayPolled(ss: seq<SystemState>, at: seq<nat>, t: nat) returns (j: nat)
    requires Sampling(ss, at) && FineSampling(ss, at) && t < |ss|
    ensures j < |at| && Stay(ss, at[j]) == Stay(ss, t)
  {
    assert Polled(ss, at, t);
    j :| PolledAt(ss, at, t, j);
  }

  lemma {:induction false} StayIsMonotone(ss: seq<SystemState>, a: nat, b: nat)
    requires a <= b < |ss|
    ensures Stay(ss, a) <= Stay(ss, b)
  {
    if a < b {
      StayIsMonotone(ss, a, b - 1);
    }
  }

  lemma LaterStay(ss: seq<SystemState>, a: nat, b: nat)
    requires a < |ss| && b < |ss| && Stay(ss, a) < Stay(ss, b)
    ensures a < b
  {
    if b <= a {
      StayIsMonotone(ss, b, a);
    }
  }

  /** A stay is one state throughout, with no opening inside it. */
  lemma {:induction false} SameStay(ss: seq<SystemState>, u: nat, t: nat)
    requires u <= t < |ss| && Stay(ss, t) == Stay(ss, u)
    ensures ss[u] == ss[t]
    ensures forall v: nat :: u < v <= t ==> !OpeningAt(ss, v)
  {
    if u < t {
      StayIsMonotone(ss, u, t - 1);
      SameStay(ss, u, t - 1);
    }
  }

  /** When the stays before and after an opening are polled, it is caught. */
  lemma FineSamplingCatches(ss: seq<SystemState>, at: seq<nat>, t: nat)
    requires Sampling(ss, at) && FineSampling(ss, at) && OpeningAt(ss, t)
    ensures exists j: nat :: 0 < j < |at| && Caught(ss, at, t, j)
  {
    hide FineSampling, Stay, Polled, PolledAt;
    var before := StayPolled(ss, at, t - 1);
    var after := StayPolled(ss, at, t);
    assert Stay(ss, t) == Stay(ss, t - 1) + 1 by { ChangeEndsStay(ss, t); }
    LaterStay(ss, at[before], t);
    LaterStay(ss, t - 1, at[after]);
    assert at[0] <= at[before] && at[after] <= at[|at| - 1];
    var j := PollsAround(ss, at, t);
    PollsInOrder(ss, at, before, j);
    PollsInOrder(ss, at, j - 1, after);
    StayIsMonotone(ss, at[before], at[j - 1]);
    StayIsMonotone(ss, at[j - 1], t - 1);
    SameStay(ss, at[j - 1], t - 1);
    StayIsMonotone(ss, t, at[j]);
    StayIsMonotone(ss, at[j], at[after]);
    SameStay(ss, t, at[j]);
    assert Caught(ss, at, t, j);
  }

  lemma PollsInOrder(ss: seq<SystemState>, at: seq<nat>, a: nat, b: nat)
    requires Sampling(ss, at) && a < |at| && b < |at| && at[a] < at[b]
    ensures a < b
  {
  }

  lemma ChangeEndsStay(ss: seq<SystemState>, t: nat)
    requires 0 < t < |ss| && ss[t - 1] != ss[t]
    ensures Stay(ss, t) == Stay(ss, t - 1) + 1
  {
  }

  /** So fine sampling reports everything: if every stay in a state is polled at least
      once, the published events are exactly the driver's openings. */
  lemma {:induction false} FineSamplingReportsAll(ss: seq<SystemState>, at: seq<nat>, polls: seq<Option<string>>)
    requires Path(ss) && Sampling(ss, at) && FineSampling(ss, at) && PollsFor(polls, Sampled(ss, at, |at|))
    ensures Events(Published(polls)) == OpenEvents(ss)
  {
    hide Path, Caught, OpenEvents, Events, Published, PollsFor, FineSampling;
    ReportsAllIffCaught(ss, at, polls);
    forall t: nat | OpeningAt(ss, t) ensures exists j: nat :: 0 < j < |at| && Caught(ss, at, t, j) {
      FineSamplingCatches(ss, at, t);
    }
  }

  /** All of it for the gate driver itself: whatever its run, the bridge reports no opening
      that did not happen, and reports all of them exactly when it catches each, as it
      does when it polls every stay. */
  lemma {:induction false} BridgeOverAllRuns(start: int, ts: seq<Turn>, at: seq<nat>, polls: seq<Option<string>>)
    requires 0 <= start && Timed(start, ts) && forall t :: t in ts ==> |t.checks| == CHECKS
    requires Sampling(Run(LOADED, ts).written, at)
    requires PollsFor(polls, Sampled(Run(LOADED, ts).written, at, |at|))
    ensures var ss := Run(LOADED, ts).written;
            && (exists openings, reporters :: RealInOrder(ss, at, openings, reporters, Events(Published(polls))))
            && (Events(Published(polls)) == OpenEvents(ss) <==> NothingMissed(ss, at))
            && (FineSampling(ss, at) ==> NothingMissed(ss, at))
  {
    hide Run, Timed, NothingMissed, FineSampling, Path, RealInOrder, OpenEvents, Events, Published, PollsFor, Sampled, Sampling;
    PositionOverAllRuns(start, ts);
    var ss := Run(LOADED, ts).written;
    var openings, reporters := EventsAreReal(ss, at, polls);
    ReportsAllIffCaught(ss, at, polls);
    if FineSampling(ss, at) {
      FineSamplingReportsAll(ss, at, polls);
    }
  }
}
