/** The RPI3 server's log and the browser's dashboard: a page that starts from a snapshot
    of the log and then follows the live messages, against a page that starts from a
    snapshot of the whole log. */
module Dashboard {

  import opened Options

  const EVENT_TOPIC := "parking/rpi2/event"
  const EVENT_LIMIT := 10

  /** A message on parking/#.  A field of a JSON payload that is absent or null is None.
      Broken stands for a payload that is not JSON, with the name the server gives it;
      Other for a topic nobody knows. */
  datatype Message =
    | SlotMsg(slot1: Option<string>, slot2: Option<string>)
    | DistanceMsg(distance1: Option<int>, distance2: Option<int>)
    | LotMsg(lot: string)
    | GateMsg(gate: string)
    | EventMsg(event: Option<string>, reason: Option<string>)
    | Heartbeat
    | Broken(topic: string, problem: string)
    | Other(topic: string)

  // ---- The log ----------------------------------------------------------------------

  datatype SlotRow = SlotRow(slot1: Option<string>, slot2: Option<string>, distance1: Option<int>, distance2: Option<int>)

  datatype EventRow = EventRow(topic: string, eventType: Option<string>, reason: Option<string>)

  datatype Log = Log(slots: seq<SlotRow>, lots: seq<string>, gates: seq<string>, events: seq<EventRow>)

  const EMPTY_LOG: Log := Log([], [], [], [])

  /** handle_message, with the row each topic appends. */
  function Record(log: Log, m: Message): Log {
    match m
    case SlotMsg(s1, s2) => log.(slots := log.slots + [SlotRow(s1, s2, None, None)])
    case DistanceMsg(d1, d2) => log.(slots := log.slots + [SlotRow(None, None, d1, d2)])
    case LotMsg(text) => log.(lots := log.lots + [text])
    case GateMsg(text) => log.(gates := log.gates + [text])
    case EventMsg(e, r) => log.(events := log.events + [EventRow(EVENT_TOPIC, e, r)])
    case Heartbeat => log
    case Broken(topic, problem) => log.(events := log.events + [EventRow(topic, Some(problem), Some("json_decode_error"))])
    case Other(topic) => log.(events := log.events + [EventRow(topic, Some("unknown_topic"), Some("unsupported_topic"))])
  }

  function LogOf(ms: seq<Message>): Log {
    if ms == [] then EMPTY_LOG else Record(LogOf(ms[..|ms| - 1]), ms[|ms| - 1])
  }

  /** The newest row with a slot state, resp. a distance: both kinds share one table. */
  function LatestSlotState(rows: seq<SlotRow>): Option<SlotRow> {
    if rows == [] then None
    else if rows[|rows| - 1].slot1.Some? || rows[|rows| - 1].slot2.Some? then Some(rows[|rows| - 1])
    else LatestSlotState(rows[..|rows| - 1])
  }

  function LatestSlotDistance(rows: seq<SlotRow>): Option<SlotRow> {
    if rows == [] then None
    else if rows[|rows| - 1].distance1.Some? || rows[|rows| - 1].distance2.Some? then Some(rows[|rows| - 1])
    else LatestSlotDistance(rows[..|rows| - 1])
  }

  function Latest(texts: seq<string>): string { if texts == [] then "UNKNOWN" else texts[|texts| - 1] }

  /** The newest rows first, at most `limit`. */
  function RecentEvents(rows: seq<EventRow>, limit: nat): seq<EventRow> {
    if rows == [] || limit == 0 then [] else [rows[|rows| - 1]] + RecentEvents(rows[..|rows| - 1], limit - 1)
  }

  /** Row k has a slot state, and no row after it has one. */
  ghost predicate NewestState(rows: seq<SlotRow>, k: nat) {
    k < |rows| && (rows[k].slot1.Some? || rows[k].slot2.Some?)
    && forall j :: k < j < |rows| ==> rows[j].slot1.None? && rows[j].slot2.None?
  }

  ghost predicate NewestDistance(rows: seq<SlotRow>, k: nat) {
    k < |rows| && (rows[k].distance1.Some? || rows[k].distance2.Some?)
    && forall j :: k < j < |rows| ==> rows[j].distance1.None? && rows[j].distance2.None?
  }

  lemma {:induction false} LatestStateIsNewest(rows: seq<SlotRow>)
    ensures forall k: nat :: NewestState(rows, k) ==> LatestSlotState(rows) == Some(rows[k])
    ensures (forall k: nat :: !NewestState(rows, k)) <==> LatestSlotState(rows) == None
  {
    if rows != [] {
      var last, before := |rows| - 1, rows[..|rows| - 1];
      LatestStateIsNewest(before);
      if rows[last].slot1.Some? || rows[last].slot2.Some? {
        assert NewestState(rows, last);
      } else {
        assert forall k: nat :: NewestState(rows, k) <==> NewestState(before, k);
      }
    }
  }

  lemma {:induction false} LatestDistanceIsNewest(rows: seq<SlotRow>)
    ensures forall k: nat :: NewestDistance(rows, k) ==> LatestSlotDistance(rows) == Some(rows[k])
    ensures (forall k: nat :: !NewestDistance(rows, k)) <==> LatestSlotDistance(rows) == None
  {
    if rows != [] {
      var last, before := |rows| - 1, rows[..|rows| - 1];
      LatestDistanceIsNewest(before);
      if rows[last].distance1.Some? || rows[last].distance2.Some? {
        assert NewestDistance(rows, last);
      } else {
        assert forall k: nat :: NewestDistance(rows, k) <==> NewestDistance(before, k);
      }
    }
  }

  lemma {:induction false} RecentAreNewest(rows: seq<EventRow>, limit: nat)
    ensures |RecentEvents(rows, limit)| == if |rows| < limit then |rows| else limit
    ensures forall i :: 0 <= i < |RecentEvents(rows, limit)| ==> RecentEvents(rows, limit)[i] == rows[|rows| - 1 - i]
  {
    if rows != [] && limit != 0 {
      var n := |rows| - 1;
      var r, older := RecentEvents(rows, limit), RecentEvents(rows[..n], limit - 1);
      RecentAreNewest(rows[..n], limit - 1);
      assert r == [rows[n]] + older;
      forall i | 0 <= i < |r| ensures r[i] == rows[n - i] {
        if i > 0 {
          assert r[i] == older[i - 1] == rows[..n][n - i];
        }
      }
    }
  }

  datatype Snapshot = Snapshot(slot1: Option<string>, slot2: Option<string>, distance1: Option<int>, distance2: Option<int>,
                               lot: string, gate: string, events: seq<EventRow>)

  /** get_dashboard_state. */
  function SnapshotOf(log: Log): Snapshot {
    var s, d := LatestSlotState(log.slots), LatestSlotDistance(log.slots);
    Snapshot(if s.Some? then s.value.slot1 else Some("UNKNOWN"), if s.Some? then s.value.slot2 else Some("UNKNOWN"),
             if d.Some? then d.value.distance1 else None, if d.Some? then d.value.distance2 else None,
             Latest(log.lots), Latest(log.gates), RecentEvents(log.events, EVENT_LIMIT))
  }

  // ---- The page ---------------------------------------------------------------------

  /** dashboardState, recentEvents, and what the last-event fields were set to. */
  datatype Page = Page(slot1: Option<string>, slot2: Option<string>, distance1: Option<int>, distance2: Option<int>,
                       lot: Option<string>, gate: Option<string>, events: seq<EventRow>, lastEvent: Option<(string, string)>)

  const BLANK: Page := Page(None, None, None, None, None, None, [], None)

  predicate Truthy(t: Option<string>) { t.Some? && t.value != "" }

  function TextOrUnknown(t: Option<string>): string { if Truthy(t) then t.value else "UNKNOWN" }

  function EventFields(eventType: Option<string>, reason: Option<string>): Option<(string, string)> {
    Some((TextOrUnknown(eventType), if Truthy(reason) then reason.value else "-"))
  }

  /** applyState. */
  function Apply(p: Page, s: Snapshot): Page {
    Page(s.slot1, s.slot2, s.distance1, s.distance2,
         if s.lot != "" then Some(s.lot) else p.lot, if s.gate != "" then Some(s.gate) else p.gate, s.events,
         if s.events != [] then EventFields(s.events[0].eventType, s.events[0].reason) else p.lastEvent)
  }

  function Prepend(e: EventRow, events: seq<EventRow>): seq<EventRow> {
    var all := [e] + events;
    if |all| > EVENT_LIMIT then all[..EVENT_LIMIT] else all
  }

  /** handleMqttMessage; a payload that is not JSON throws before anything changes. */
  function Follow(p: Page, m: Message): Page {
    match m
    case SlotMsg(s1, s2) => p.(slot1 := s1, slot2 := s2)
    case DistanceMsg(d1, d2) => p.(distance1 := d1, distance2 := d2)
    case LotMsg(text) => p.(lot := Some(text))
    case GateMsg(text) => p.(gate := Some(text))
    case EventMsg(e, r) => p.(events := Prepend(EventRow(EVENT_TOPIC, e, r), p.events), lastEvent := EventFields(e, r))
    case Heartbeat | Broken(_, _) | Other(_) => p
  }

  function FollowAll(p: Page, ms: seq<Message>): Page {
    if ms == [] then p else Follow(FollowAll(p, ms[..|ms| - 1]), ms[|ms| - 1])
  }

  // ---- What the page shows ----------------------------------------------------------

  /** The number of free slots is only shown once a state is known. */
  function FreeSlots(a: Option<string>, b: Option<string>): Option<nat> {
    if !Truthy(a) && !Truthy(b) then None
    else Some((if a == Some("EMPTY") then 1 else 0) + (if b == Some("EMPTY") then 1 else 0))
  }

  /** An event line without its time. */
  function EventText(e: EventRow): (string, string, string) {
    (if Truthy(e.eventType) then e.eventType.value else "unknown_event", if Truthy(e.reason) then e.reason.value else "", e.topic)
  }

  datatype Screen = Screen(slot1: string, slot2: string, free: Option<nat>, distance1: Option<int>, distance2: Option<int>,
                           lot: string, gate: string, events: seq<(string, string, string)>, lastEvent: Option<(string, string)>)

  function Lines(events: seq<EventRow>): seq<(string, string, string)> {
    seq(|events|, i requires 0 <= i < |events| => EventText(events[i]))
  }

  function Show(p: Page): Screen {
    Screen(TextOrUnknown(p.slot1), TextOrUnknown(p.slot2), FreeSlots(p.slot1, p.slot2), p.distance1, p.distance2,
           TextOrUnknown(p.lot), TextOrUnknown(p.gate), Lines(p.events), p.lastEvent)
  }

  /** A page opened on this log. */
  function Opened(log: Log): Page { Apply(BLANK, SnapshotOf(log)) }

  // ---- Snapshot and live updates ----------------------------------------------------

  /** What the two ways agree on: slot and distance messages say something about a slot,
      the payload is JSON, and the topic is known. */
  predicate WellFormed(m: Message) {
    match m
    case SlotMsg(s1, s2) => s1.Some? || s2.Some?
    case DistanceMsg(d1, d2) => d1.Some? || d2.Some?
    case Broken(_, _) | Other(_) => false
    case _ => true
  }

  /** Two pages that differ at most in how they hold an empty text. */
  predicate Alike(p: Page, q: Page) {
    && p.slot1 == q.slot1 && p.slot2 == q.slot2 && p.distance1 == q.distance1 && p.distance2 == q.distance2
    && TextOrUnknown(p.lot) == TextOrUnknown(q.lot) && TextOrUnknown(p.gate) == TextOrUnknown(q.gate)
    && p.events == q.events && p.lastEvent == q.lastEvent
  }

  lemma {:induction false} RecentWithOneMore(rows: seq<EventRow>, e: EventRow, limit: nat)
    requires limit > 0
    ensures var all := [e] + RecentEvents(rows, limit);
            RecentEvents(rows + [e], limit) == if |all| > limit then all[..limit] else all
  {
    assert (rows + [e])[..|rows|] == rows;
    RecentShorter(rows, limit);
  }

  lemma {:induction false} RecentShorter(rows: seq<EventRow>, limit: nat)
    requires limit > 0
    ensures |RecentEvents(rows, limit)| <= limit
    ensures var r := RecentEvents(rows, limit); RecentEvents(rows, limit - 1) == if |r| == limit then r[..limit - 1] else r
  {
    if rows != [] && limit > 1 {
      RecentShorter(rows[..|rows| - 1], limit - 1);
    }
  }

  lemma SlotRowsOneMore(rows: seq<SlotRow>, r: SlotRow)
    ensures LatestSlotState(rows + [r]) == if r.slot1.Some? || r.slot2.Some? then Some(r) else LatestSlotState(rows)
    ensures LatestSlotDistance(rows + [r]) == if r.distance1.Some? || r.distance2.Some? then Some(r) else LatestSlotDistance(rows)
  {
    assert (rows + [r])[..|rows|] == rows;
  }

  /** One message keeps the live page like a freshly opened one. */
  lemma FollowKeepsAlike(p: Page, log: Log, m: Message)
    requires WellFormed(m) && Alike(p, Opened(log))
    ensures Alike(Follow(p, m), Opened(Record(log, m)))
  {
    match m {
      case SlotMsg(s1, s2) => SlotRowsOneMore(log.slots, SlotRow(s1, s2, None, None));
      case DistanceMsg(d1, d2) => SlotRowsOneMore(log.slots, SlotRow(None, None, d1, d2));
      case EventMsg(e, r) => RecentWithOneMore(log.events, EventRow(EVENT_TOPIC, e, r), EVENT_LIMIT);
      case _ =>
    }
  }

  lemma AlikeShowTheSame(p: Page, q: Page)
    requires Alike(p, q)
    ensures Show(p) == Show(q)
  {
  }

  lemma {:induction false} FollowingStaysAlike(before: seq<Message>, after: seq<Message>)
    requires forall m :: m in after ==> WellFormed(m)
    ensures Alike(FollowAll(Opened(LogOf(before)), after), Opened(LogOf(before + after)))
  {
    if after == [] {
      assert before + after == before;
    } else {
      hide Alike, Opened, Record, Follow, WellFormed;
      var init := after[..|after| - 1];
      FollowingStaysAlike(before, init);
      assert (before + after)[..|before + after| - 1] == before + init;
      FollowKeepsAlike(FollowAll(Opened(LogOf(before)), init), LogOf(before + init), after[|after| - 1]);
    }
  }

  /** And well-formedness is exactly what it takes: a message is followed correctly from
      every stream if and only if it is well formed. */
  lemma SafeMessages(m: Message)
    ensures (forall before: seq<Message> :: FollowedWell(before, m)) <==> WellFormed(m)
  {
    hide FollowedWell;
    if WellFormed(m) {
      forall before: seq<Message> ensures FollowedWell(before, m) {
        WellFormedFollowedWell(before, m);
      }
    } else {
      var before := Unfollowed(m);
    }
  }

  /** A page that follows m after these messages shows what a page opened then shows. */
  ghost predicate FollowedWell(before: seq<Message>, m: Message) {
    Show(Follow(Opened(LogOf(before)), m)) == Show(Opened(LogOf(before + [m])))
  }

  lemma WellFormedFollowedWell(before: seq<Message>, m: Message)
    requires WellFormed(m)
    ensures FollowedWell(before, m)
  {
    hide Show, Opened, Record, WellFormed;
    SnapshotPlusLive(before, [m]);
    assert [m][..0] == [];
    assert FollowAll(Opened(LogOf(before)), [m]) == Follow(Opened(LogOf(before)), m);
  }

  /** For a message that is not well formed, a stream it is followed wrongly from. */
  lemma Unfollowed(m: Message) returns (before: seq<Message>)
    requires !WellFormed(m)
    ensures !FollowedWell(before, m)
  {
    hide FollowedWell;
    match m {
      case SlotMsg(_, _) => before := [SlotMsg(Some("EMPTY"), Some("EMPTY"))]; UnfollowedSlot(m);
      case DistanceMsg(_, _) => before := [DistanceMsg(Some(1), Some(1))]; UnfollowedDistance(m);
      case Broken(topic, problem) => before := []; UnfollowedEvent(m, EventRow(topic, Some(problem), Some("json_decode_error")));
      case Other(topic) => before := []; UnfollowedEvent(m, EventRow(topic, Some("unknown_topic"), Some("unsupported_topic")));
    }
  }

  lemma UnfollowedSlot(m: Message)
    requires m == SlotMsg(None, None)
    ensures !FollowedWell([SlotMsg(Some("EMPTY"), Some("EMPTY"))], m)
  {
    hide LatestSlotState, LatestSlotDistance;
    var first := SlotMsg(Some("EMPTY"), Some("EMPTY"));
    OneThenOther(first, m);
    SlotRowsOneMore([], SlotRow(Some("EMPTY"), Some("EMPTY"), None, None));
    SlotRowsOneMore(LogOf([first]).slots, SlotRow(None, None, None, None));
    assert Show(Opened(LogOf([first] + [m]))).free == Some(2);
  }

  lemma UnfollowedDistance(m: Message)
    requires m == DistanceMsg(None, None)
    ensures !FollowedWell([DistanceMsg(Some(1), Some(1))], m)
  {
    hide LatestSlotState, LatestSlotDistance;
    var first := DistanceMsg(Some(1), Some(1));
    OneThenOther(first, m);
    SlotRowsOneMore([], SlotRow(None, None, Some(1), Some(1)));
    SlotRowsOneMore(LogOf([first]).slots, SlotRow(None, None, None, None));
    assert Show(Opened(LogOf([first] + [m]))).distance1 == Some(1);
  }

  lemma UnfollowedEvent(m: Message, e: EventRow)
    requires m.Broken? || m.Other?
    requires Record(EMPTY_LOG, m) == EMPTY_LOG.(events := [e])
    ensures !FollowedWell([], m)
  {
    hide RecentEvents;
    assert LogOf([] + [m]) == Record(EMPTY_LOG, m) by {
      assert ([] + [m])[..0] == [];
    }
    OneEventOnly(e);
    assert RecentEvents([], EVENT_LIMIT) == [] by { NoEvents(); }
    assert |Show(Opened(LogOf([] + [m]))).events| == 1;
  }

  lemma NoEvents()
    ensures RecentEvents([], EVENT_LIMIT) == []
  {
  }

  lemma OneThenOther(first: Message, m: Message)
    ensures LogOf([first]) == Record(EMPTY_LOG, first)
    ensures LogOf([first] + [m]) == Record(LogOf([first]), m)
  {
    hide Record;
    assert [first][..0] == [];
    assert ([first] + [m])[..1] == [first];
  }

  lemma OneEventOnly(e: EventRow)
    ensures RecentEvents([e], EVENT_LIMIT) == [e]
  {
    RecentWithOneMore([], e, EVENT_LIMIT);
    assert [] + [e] == [e];
  }

  // ---- What the page shows, from the messages alone ---------------------------------

  /** Message k says something about a slot, and no slot message after it does. */
  ghost predicate LastSlots(ms: seq<Message>, k: nat) {
    k < |ms| && SaysSlots(ms[k]) && forall j :: k < j < |ms| ==> !SaysSlots(ms[j])
  }

  predicate SaysSlots(m: Message) { m.SlotMsg? && (m.slot1.Some? || m.slot2.Some?) }

  ghost predicate LastDistances(ms: seq<Message>, k: nat) {
    k < |ms| && SaysDistances(ms[k]) && forall j :: k < j < |ms| ==> !SaysDistances(ms[j])
  }

  predicate SaysDistances(m: Message) { m.DistanceMsg? && (m.distance1.Some? || m.distance2.Some?) }

  ghost predicate LastLot(ms: seq<Message>, k: nat) {
    k < |ms| && ms[k].LotMsg? && forall j :: k < j < |ms| ==> !ms[j].LotMsg?
  }

  ghost predicate LastGate(ms: seq<Message>, k: nat) {
    k < |ms| && ms[k].GateMsg? && forall j :: k < j < |ms| ==> !ms[j].GateMsg?
  }

  /** The event rows of the stream, oldest first: events, payloads that are not JSON, and
      messages on topics nobody knows. */
  function EventRows(ms: seq<Message>): seq<EventRow> {
    if ms == [] then []
    else
      EventRows(ms[..|ms| - 1]) +
      match ms[|ms| - 1]
      case EventMsg(e, r) => [EventRow("parking/rpi2/event", e, r)]
      case Broken(topic, problem) => [EventRow(topic, Some(problem), Some("json_decode_error"))]
      case Other(topic) => [EventRow(topic, Some("unknown_topic"), Some("unsupported_topic"))]
      case _ => []
  }

  /** A text as it is shown, with something in place of one that is missing or empty. */
  function Or(t: Option<string>, missing: string): string {
    match t
    case None => missing
    case Some(text) => if text == "" then missing else text
  }

  function Empties(a: Option<string>, b: Option<string>): nat {
    (if a == Some("EMPTY") then 1 else 0) + (if b == Some("EMPTY") then 1 else 0)
  }

  /** Slots and distances shown are those of the last message that says something about
      them, with the number of EMPTY slots. */
  ghost predicate SlotsShown(ms: seq<Message>, s: Screen) {
    && (forall k: nat :: LastSlots(ms, k) ==>
          var a, b := ms[k].slot1, ms[k].slot2;
          && s.slot1 == Or(a, "UNKNOWN") && s.slot2 == Or(b, "UNKNOWN")
          && s.free == if Or(a, "") == "" && Or(b, "") == "" then None else Some(Empties(a, b)))
    && ((forall k: nat :: !LastSlots(ms, k)) ==> s.slot1 == "UNKNOWN" && s.slot2 == "UNKNOWN" && s.free == Some(0))
  }

  ghost predicate DistancesShown(ms: seq<Message>, s: Screen) {
    && (forall k: nat :: LastDistances(ms, k) ==> s.distance1 == ms[k].distance1 && s.distance2 == ms[k].distance2)
    && ((forall k: nat :: !LastDistances(ms, k)) ==> s.distance1 == None && s.distance2 == None)
  }

  /** Lot and gate shown are those of the last message on their topic. */
  ghost predicate LotAndGateShown(ms: seq<Message>, s: Screen) {
    && (forall k: nat :: LastLot(ms, k) ==> s.lot == Or(Some(ms[k].lot), "UNKNOWN"))
    && ((forall k: nat :: !LastLot(ms, k)) ==> s.lot == "UNKNOWN")
    && (forall k: nat :: LastGate(ms, k) ==> s.gate == Or(Some(ms[k].gate), "UNKNOWN"))
    && ((forall k: nat :: !LastGate(ms, k)) ==> s.gate == "UNKNOWN")
  }

  /** The event lines are those of the last ten rows, newest first; the fields of the last
      event are those of the newest. */
  ghost predicate EventsShown(ms: seq<Message>, s: Screen) {
    var rows := EventRows(ms);
    && |s.events| == (if |rows| < 10 then |rows| else 10)
    && (forall i :: 0 <= i < |s.events| ==>
          var r := rows[|rows| - 1 - i]; s.events[i] == (Or(r.eventType, "unknown_event"), Or(r.reason, ""), r.topic))
    && s.lastEvent == if rows == [] then None
                      else Some((Or(rows[|rows| - 1].eventType, "UNKNOWN"), Or(rows[|rows| - 1].reason, "-")))
  }

  ghost predicate Shows(ms: seq<Message>, s: Screen) {
    SlotsShown(ms, s) && DistancesShown(ms, s) && LotAndGateShown(ms, s) && EventsShown(ms, s)
  }

  function Rows(log: Log): nat { |log.slots| + |log.lots| + |log.gates| + |log.events| }

  /** The log only ever grows, by one row for each message that is not a heartbeat. */
  lemma LogOnlyGrows(log: Log, m: Message)
    ensures var log' := Record(log, m);
            && log.slots <= log'.slots && log.lots <= log'.lots && log.gates <= log'.gates && log.events <= log'.events
            && Rows(log') == Rows(log) + if m == Heartbeat then 0 else 1
  {
  }

  lemma {:induction false} LoggedEvents(ms: seq<Message>)
    ensures LogOf(ms).events == EventRows(ms)
  {
    if ms != [] {
      LoggedEvents(ms[..|ms| - 1]);
    }
  }

  /** What logging one message does to the newest rows. */
  lemma NewestRowsAfter(log: Log, m: Message)
    ensures LatestSlotState(Record(log, m).slots)
            == if SaysSlots(m) then Some(SlotRow(m.slot1, m.slot2, None, None)) else LatestSlotState(log.slots)
    ensures LatestSlotDistance(Record(log, m).slots)
            == if SaysDistances(m) then Some(SlotRow(None, None, m.distance1, m.distance2)) else LatestSlotDistance(log.slots)
  {
    hide LatestSlotState, LatestSlotDistance;
    if m.SlotMsg? {
      SlotRowsOneMore(log.slots, SlotRow(m.slot1, m.slot2, None, None));
    } else if m.DistanceMsg? {
      SlotRowsOneMore(log.slots, SlotRow(None, None, m.distance1, m.distance2));
    }
  }

  lemma NothingLogged()
    ensures LatestSlotState(LogOf([]).slots) == None && LatestSlotDistance(LogOf([]).slots) == None
  {
  }

  lemma LogOneMore(ms: seq<Message>)
    requires ms != []
    ensures LogOf(ms) == Record(LogOf(ms[..|ms| - 1]), ms[|ms| - 1])
  {
  }

  /** The newest row with a slot state is that of the last message that has one. */
  lemma {:induction false} LoggedSlots(ms: seq<Message>)
    ensures forall k: nat :: LastSlots(ms, k) ==>
              LatestSlotState(LogOf(ms).slots) == Some(SlotRow(ms[k].slot1, ms[k].slot2, None, None))
    ensures (forall k: nat :: !LastSlots(ms, k)) ==> LatestSlotState(LogOf(ms).slots) == None
  {
    hide LatestSlotState, LatestSlotDistance, LogOf, Record, SaysSlots;
    if ms == [] {
      NothingLogged();
    } else {
      var n := |ms| - 1;
      LoggedSlots(ms[..n]);
      LogOneMore(ms);
      NewestRowsAfter(LogOf(ms[..n]), ms[n]);
      if SaysSlots(ms[n]) {
        assert LastSlots(ms, n);
      } else {
        assert forall k: nat :: LastSlots(ms, k) <==> LastSlots(ms[..n], k);
      }
    }
  }

  lemma {:induction false} LoggedDistances(ms: seq<Message>)
    ensures forall k: nat :: LastDistances(ms, k) ==>
              LatestSlotDistance(LogOf(ms).slots) == Some(SlotRow(None, None, ms[k].distance1, ms[k].distance2))
    ensures (forall k: nat :: !LastDistances(ms, k)) ==> LatestSlotDistance(LogOf(ms).slots) == None
  {
    hide LatestSlotState, LatestSlotDistance, LogOf, Record, SaysDistances;
    if ms == [] {
      NothingLogged();
    } else {
      var n := |ms| - 1;
      LoggedDistances(ms[..n]);
      LogOneMore(ms);
      NewestRowsAfter(LogOf(ms[..n]), ms[n]);
      if SaysDistances(ms[n]) {
        assert LastDistances(ms, n);
      } else {
        assert forall k: nat :: LastDistances(ms, k) <==> LastDistances(ms[..n], k);
      }
    }
  }

  lemma {:induction false} LoggedLot(ms: seq<Message>)
    ensures forall k: nat :: LastLot(ms, k) ==> Latest(LogOf(ms).lots) == ms[k].lot
    ensures (forall k: nat :: !LastLot(ms, k)) ==> LogOf(ms).lots == []
  {
    if ms != [] {
      var n := |ms| - 1;
      var before := ms[..n];
      LoggedLot(before);
      if ms[n].LotMsg? {
        assert LastLot(ms, n);
      } else {
        assert forall k: nat :: LastLot(ms, k) <==> LastLot(before, k);
      }
    }
  }

  lemma {:induction false} LoggedGate(ms: seq<Message>)
    ensures forall k: nat :: LastGate(ms, k) ==> Latest(LogOf(ms).gates) == ms[k].gate
    ensures (forall k: nat :: !LastGate(ms, k)) ==> LogOf(ms).gates == []
  {
    if ms != [] {
      var n := |ms| - 1;
      var before := ms[..n];
      LoggedGate(before);
      if ms[n].GateMsg? {
        assert LastGate(ms, n);
      } else {
        assert forall k: nat :: LastGate(ms, k) <==> LastGate(before, k);
      }
    }
  }

  lemma SlotsOnScreen(ms: seq<Message>)
    ensures SlotsShown(ms, Show(Opened(LogOf(ms)))) && DistancesShown(ms, Show(Opened(LogOf(ms))))
  {
    hide LatestSlotState, LatestSlotDistance, LogOf, RecentEvents, LastSlots, LastDistances;
    LoggedSlots(ms);
    LoggedDistances(ms);
  }

  lemma LotAndGateOnScreen(ms: seq<Message>)
    ensures LotAndGateShown(ms, Show(Opened(LogOf(ms))))
  {
    hide LatestSlotState, LatestSlotDistance, LogOf, RecentEvents, LastLot, LastGate;
    LoggedLot(ms);
    LoggedGate(ms);
  }

  lemma OpenedEvents(log: Log)
    ensures var p, es := Opened(log), RecentEvents(log.events, EVENT_LIMIT);
            p.events == es && p.lastEvent == if es == [] then None else EventFields(es[0].eventType, es[0].reason)
  {
    hide RecentEvents, LatestSlotState, LatestSlotDistance;
  }

  lemma LinesOf(p: Page)
    ensures var s := Show(p);
            && |s.events| == |p.events| && s.lastEvent == p.lastEvent
            && forall i :: 0 <= i < |p.events| ==>
                 s.events[i] == (Or(p.events[i].eventType, "unknown_event"), Or(p.events[i].reason, ""), p.events[i].topic)
  {
  }

  lemma FieldsOf(eventType: Option<string>, reason: Option<string>)
    ensures EventFields(eventType, reason) == Some((Or(eventType, "UNKNOWN"), Or(reason, "-")))
  {
  }

  lemma EventsOnScreen(ms: seq<Message>)
    ensures EventsShown(ms, Show(Opened(LogOf(ms))))
  {
    hide LogOf, RecentEvents, EventRows, Show, Opened, EventFields, Or;
    LoggedEvents(ms);
    var rows := EventRows(ms);
    RecentAreNewest(rows, EVENT_LIMIT);
    OpenedEvents(LogOf(ms));
    LinesOf(Opened(LogOf(ms)));
    if rows != [] {
      FieldsOf(rows[|rows| - 1].eventType, rows[|rows| - 1].reason);
    }
  }

  /** A page opened on a stream shows what its messages say. */
  lemma ShowsTheStream(ms: seq<Message>)
    ensures Shows(ms, Show(Opened(LogOf(ms))))
  {
    hide Show, Opened, LogOf, SlotsShown, DistancesShown, LotAndGateShown, EventsShown;
    SlotsOnScreen(ms);
    LotAndGateOnScreen(ms);
    EventsOnScreen(ms);
  }

  /** A snapshot that lacks a lot or gate state leaves the one on the page. */
  lemma ApplyKeepsWhatIsUntold(p: Page, s: Snapshot)
    ensures Show(Apply(p, s)).lot == if s.lot == "" then Show(p).lot else s.lot
    ensures Show(Apply(p, s)).gate == if s.gate == "" then Show(p).gate else s.gate
    ensures s.events == [] ==> Apply(p, s).lastEvent == p.lastEvent
  {
  }

  /** Snapshot plus live suffix equals full snapshot, and both are right: wherever the page
      was opened in the stream, it shows what a page opened at the end would show, which
      is what the messages say, if what it followed live was well formed; the part before
      may be anything. */
  lemma SnapshotPlusLive(before: seq<Message>, after: seq<Message>)
    requires forall m :: m in after ==> WellFormed(m)
    ensures Show(FollowAll(Opened(LogOf(before)), after)) == Show(Opened(LogOf(before + after)))
    ensures Shows(before + after, Show(FollowAll(Opened(LogOf(before)), after)))
  {
    hide Show, Opened, Shows;
    FollowingStaysAlike(before, after);
    AlikeShowTheSame(FollowAll(Opened(LogOf(before)), after), Opened(LogOf(before + after)));
    ShowsTheStream(before + after);
  }

  // ---- The programs -----------------------------------------------------------------

  /** The tables of the server's database. */
  class Database {
    var slotLog: seq<SlotRow>
    var lotLog: seq<string>
    var gateLog: seq<string>
    var eventLog: seq<EventRow>

    ghost function View(): Log
      reads this
    {
      Log(slotLog, lotLog, gateLog, eventLog)
    }

    constructor ()
      ensures View() == EMPTY_LOG
    {
      slotLog, lotLog, gateLog, eventLog := [], [], [], [];
    }

    method InsertSlotLog(slot1: Option<string>, slot2: Option<string>, distance1: Option<int>, distance2: Option<int>)
      modifies `slotLog
      ensures slotLog == old(slotLog) + [SlotRow(slot1, slot2, distance1, distance2)]
    {
      slotLog := slotLog + [SlotRow(slot1, slot2, distance1, distance2)];
    }

    method InsertEventLog(topic: string, eventType: Option<string>, reason: Option<string>)
      modifies `eventLog
      ensures eventLog == old(eventLog) + [EventRow(topic, eventType, reason)]
    {
      eventLog := eventLog + [EventRow(topic, eventType, reason)];
    }

    /** handle_message. */
    method HandleMessage(m: Message)
      modifies this
      ensures View() == Record(old(View()), m)
      ensures old(slotLog) <= slotLog && old(lotLog) <= lotLog && old(gateLog) <= gateLog && old(eventLog) <= eventLog
      ensures Rows(View()) == old(Rows(View())) + if m == Heartbeat then 0 else 1
    {
      match m {
        case SlotMsg(s1, s2) => InsertSlotLog(s1, s2, None, None);
        case DistanceMsg(d1, d2) => InsertSlotLog(None, None, d1, d2);
        case LotMsg(text) => lotLog := lotLog + [text];
        case GateMsg(text) => gateLog := gateLog + [text];
        case EventMsg(e, r) => InsertEventLog(EVENT_TOPIC, e, r);
        case Heartbeat =>
        case Broken(topic, problem) => InsertEventLog(topic, Some(problem), Some("json_decode_error"));
        case Other(topic) => InsertEventLog(topic, Some("unknown_topic"), Some("unsupported_topic"));
      }
    }

    /** get_dashboard_state: states and distances each from the newest row that has any,
        though both kinds of row share a table; the newest ten events, newest first. */
    method GetDashboardState() returns (s: Snapshot)
      ensures s == SnapshotOf(View())
      ensures forall k: nat :: NewestState(slotLog, k) ==> s.slot1 == slotLog[k].slot1 && s.slot2 == slotLog[k].slot2
      ensures (forall k: nat :: !NewestState(slotLog, k)) ==> s.slot1 == s.slot2 == Some("UNKNOWN")
      ensures forall k: nat :: NewestDistance(slotLog, k) ==> s.distance1 == slotLog[k].distance1 && s.distance2 == slotLog[k].distance2
      ensures (forall k: nat :: !NewestDistance(slotLog, k)) ==> s.distance1 == s.distance2 == None
      ensures s.lot == if lotLog == [] then "UNKNOWN" else lotLog[|lotLog| - 1]
      ensures s.gate == if gateLog == [] then "UNKNOWN" else gateLog[|gateLog| - 1]
      ensures |s.events| == if |eventLog| < EVENT_LIMIT then |eventLog| else EVENT_LIMIT
      ensures forall i :: 0 <= i < |s.events| ==> s.events[i] == eventLog[|eventLog| - 1 - i]
    {
      hide LatestSlotState, LatestSlotDistance, RecentEvents, NewestState, NewestDistance;
      LatestStateIsNewest(slotLog);
      LatestDistanceIsNewest(slotLog);
      RecentAreNewest(eventLog, EVENT_LIMIT);
      s := SnapshotOf(Log(slotLog, lotLog, gateLog, eventLog));
    }
  }

  /** The globals of the page's script. */
  class Browser {
    var page: Page

    constructor ()
      ensures page == BLANK
    {
      page := BLANK;
    }

    /** Newest first, and no more than ten; what falls out is the oldest. */
    method AppendEvent(e: EventRow)
      modifies this
      ensures page == old(page).(events := page.events)
      ensures page.events == Prepend(e, old(page).events)
      ensures page.events[0] == e && |page.events| <= EVENT_LIMIT
      ensures |page.events| == EVENT_LIMIT || |page.events| == |old(page).events| + 1
      ensures forall i :: 1 <= i < |page.events| ==> page.events[i] == old(page).events[i - 1]
    {
      var all := [e] + page.events;
      page := page.(events := if |all| > EVENT_LIMIT then all[..EVENT_LIMIT] else all);
    }

    method ApplyState(s: Snapshot)
      modifies this
      ensures page == Apply(old(page), s)
    {
      page := page.(slot1 := s.slot1, slot2 := s.slot2, distance1 := s.distance1, distance2 := s.distance2,
                    lot := if s.lot != "" then Some(s.lot) else page.lot,
                    gate := if s.gate != "" then Some(s.gate) else page.gate);
      page := page.(events := s.events);
      if s.events != [] {
        page := page.(lastEvent := EventFields(s.events[0].eventType, s.events[0].reason));
      }
    }

    method HandleMqttMessage(m: Message)
      modifies this
      ensures page == Follow(old(page), m)
    {
      match m {
        case SlotMsg(s1, s2) => page := page.(slot1 := s1, slot2 := s2);
        case DistanceMsg(d1, d2) => page := page.(distance1 := d1, distance2 := d2);
        case LotMsg(text) => page := page.(lot := Some(text));
        case GateMsg(text) => page := page.(gate := Some(text));
        case EventMsg(e, r) =>
          page := page.(lastEvent := EventFields(e, r));
          AppendEvent(EventRow(EVENT_TOPIC, e, r));
        case _ =>
      }
    }
  }

  /** A server that logs a stream and a page opened part-way through it. */
  method Watch(before: seq<Message>, after: seq<Message>) returns (shown: Screen)
    requires forall m :: m in after ==> WellFormed(m)
    ensures shown == Show(Opened(LogOf(before + after)))
    ensures Shows(before + after, shown)
  {
    hide Shows, Show;
    var db := new Database();
    for i := 0 to |before|
      invariant fresh(db) && db.View() == LogOf(before[..i])
    {
      assert before[..i + 1][..i] == before[..i];
      db.HandleMessage(before[i]);
    }
    assert before[..|before|] == before;
    var browser := new Browser();
    var snapshot := db.GetDashboardState();
    browser.ApplyState(snapshot);
    for i := 0 to |after|
      invariant fresh(browser) && browser.page == FollowAll(Opened(LogOf(before)), after[..i])
    {
      assert after[..i + 1][..i] == after[..i];
      browser.HandleMqttMessage(after[i]);
    }
    assert after[..|after|] == after;
    SnapshotPlusLive(before, after);
    shown := Show(browser.page);
  }
}
