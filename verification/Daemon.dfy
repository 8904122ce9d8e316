/** The RPI1 daemon: it reads status lines from the driver and publishes the state of the
    slots, their distances and the state of the lot. */
module Daemon {
  import opened Options
  import opened StatusText

  const TOPIC_SLOT := "parking/rpi1/slot"
  const TOPIC_DISTANCE := "parking/rpi1/distance"
  const TOPIC_LOT := "parking/rpi1/lot"

  /** The daemon's buffer takes this many bytes of a line. */
  const READ_SIZE := 63

  datatype Publication = Publication(topic: string, payload: string)

  function SlotName(occupied: int): string { if occupied != 0 then "OCCUPIED" else "EMPTY" }

  function LotText(s: Status): string { if s.slot1 != 0 && s.slot2 != 0 then "FULL" else "AVAILABLE" }

  /** The three messages of one status. */
  function Messages(s: Status): seq<Publication> {
    [Publication(TOPIC_SLOT, "{\"slot1\":\"" + SlotName(s.slot1) + "\",\"slot2\":\"" + SlotName(s.slot2) + "\"}"),
     Publication(TOPIC_DISTANCE, "{\"slot1\":" + Decimal(s.distance1) + ",\"slot2\":" + Decimal(s.distance2) + ",\"unit\":\"cm\"}"),
     Publication(TOPIC_LOT, LotText(s))]
  }

  // ---- What the messages tell -------------------------------------------------------

  /** The text up to the next quotation mark, and what follows it. */
  function ScanWord(s: string): (string, string) {
    if s == "" || s[0] == '"' then ("", s)
    else
      var (word, rest) := ScanWord(s[1..]);
      ([s[0]] + word, rest)
  }

  function WordField(pattern: string, s: string): Option<(string, string)> {
    match Match(pattern, s)
    case None => None
    case Some(rest) => Some(ScanWord(rest))
  }

  /** A reader of the slot message. */
  function ReadSlots(payload: string): Option<(string, string)> {
    match WordField("{\"slot1\":\"", payload)
    case None => None
    case Some((w1, r1)) =>
      match WordField("\",\"slot2\":\"", r1)
      case None => None
      case Some((w2, _)) => Some((w1, w2))
  }

  /** A reader of the distance message. */
  function ReadDistances(payload: string): Option<(int, int)> {
    match Field("{\"slot1\":", payload)
    case None => None
    case Some((d1, r1)) =>
      match Field(",\"slot2\":", r1)
      case None => None
      case Some((d2, _)) => Some((d1, d2))
  }

  /** Three messages tell a status: which slots are taken, both distances, whether the lot is
      full, each on its topic. */
  predicate Tells(ms: seq<Publication>, s: Status) {
    && |ms| == 3
    && ms[0].topic == "parking/rpi1/slot" && ms[1].topic == "parking/rpi1/distance" && ms[2].topic == "parking/rpi1/lot"
    && ReadSlots(ms[0].payload) == Some((if s.slot1 == 0 then "EMPTY" else "OCCUPIED", if s.slot2 == 0 then "EMPTY" else "OCCUPIED"))
    && ReadDistances(ms[1].payload) == Some((s.distance1, s.distance2))
    && ms[2].payload == if s.slot1 == 0 || s.slot2 == 0 then "AVAILABLE" else "FULL"
  }

  lemma {:induction false} WordRoundTrip(word: string, rest: string)
    requires '"' !in word && rest != "" && rest[0] == '"'
    ensures ScanWord(word + rest) == (word, rest)
  {
    if word == "" {
      assert word + rest == rest;
    } else {
      assert (word + rest)[1..] == word[1..] + rest;
      WordRoundTrip(word[1..], rest);
      assert word == [word[0]] + word[1..];
    }
  }

  lemma WordFieldRoundTrip(pattern: string, word: string, rest: string)
    requires forall i :: 0 <= i < |pattern| ==> !IsSpace(pattern[i])
    requires '"' !in word && rest != "" && rest[0] == '"'
    ensures WordField(pattern, pattern + word + rest) == Some((word, rest))
  {
    hide Match, ScanWord;
    assert pattern + word + rest == pattern + (word + rest);
    MatchOwnText(pattern, word + rest);
    WordRoundTrip(word, rest);
  }

  lemma SlotsAreTold(w1: string, w2: string)
    requires '"' !in w1 && '"' !in w2
    ensures ReadSlots("{\"slot1\":\"" + w1 + "\",\"slot2\":\"" + w2 + "\"}") == Some((w1, w2))
  {
    hide WordField;
    var r2 := "\"}";
    var r1 := "\",\"slot2\":\"" + w2 + r2;
    WordFieldRoundTrip("{\"slot1\":\"", w1, r1);
    WordFieldRoundTrip("\",\"slot2\":\"", w2, r2);
    assert "{\"slot1\":\"" + w1 + "\",\"slot2\":\"" + w2 + "\"}" == "{\"slot1\":\"" + w1 + r1;
  }

  lemma DistancesAreTold(d1: int, d2: int)
    ensures ReadDistances("{\"slot1\":" + Decimal(d1) + ",\"slot2\":" + Decimal(d2) + ",\"unit\":\"cm\"}") == Some((d1, d2))
  {
    hide Field, Decimal;
    var r2 := ",\"unit\":\"cm\"}";
    var r1 := ",\"slot2\":" + Decimal(d2) + r2;
    FieldRoundTrip("{\"slot1\":", d1, r1);
    FieldRoundTrip(",\"slot2\":", d2, r2);
    assert "{\"slot1\":" + Decimal(d1) + ",\"slot2\":" + Decimal(d2) + ",\"unit\":\"cm\"}" == "{\"slot1\":" + Decimal(d1) + r1;
  }

  /** The messages of a status tell it. */
  lemma MessagesTell(s: Status)
    ensures Tells(Messages(s), s)
  {
    hide ReadSlots, ReadDistances, Decimal;
    SlotsAreTold(SlotName(s.slot1), SlotName(s.slot2));
    DistancesAreTold(s.distance1, s.distance2);
  }

  // ---- The loop ---------------------------------------------------------------------

  /** What one line leads to; a line the pattern does not fit is skipped. */
  function MessagesFor(line: string): seq<Publication> {
    match Parse(line)
    case None => []
    case Some(s) => Messages(s)
  }

  /** What a list of reads leads to; a failed read ends the loop. */
  function AllMessages(inputs: seq<Option<string>>): seq<Publication> {
    if inputs == [] || inputs[0].None? then [] else MessagesFor(inputs[0].value) + AllMessages(inputs[1..])
  }

  /** Parses one line and publishes its messages. */
  method Publish(line: string) returns (published: seq<Publication>)
    ensures published == MessagesFor(line)
  {
    match Parse(line) {
      case None => published := [];
      case Some(s) => published := Messages(s);
    }
  }

  /** The daemon's loop over the results of its reads. */
  method Loop(inputs: seq<Option<string>>) returns (published: seq<Publication>)
    ensures published == AllMessages(inputs)
    ensures forall ss :: inputs == Lines(ss) ==> TellsAll(published, ss)
  {
    hide MessagesFor, Tells, Print;
    published := [];
    for i := 0 to |inputs|
      invariant published + AllMessages(inputs[i..]) == AllMessages(inputs)
    {
      ghost var rest := inputs[i..];
      assert rest[0] == inputs[i] && rest[1..] == inputs[i + 1..];
      if inputs[i].None? {
        assert AllMessages(rest) == [];
        NoneFailed(inputs, i);
        return;
      }
      var ms := Publish(inputs[i].value);
      assert published + (ms + AllMessages(rest[1..])) == published + ms + AllMessages(rest[1..]);
      published := published + ms;
    }
    assert inputs[|inputs|..] == [];
    assert published == AllMessages(inputs);
    forall ss | inputs == Lines(ss) ensures TellsAll(published, ss) {
      PublishesEveryStatus(ss);
    }
  }

  function Lines(ss: seq<Status>): seq<Option<string>> {
    if ss == [] then [] else [Some(Print(ss[0]))] + Lines(ss[1..])
  }

  function MessagesOf(ss: seq<Status>): seq<Publication> {
    if ss == [] then [] else Messages(ss[0]) + MessagesOf(ss[1..])
  }

  /** Three messages for each status, in order, that tell it. */
  predicate TellsAll(ms: seq<Publication>, ss: seq<Status>) {
    if ss == [] then ms == [] else |ms| >= 3 && Tells(ms[..3], ss[0]) && TellsAll(ms[3..], ss[1..])
  }

  lemma {:induction false} NoneFailed(inputs: seq<Option<string>>, i: nat)
    requires i < |inputs| && inputs[i].None?
    ensures forall ss :: inputs != Lines(ss)
  {
    forall ss ensures inputs != Lines(ss) {
      LinesAreThere(ss);
    }
  }

  lemma {:induction false} LinesAreThere(ss: seq<Status>)
    ensures |Lines(ss)| == |ss| && forall i :: 0 <= i < |ss| ==> Lines(ss)[i] == Some(Print(ss[i]))
  {
    hide Print;
    if ss != [] {
      LinesAreThere(ss[1..]);
    }
  }

  /** Whatever statuses the driver printed, the daemon publishes exactly three messages for
      each, in order, that tell it: none is skipped and none is changed on the way through
      the text. */
  lemma {:induction false} PublishesEveryStatus(ss: seq<Status>)
    ensures AllMessages(Lines(ss)) == MessagesOf(ss)
    ensures TellsAll(AllMessages(Lines(ss)), ss)
  {
    hide Parse, Print, Tells, SlotName, LotText;
    if ss != [] {
      RoundTrip(ss[0]);
      MessagesTell(ss[0]);
      PublishesEveryStatus(ss[1..]);
      assert Lines(ss)[1..] == Lines(ss[1..]);
      var ms := Messages(ss[0]) + MessagesOf(ss[1..]);
      assert ms[..3] == Messages(ss[0]) && ms[3..] == MessagesOf(ss[1..]);
    }
  }

  /** A failed read ends the loop, whatever would come after it. */
  lemma {:induction false} FailureStops(before: seq<Option<string>>, after: seq<Option<string>>)
    requires None !in before
    ensures AllMessages(before + [None] + after) == AllMessages(before)
  {
    hide MessagesFor;
    var all := before + [None] + after;
    if before == [] {
      assert all[0] == None;
    } else {
      FailureStops(before[1..], after);
      assert all[0] == before[0] && all[1..] == before[1..] + [None] + after;
    }
  }

  lemma BadLineIsNothing(bad: string)
    requires Parse(bad) == None
    ensures MessagesFor(bad) == []
  {
  }

  /** A line that does not fit the pattern counts for nothing. */
  lemma {:induction false} BadLineSkipped(before: seq<Option<string>>, bad: string, after: seq<Option<string>>)
    requires Parse(bad) == None && None !in before
    ensures AllMessages(before + [Some(bad)] + after) == AllMessages(before + after)
  {
    hide MessagesFor, Parse;
    var all := before + [Some(bad)] + after;
    if before == [] {
      BadLineIsNothing(bad);
      assert all[0] == Some(bad) && all[1..] == after && before + after == after;
      assert [] + AllMessages(after) == AllMessages(after);
    } else {
      BadLineSkipped(before[1..], bad, after);
      assert all[0] == before[0] && all[1..] == before[1..] + [Some(bad)] + after;
      assert (before + after)[0] == before[0] && (before + after)[1..] == before[1..] + after;
    }
  }
}
