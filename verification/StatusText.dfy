/** The status line between the RPI1 driver and its daemon: what parking_read prints and
    what the daemon's sscanf pattern reads back. */
module StatusText {

  import opened Options

  datatype Status = Status(slot1: int, slot2: int, distance1: int, distance2: int)

  // ---- Printing ---------------------------------------------------------------------

  predicate IsDigit(c: char) { '0' <= c <= '9' }

  function DigitChar(d: nat): char
    requires d < 10
  {
    '0' + d as char
  }

  function Digits(n: nat): string {
    if n < 10 then [DigitChar(n)] else Digits(n / 10) + [DigitChar(n % 10)]
  }

  /** %d of printf. */
  function Decimal(n: int): string { if n < 0 then "-" + Digits(-n) else Digits(n) }

  function Print(s: Status): string {
    "Slot1:" + Decimal(s.slot1) + " Slot2:" + Decimal(s.slot2) +
    "\nDistance1:" + Decimal(s.distance1) + " Distance2:" + Decimal(s.distance2) + "\n"
  }

  // ---- Scanning ---------------------------------------------------------------------

  predicate IsSpace(c: char) { c == ' ' || c == '\t' || c == '\n' || c == '\r' || c == 11 as char || c == 12 as char }

  function SkipSpace(s: string): string {
    if s != "" && IsSpace(s[0]) then SkipSpace(s[1..]) else s
  }

  /** An ordinary character of the pattern has to be there; white space in the pattern
      stands for any amount of it. */
  function Match(pattern: string, s: string): Option<string> {
    if pattern == "" then Some(s)
    else if IsSpace(pattern[0]) then Match(pattern[1..], SkipSpace(s))
    else if s != "" && s[0] == pattern[0] then Match(pattern[1..], s[1..])
    else None
  }

  function ScanDigits(s: string, value: nat): (nat, string) {
    if s != "" && IsDigit(s[0]) then ScanDigits(s[1..], 10 * value + (s[0] - '0') as nat) else (value, s)
  }

  /** %d of scanf: white space, an optional sign, and at least one digit. */
  function ScanInt(s: string): Option<(int, string)> {
    var s := SkipSpace(s);
    var negative := s != "" && s[0] == '-';
    var body := if negative || (s != "" && s[0] == '+') then s[1..] else s;
    if body == "" || !IsDigit(body[0]) then None
    else
      var (value, rest) := ScanDigits(body, 0);
      var signed: int := value;
      Some((if negative then -signed else signed, rest))
  }

  function Field(pattern: string, s: string): Option<(int, string)> {
    match Match(pattern, s)
    case None => None
    case Some(rest) => ScanInt(rest)
  }

  /** sscanf with "Slot1:%d Slot2:%d\nDistance1:%d Distance2:%d"; anything but four
      conversions is a bad line. */
  function Parse(line: string): Option<Status> {
    match Field("Slot1:", line)
    case None => None
    case Some((s1, r1)) =>
      match Field(" Slot2:", r1)
      case None => None
      case Some((s2, r2)) =>
        match Field("\nDistance1:", r2)
        case None => None
        case Some((d1, r3)) =>
          match Field(" Distance2:", r3)
          case None => None
          case Some((d2, _)) => Some(Status(s1, s2, d1, d2))
  }

  // ---- Round trip -------------------------------------------------------------------

  lemma {:induction false} DigitsAreDigits(n: nat)
    ensures |Digits(n)| > 0 && forall i :: 0 <= i < |Digits(n)| ==> IsDigit(Digits(n)[i])
  {
    if n >= 10 {
      DigitsAreDigits(n / 10);
    }
  }

  lemma {:induction false} ScanPrinted(n: nat, rest: string)
    ensures ScanDigits(Digits(n) + rest, 0) == ScanDigits(rest, n)
  {
    if n < 10 {
      assert (Digits(n) + rest)[1..] == rest;
    } else {
      var last := [DigitChar(n % 10)];
      ScanPrinted(n / 10, last + rest);
      assert Digits(n) + rest == Digits(n / 10) + (last + rest);
      assert (last + rest)[1..] == rest;
      assert 10 * (n / 10) + n % 10 == n;
    }
  }

  predicate EndsNumber(rest: string) { rest == "" || !IsDigit(rest[0]) }

  lemma IntRoundTrip(n: int, rest: string)
    requires EndsNumber(rest)
    ensures ScanInt(Decimal(n) + rest) == Some((n, rest))
  {
    var m: nat := if n < 0 then -n else n;
    DigitsAreDigits(m);
    ScanPrinted(m, rest);
    var s := Decimal(n) + rest;
    assert SkipSpace(s) == s;
    if n < 0 {
      assert s[1..] == Digits(m) + rest;
    }
  }

  lemma {:induction false} MatchOwnText(pattern: string, rest: string)
    requires forall i :: 0 <= i < |pattern| ==> !IsSpace(pattern[i])
    ensures Match(pattern, pattern + rest) == Some(rest)
  {
    if pattern == "" {
      assert pattern + rest == rest;
    } else {
      assert (pattern + rest)[1..] == pattern[1..] + rest;
      MatchOwnText(pattern[1..], rest);
    }
  }

  /** A word that ends in a mark, with at most one white space in front. */
  predicate Label(pattern: string) {
    && pattern != "" && !IsSpace(pattern[|pattern| - 1])
    && forall i :: 1 <= i < |pattern| ==> !IsSpace(pattern[i])
  }

  /** A field printed as written in the pattern. */
  lemma FieldRoundTrip(pattern: string, n: int, rest: string)
    requires Label(pattern) && EndsNumber(rest)
    ensures Field(pattern, pattern + Decimal(n) + rest) == Some((n, rest))
  {
    var text := Decimal(n) + rest;
    var s := pattern + text;
    assert s == pattern + Decimal(n) + rest;
    if IsSpace(pattern[0]) {
      var word := pattern[1..];
      assert s[1..] == word + text;
      assert s[1..] != "" && s[1] == word[0];
      assert SkipSpace(s) == s[1..];
      MatchOwnText(word, text);
    } else {
      MatchOwnText(pattern, text);
    }
    IntRoundTrip(n, rest);
  }

  lemma Labels()
    ensures Label("Slot1:") && Label(" Slot2:") && Label("\nDistance1:") && Label(" Distance2:")
  {
  }

  lemma LabelEndsNumber(pattern: string, rest: string)
    requires pattern != "" && !IsDigit(pattern[0])
    ensures EndsNumber(pattern + rest)
  {
  }

  /** Whatever the four numbers, the daemon's pattern reads back exactly what the driver
      printed. */
  lemma RoundTrip(s: Status)
    ensures Parse(Print(s)) == Some(s)
  {
    hide Label, Field, Decimal, EndsNumber;
    Labels();
    var r4 := "\n";
    var r3 := " Distance2:" + Decimal(s.distance2) + r4;
    var r2 := "\nDistance1:" + Decimal(s.distance1) + r3;
    var r1 := " Slot2:" + Decimal(s.slot2) + r2;
    LabelEndsNumber("\n", "");
    assert r4 == "\n" + "";
    LabelEndsNumber(" Distance2:", Decimal(s.distance2) + r4);
    LabelEndsNumber("\nDistance1:", Decimal(s.distance1) + r3);
    LabelEndsNumber(" Slot2:", Decimal(s.slot2) + r2);
    assert r3 == " Distance2:" + (Decimal(s.distance2) + r4);
    assert r2 == "\nDistance1:" + (Decimal(s.distance1) + r3);
    assert r1 == " Slot2:" + (Decimal(s.slot2) + r2);
    FieldRoundTrip("Slot1:", s.slot1, r1);
    FieldRoundTrip(" Slot2:", s.slot2, r2);
    FieldRoundTrip("\nDistance1:", s.distance1, r3);
    FieldRoundTrip(" Distance2:", s.distance2, r4);
    assert Print(s) == "Slot1:" + Decimal(s.slot1) + r1;
  }

  /** The line of a driver in any reachable state is at most 44 bytes long, well within
      the daemon's read of 63: the read never fails after it has cleared the flag. */
  lemma ReachableLineFits(s: Status)
    requires 0 <= s.slot1 <= 1 && 0 <= s.slot2 <= 1
    requires s.distance1 == 999 || 0 <= s.distance1 <= 400
    requires s.distance2 == 999 || 0 <= s.distance2 <= 400
    ensures |Print(s)| <= 44
  {
    ThreeDigits(s.distance1);
    ThreeDigits(s.distance2);
  }

  lemma ThreeDigits(n: nat)
    requires n < 1000
    ensures |Decimal(n)| <= 3
  {
    assert |Digits(n / 10 / 10)| == 1;
    assert |Digits(n / 10)| <= 2;
  }
}
