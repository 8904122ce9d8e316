/** Writing to /dev/gate_node: how the RPI2 driver reads a command out of the bytes it is
    given, and the capacity flag with its LED. */
module GateDevice {

  const DEVICE_BUF_SIZE := 256

  predicate IsBlank(c: char) { c == '\n' || c == ' ' }

  function Trimmed(s: string): string {
    if s != "" && IsBlank(s[|s| - 1]) then Trimmed(s[..|s| - 1]) else s
  }

  /** What the C string functions see of a buffer. */
  function CString(s: string): string {
    if s == "" || s[0] == '\0' then "" else [s[0]] + CString(s[1..])
  }

  function Kept(data: string): string {
    if |data| < DEVICE_BUF_SIZE - 1 then data else data[..DEVICE_BUF_SIZE - 1]
  }

  /** The command in the data of one write. */
  function Command(data: string): string { CString(Trimmed(Kept(data))) }

  datatype Capacity = Capacity(full: bool, led: bool)

  function Obey(c: Capacity, command: string): Capacity {
    if command == "FULL" then Capacity(true, true)
    else if command == "AVAILABLE" then Capacity(false, false)
    else c
  }

  predicate AllBlank(s: string) { forall i :: 0 <= i < |s| ==> IsBlank(s[i]) }

  lemma {:induction false} TrimmedIsPrefix(s: string)
    ensures Trimmed(s) <= s && AllBlank(s[|Trimmed(s)|..])
    ensures Trimmed(s) == "" || !IsBlank(Trimmed(s)[|Trimmed(s)| - 1])
  {
    if s != "" && IsBlank(s[|s| - 1]) {
      TrimmedIsPrefix(s[..|s| - 1]);
      assert forall i :: |Trimmed(s)| <= i < |s| ==> IsBlank(s[i]) by {
        forall i | |Trimmed(s)| <= i < |s| ensures IsBlank(s[i]) {
          if i < |s| - 1 {
            assert s[..|s| - 1][|Trimmed(s)|..][i - |Trimmed(s)|] == s[i];
          }
        }
      }
    }
  }

  lemma {:induction false} CStringIsPrefix(s: string)
    ensures var c := CString(s);
            c <= s && '\0' !in c && (|c| < |s| ==> s[|c|] == '\0')
  {
    if s != "" && s[0] != '\0' {
      CStringIsPrefix(s[1..]);
    }
  }

  lemma {:induction false} CStringStopsAtNul(w: string, rest: string)
    requires '\0' !in w && (rest == "" || rest[0] == '\0')
    ensures CString(w + rest) == w
  {
    if w == "" {
      assert w + rest == rest;
    } else {
      assert (w + rest)[1..] == w[1..] + rest;
      CStringStopsAtNul(w[1..], rest);
    }
  }

  predicate BlankFrom(b: string, n: nat) { forall i :: n <= i < |b| ==> b[i] == ' ' || b[i] == '\n' }

  /** The first 255 bytes of the data are w and then only blanks and newlines, or w and then
      a NUL. */
  predicate ReadsAs(data: string, w: string) {
    var b := if |data| < 255 then data else data[..255];
    w <= b && (BlankFrom(b, |w|) || (|b| > |w| && b[|w|] == '\0'))
  }

  lemma BlankTail(b: string, n: nat)
    requires n <= |b|
    ensures AllBlank(b[n..]) <==> BlankFrom(b, n)
  {
    assert forall i :: n <= i < |b| ==> b[i] == b[n..][i - n];
  }

  /** When exactly the bytes kept are read as w. */
  lemma KeptIs(b: string, w: string)
    requires w != "" && '\0' !in w && !IsBlank(w[|w| - 1])
    ensures CString(Trimmed(b)) == w <==> w <= b && (AllBlank(b[|w|..]) || (|b| > |w| && b[|w|] == '\0'))
  {
    var t := Trimmed(b);
    TrimmedIsPrefix(b);
    CStringIsPrefix(t);
    if CString(t) == w {
      assert w <= t <= b;
      if |w| < |t| {
        assert b[|w|] == t[|w|] == '\0';
      } else {
        assert w == t;
      }
    }
    if w <= b && (AllBlank(b[|w|..]) || (|b| > |w| && b[|w|] == '\0')) {
      assert |t| >= |w|;
      assert t == w + t[|w|..];
      if |t| > |w| {
        assert t[|w|..][0] == b[|w|];
      }
      CStringStopsAtNul(w, t[|w|..]);
    }
  }

  /** When exactly a write is read as the word w. */
  lemma CommandIs(data: string, w: string)
    requires w != "" && '\0' !in w && !IsBlank(w[|w| - 1])
    ensures Command(data) == w <==> ReadsAs(data, w)
  {
    hide CString, Trimmed, AllBlank, IsBlank, BlankFrom;
    var b := Kept(data);
    KeptIs(b, w);
    if w <= b {
      BlankTail(b, |w|);
    }
  }

  /** The flag and the LED of the driver, and its write routine. */
  class Device {
    var capacityFull: bool
    var fullLed: bool

    ghost function View(): Capacity
      reads this
    {
      Capacity(capacityFull, fullLed)
    }

    constructor ()
      ensures View() == Capacity(false, false)
    {
      capacityFull, fullLed := false, false;
    }

    method SetCapacityFull(full: bool)
      modifies this
      ensures View() == Capacity(full, full)
    {
      capacityFull := full;
      if full {
        fullLed := true;
      } else {
        fullLed := false;
      }
    }

    method Execute(command: string)
      modifies this
      ensures View() == Obey(old(View()), command)
    {
      if command == "FULL" {
        SetCapacityFull(true);
      } else if command == "AVAILABLE" {
        SetCapacityFull(false);
      }
    }

    /** gate_device_write. */
    method Write(data: string) returns (written: nat)
      modifies this
      ensures written == |data|
      ensures View() == Obey(old(View()), Command(data))
      ensures ReadsAs(data, "FULL") ==> capacityFull && fullLed
      ensures ReadsAs(data, "AVAILABLE") ==> !capacityFull && !fullLed
      ensures !ReadsAs(data, "FULL") && !ReadsAs(data, "AVAILABLE") ==> View() == old(View())
    {
      hide ReadsAs, Command;
      CommandIs(data, "FULL");
      CommandIs(data, "AVAILABLE");
      var buf := CopyTrimmed(data);
      var word := ReadString(buf);
      Execute(word);
      written := |data|;
    }
  }

  /** Copies the data into the driver's buffer and trims it there, from the end. */
  method CopyTrimmed(data: string) returns (buf: array<char>)
    ensures fresh(buf) && CString(buf[..]) == Command(data)
  {
    buf := new char[DEVICE_BUF_SIZE];
    var copyLen := if |data| < DEVICE_BUF_SIZE - 1 then |data| else DEVICE_BUF_SIZE - 1;
    ghost var kept := Kept(data);
    for i := 0 to copyLen
      invariant forall k :: 0 <= k < i ==> buf[k] == data[k]
    {
      buf[i] := data[i];
    }
    buf[copyLen] := '\0';
    assert kept[..copyLen] == kept;
    while copyLen > 0 && IsBlank(buf[copyLen - 1])
      invariant copyLen <= |kept| < DEVICE_BUF_SIZE
      invariant buf[copyLen] == '\0'
      invariant forall k :: 0 <= k < copyLen ==> buf[k] == kept[k]
      invariant Trimmed(kept[..copyLen]) == Trimmed(kept)
    {
      assert kept[..copyLen][..copyLen - 1] == kept[..copyLen - 1];
      copyLen := copyLen - 1;
      buf[copyLen] := '\0';
    }
    assert buf[..copyLen] == kept[..copyLen] == Trimmed(kept);
    assert buf[..] == Trimmed(kept) + buf[copyLen..];
    SameUpToNul(Trimmed(kept), buf[copyLen..]);
  }

  lemma {:induction false} SameUpToNul(s: string, rest: string)
    requires rest != "" && rest[0] == '\0'
    ensures CString(s + rest) == CString(s)
  {
    if s == "" {
      assert s + rest == rest;
    } else {
      assert (s + rest)[1..] == s[1..] + rest;
      SameUpToNul(s[1..], rest);
    }
  }

  /** The C string in a buffer. */
  method ReadString(buf: array<char>) returns (s: string)
    ensures s == CString(buf[..])
  {
    var n := 0;
    while n < buf.Length && buf[n] != '\0'
      invariant n <= buf.Length
      invariant forall k :: 0 <= k < n ==> buf[k] != '\0'
    {
      n := n + 1;
    }
    s := buf[..n];
    assert buf[..] == s + buf[n..];
    CStringStopsAtNul(s, buf[n..]);
  }
}
