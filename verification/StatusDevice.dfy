/** Reading /dev/parking: the change flag, and what a read makes of it. */
module StatusDevice {
  import opened Options
  import opened StatusText
  import Daemon

  /** Asleep stands for a blocking read that goes on waiting, NothingNew for -EAGAIN and
      TooShort for -EINVAL. */
  datatype ReadResult = Line(text: string) | Asleep | NothingNew | TooShort

  predicate Reachable(s: Status) {
    && 0 <= s.slot1 <= 1 && 0 <= s.slot2 <= 1
    && (s.distance1 == 999 || 0 <= s.distance1 <= 400)
    && (s.distance2 == 999 || 0 <= s.distance2 <= 400)
  }

  class Device {
    var statusChanged: bool

    constructor ()
      ensures !statusChanged
    {
      statusChanged := false;
    }

    /** A change of occupancy. */
    method Notify()
      modifies this
      ensures statusChanged
    {
      statusChanged := true;
    }

    /** parking_read, with the four numbers it finds.  The flag is cleared before the length
        is looked at: a read that is too short has used the notification up. */
    method Read(nonblock: bool, count: nat, found: Status) returns (r: ReadResult)
      modifies this
      ensures !statusChanged
      ensures !old(statusChanged) ==> r == if nonblock then NothingNew else Asleep
      ensures old(statusChanged) ==> r == if |Print(found)| <= count then Line(Print(found)) else TooShort
      ensures old(statusChanged) && Reachable(found) && count == Daemon.READ_SIZE ==> r.Line? && Parse(r.text) == Some(found)
    {
      hide Parse, Print;
      if !statusChanged {
        return if nonblock then NothingNew else Asleep;
      }
      statusChanged := false;
      var text := Print(found);
      LineReachesDaemon(found);
      if count < |text| {
        return TooShort;
      }
      return Line(text);
    }
  }

  /** The daemon's read of 63 bytes gets the line of any reachable state whole, and reads
      the same four numbers out of it. */
  lemma LineReachesDaemon(s: Status)
    ensures Reachable(s) ==> |Print(s)| <= 44 < Daemon.READ_SIZE
    ensures Parse(Print(s)) == Some(s)
  {
    hide Parse, Print;
    RoundTrip(s);
    if Reachable(s) {
      ReachableLineFits(s);
    }
  }
}
