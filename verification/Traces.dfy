/** Authority windows (vre15/traces.py) and what the envelope knows about the future (vre15/oracle.py). */
module Traces {

  datatype Window = Window(start: real, end: real)

  datatype Class = Interactive | Batch

  datatype Envelope = Envelope(cls: Class, windows: seq<Window>)

  /** Inside some window, each of which is closed on the left and open on the right. */
  predicate Authorized(e: Envelope, at: real) {
    exists w | w in e.windows :: w.start <= at < w.end
  }

  /** A window opening, or float("inf"). */
  datatype Opening = At(time: real) | Never

  predicate Later(a: Opening, b: Opening) {
    match (a, b)
    case (_, Never) => false
    case (Never, At(_)) => true
    case (At(s), At(t)) => s > t
  }

  function Earliest(windows: seq<Window>, now: real): (o: Opening)
    ensures o.Never? <==> forall w | w in windows :: w.start <= now
    ensures o.At? ==> o.time > now && (exists w :: w in windows && w.start == o.time)
    ensures o.At? ==> forall w | w in windows && w.start > now :: o.time <= w.start
  {
    if windows == [] then Never
    else
      var rest := Earliest(windows[1..], now);
      assert windows == [windows[0]] + windows[1..];
      if windows[0].start > now && (rest.Never? || windows[0].start < rest.time)
      then At(windows[0].start) else rest
  }

  /** next_open: the least window start after `now`. */
  function NextOpen(e: Envelope, now: real): (o: Opening)
    ensures o.Never? <==> forall w | w in e.windows :: w.start <= now
    ensures o.At? ==> o.time > now && (exists w :: w in e.windows && w.start == o.time)
    ensures o.At? ==> forall w | w in e.windows && w.start > now :: o.time <= w.start
  {
    Earliest(e.windows, now)
  }
}
