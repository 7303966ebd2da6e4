/** Counting events in a log: the reference the rolling statistics are compared with. */
module EventLog {

  /** Clock readings are in nanoseconds. */
  const HOUR: int := 3_600_000_000_000
  const DAY: int := 24 * HOUR

  datatype Kind = Download | Upload | HttpError

  datatype Event = Event(kind: Kind, time: int)

  /** time.Truncate(time.Hour) of a clock reading, which is never negative. */
  function HourOf(time: int): int {
    time - time % HOUR
  }

  /** The hour of a clock reading is the last multiple of an hour, in nanoseconds, up to it. */
  lemma HourOfIff(time: int, hour: int)
    ensures HourOf(time) == hour <==> hour % 3_600_000_000_000 == 0 && hour <= time < hour + 3_600_000_000_000
  {
    assert time == time / HOUR * HOUR + time % HOUR;
    if hour % 3_600_000_000_000 == 0 && hour <= time < hour + 3_600_000_000_000 {
      SameHour(HourOf(time), hour);
    }
  }

  function Count(log: seq<Event>, p: Event -> bool): nat {
    if log == [] then 0
    else Count(log[..|log|-1], p) + if p(log[|log|-1]) then 1 else 0
  }

  lemma CountSnoc(log: seq<Event>, e: Event, p: Event -> bool)
    ensures Count(log + [e], p) == Count(log, p) + if p(e) then 1 else 0
  {
    assert (log + [e])[..|log|] == log;
  }

  lemma {:induction false} CountLe(log: seq<Event>, p: Event -> bool, q: Event -> bool)
    requires forall e | e in log && p(e) :: q(e)
    ensures Count(log, p) <= Count(log, q)
    decreases |log|
  {
    if log != [] {
      assert log == log[..|log|-1] + [log[|log|-1]];
      CountLe(log[..|log|-1], p, q);
    }
  }

  lemma CountSame(log: seq<Event>, p: Event -> bool, q: Event -> bool)
    requires forall e | e in log :: p(e) <==> q(e)
    ensures Count(log, p) == Count(log, q)
  {
    CountLe(log, p, q);
    CountLe(log, q, p);
  }

  lemma {:induction false} CountSum(log: seq<Event>, p: Event -> bool, q: Event -> bool, both: Event -> bool)
    requires forall e | e in log :: (both(e) <==> p(e) || q(e)) && !(p(e) && q(e))
    ensures Count(log, both) == Count(log, p) + Count(log, q)
    decreases |log|
  {
    if log != [] {
      assert log == log[..|log|-1] + [log[|log|-1]];
      CountSum(log[..|log|-1], p, q, both);
    }
  }

  function OfKind(kind: Kind): Event -> bool {
    (e: Event) => e.kind == kind
  }

  function InHour(kind: Kind, hour: int): Event -> bool {
    (e: Event) => e.kind == kind && HourOf(e.time) == hour
  }

  function InHours(kind: Kind, hours: set<int>): Event -> bool {
    (e: Event) => e.kind == kind && HourOf(e.time) in hours
  }

  /** Events whose hour, not whose exact time, is not before the cutoff. */
  function HourSince(kind: Kind, cutoff: int): Event -> bool {
    (e: Event) => e.kind == kind && HourOf(e.time) >= cutoff
  }

  function Since(kind: Kind, cutoff: int): Event -> bool {
    (e: Event) => e.kind == kind && e.time >= cutoff
  }

  /** The hourly count over a day lies between the exact counts over 23 and over 24 hours, in
      nanoseconds. */
  lemma BetweenExactCounts(log: seq<Event>, kind: Kind, now: int)
    ensures Count(log, Since(kind, now - 82_800_000_000_000)) <= Count(log, HourSince(kind, now - 86_400_000_000_000))
    ensures Count(log, HourSince(kind, now - 86_400_000_000_000)) <= Count(log, Since(kind, now - 86_400_000_000_000))
  {
    var early, day := now - 82_800_000_000_000, now - 86_400_000_000_000;
    CountLe(log, Since(kind, early), HourSince(kind, day));
    CountLe(log, HourSince(kind, day), Since(kind, day));
  }

  lemma AddHour(log: seq<Event>, kind: Kind, hours: set<int>, hour: int)
    requires hour !in hours
    ensures Count(log, InHours(kind, hours + {hour})) ==
            Count(log, InHours(kind, hours)) + Count(log, InHour(kind, hour))
  {
    CountSum(log, InHours(kind, hours), InHour(kind, hour), InHours(kind, hours + {hour}));
  }

  /** A half-open interval of n hours contains at most n full hours. */
  lemma {:induction false} HoursInInterval(hours: set<int>, lo: int, n: nat)
    requires forall h | h in hours :: h % HOUR == 0 && lo <= h < lo + n * HOUR
    ensures |hours| <= n
    decreases n
  {
    if n == 0 {
      assert hours == {};
    } else {
      var last := set h | h in hours && h >= lo + (n - 1) * HOUR;
      HoursInInterval(hours - last, lo, n - 1);
      assert hours == (hours - last) + last;
      if h :| h in last {
        forall g | g in last ensures g == h {
          SameHour(g, h);
        }
        assert last == {h};
      }
    }
  }

  lemma SameHour(g: int, h: int)
    requires g % HOUR == 0 && h % HOUR == 0 && -HOUR < g - h < HOUR
    ensures g == h
  {
  }
}
