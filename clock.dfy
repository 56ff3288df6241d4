/** The business-hours clock of app/main.py: a fixed Monday–Friday,
    09:00–18:00 window in local wall-clock time.

    An instant is a number of seconds counted from a Monday 00:00 epoch, so
    `Weekday(t)` (0 = Monday, as Python's `weekday()`) and `TimeOfDay(t)` are
    plain integer arithmetic. Dafny's `/` and `%` are Euclidean, which for the
    positive divisor used here is Python's floor division, so instants before
    the epoch work as well. */
module BusinessClock {

  const Day: int := 86400
  const HourLength: int := 3600
  /** 09:00 and 18:00 as seconds into the day */
  const OpenAt: int := 9 * HourLength
  const CloseAt: int := 18 * HourLength

  function DayIndex(t: int): int {
    t / Day
  }

  function Weekday(t: int): int {
    DayIndex(t) % 7
  }

  function TimeOfDay(t: int): int {
    t % Day
  }

  /** `ts.hour` */
  function HourOf(t: int): int {
    TimeOfDay(t) / HourLength
  }

  /** `_is_business_time`: a weekday with 09:00:00 <= time <= 18:00:00.
      18:00:00 itself counts as open. */
  predicate IsBusinessTime(t: int)
    ensures InWindow(t) ==> IsBusinessTime(t)
    ensures IsBusinessTime(t) && !InWindow(t) ==> TimeOfDay(t) == CloseAt
  {
    Weekday(t) < 5 && OpenAt <= TimeOfDay(t) <= CloseAt
  }

  /** The instants `_roll_to_next_business_open` leaves where they are: a
      weekday with hour 9 to 17, so 18:00:00 is closed here. */
  predicate InWindow(t: int) {
    Weekday(t) < 5 && OpenAt <= TimeOfDay(t) < CloseAt
  }

  lemma DayParts(t: int, d: int, s: int)
    requires 0 <= s < Day && t == d * Day + s
    ensures DayIndex(t) == d && TimeOfDay(t) == s
  {
  }

  /** 09:00 on day `d` */
  function OpenOn(d: int): (t: int)
    ensures DayIndex(t) == d && TimeOfDay(t) == OpenAt
  {
    DayParts(d * Day + OpenAt, d, OpenAt);
    d * Day + OpenAt
  }

  /** 18:00 on the day of `t` */
  function DayEnd(t: int): int {
    DayIndex(t) * Day + CloseAt
  }

  /** The first Monday–Friday day after day `d`. */
  function NextBusinessDay(d: int): (e: int)
    ensures d < e && e % 7 < 5
    ensures forall k :: d < k < e ==> k % 7 >= 5
  {
    var w := d % 7;
    if w == 4 then d + 3 else if w == 5 then d + 2 else d + 1
  }

  /** What `_roll_to_next_business_open` computes, stated without its loop:
      an open instant is kept, a weekday morning moves to 09:00 that day, and
      anything else moves to 09:00 of the next weekday. */
  function RollForward(t: int): (r: int)
    ensures InWindow(r) && t <= r
    ensures InWindow(t) ==> r == t
  {
    if Weekday(t) < 5 && TimeOfDay(t) < OpenAt then OpenOn(DayIndex(t))
    else if InWindow(t) then t
    else OpenOn(NextBusinessDay(DayIndex(t)))
  }

  /** `_roll_to_next_business_open`, with its loop. */
  method RollToNextBusinessOpen(t: int) returns (r: int)
    ensures r == RollForward(t)
  {
    var cur := t;
    while true
      invariant RollForward(cur) == RollForward(t)
      decreases if Weekday(cur) >= 5 then 1 else if HourOf(cur) >= 18 then 2 else 0
    {
      if Weekday(cur) >= 5 {
        var daysAhead := 7 - Weekday(cur);
        cur := OpenOn(DayIndex(cur) + daysAhead);
        continue;
      }
      if HourOf(cur) < 9 {
        return OpenOn(DayIndex(cur));
      }
      if HourOf(cur) >= 18 {
        cur := OpenOn(DayIndex(cur) + 1);
        continue;
      }
      return cur;
    }
  }

  /** Seconds left before 18:00 on the day of an open instant. */
  function Available(cur: int): (n: int)
    requires InWindow(cur)
    ensures 0 < n <= CloseAt - OpenAt
  {
    DayEnd(cur) - cur
  }

  /** The loop of `add_business_hours` from an open instant `cur` with
      `remaining` seconds still to spend. The result is never earlier than
      `cur + remaining` and always within the inclusive business window. */
  function Consume(cur: int, remaining: int): (r: int)
    requires InWindow(cur)
    ensures IsBusinessTime(r)
    ensures remaining <= 0 ==> r == cur
    ensures remaining > 0 ==> r >= cur + remaining
    decreases remaining
  {
    if remaining <= 0 then cur
    else if remaining <= Available(cur) then
      DayParts(cur + remaining, DayIndex(cur), TimeOfDay(cur) + remaining);
      cur + remaining
    else Consume(OpenOn(NextBusinessDay(DayIndex(cur))), remaining - Available(cur))
  }

  /** `add_business_hours(start, amount / 3600)`: roll forward, then spend
      `amount` seconds across Monday–Friday 09:00–18:00 windows. */
  function AddBusiness(start: int, amount: int): (r: int)
    ensures IsBusinessTime(r)
    ensures start <= r
  {
    Consume(RollForward(start), amount)
  }

  /** `add_business_hours`, with its two loops. */
  method AddBusinessHours(start: int, amount: int) returns (r: int)
    ensures r == AddBusiness(start, amount)
  {
    var remaining := amount;
    var cur := RollToNextBusinessOpen(start);
    while remaining > 0
      invariant InWindow(cur)
      invariant Consume(cur, remaining) == AddBusiness(start, amount)
      decreases remaining
    {
      var dayEnd := DayEnd(cur);
      var available := dayEnd - cur;
      if remaining <= available {
        return cur + remaining;
      }
      ConsumePastDay(cur, remaining, remaining - available);
      remaining := remaining - available;
      ghost var d0 := DayIndex(cur);
      cur := OpenOn(DayIndex(cur) + 1);
      while Weekday(cur) >= 5
        invariant d0 < DayIndex(cur) <= NextBusinessDay(d0)
        invariant cur == OpenOn(DayIndex(cur))
        decreases NextBusinessDay(d0) - DayIndex(cur)
      {
        WeekendDaySkipped(d0, DayIndex(cur));
        cur := OpenOn(DayIndex(cur) + 1);
      }
      WeekdayReached(d0, DayIndex(cur));
    }
    return cur;
  }

  /** A Saturday or Sunday before the next business day is not that day. */
  lemma WeekendDaySkipped(d0: int, k: int)
    requires d0 < k <= NextBusinessDay(d0) && k % 7 >= 5
    ensures k < NextBusinessDay(d0)
  {
  }

  /** The first Monday–Friday day after `d0` is the next business day. */
  lemma WeekdayReached(d0: int, k: int)
    requires d0 < k <= NextBusinessDay(d0) && k % 7 < 5
    ensures k == NextBusinessDay(d0)
  {
  }

  // ---------------------------------------------------------------------
  // Properties of the roll-forward
  // ---------------------------------------------------------------------

  /** The roll-forward skips no open instant: everything between the input
      and the result is closed, so the result is the earliest open instant
      at or after the input. */
  lemma RollForwardIsEarliest(t: int, u: int)
    requires t <= u < RollForward(t)
    ensures !InWindow(u)
  {
    var d := DayIndex(t);
    var e := DayIndex(u);
    DayParts(t, d, TimeOfDay(t));
    DayParts(u, e, TimeOfDay(u));
    if Weekday(t) < 5 && TimeOfDay(t) < OpenAt {
      assert e == d;
    } else {
      var n := NextBusinessDay(d);
      assert d <= e <= n;
      if e == d {
        assert !InWindow(t);
      }
    }
  }

  /** Rolling twice is rolling once. */
  lemma RollForwardIdempotent(t: int)
    ensures RollForward(RollForward(t)) == RollForward(t)
  {
  }

  /** The three outcomes of the roll-forward, by the position of the input. */
  lemma RollForwardCases(t: int)
    ensures Weekday(t) < 5 && HourOf(t) < 9 ==> RollForward(t) == OpenOn(DayIndex(t))
    ensures Weekday(t) < 5 && 9 <= HourOf(t) < 18 ==> RollForward(t) == t
    ensures Weekday(t) >= 5 || HourOf(t) >= 18 ==>
              RollForward(t) == OpenOn(NextBusinessDay(DayIndex(t)))
  {
  }

  /** 18:00:00 on a weekday is business time for `_is_business_time`, yet the
      roll-forward moves it to 09:00 of the next weekday. */
  lemma SixPmIsOpenButRolled(d: int)
    requires d % 7 < 5
    ensures IsBusinessTime(d * Day + CloseAt)
    ensures RollForward(d * Day + CloseAt) == OpenOn(NextBusinessDay(d))
  {
    DayParts(d * Day + CloseAt, d, CloseAt);
  }

  // ---------------------------------------------------------------------
  // Properties of the business-hours adder
  // ---------------------------------------------------------------------

  /** A zero or negative amount gives the rolled-forward start. */
  lemma AddNothingIsRoll(start: int, amount: int)
    requires amount <= 0
    ensures AddBusiness(start, amount) == RollForward(start)
  {
  }

  /** An amount that fits before 18:00 of the rolled start's day lands on
      that day. */
  lemma AddWithinDay(start: int, amount: int)
    requires 0 < amount <= DayEnd(RollForward(start)) - RollForward(start)
    ensures AddBusiness(start, amount) == RollForward(start) + amount
  {
  }

  /** An amount that does not fit carries the remainder to 09:00 of the next
      weekday, skipping Saturday and Sunday. */
  lemma AddAcrossDays(start: int, amount: int)
    requires amount > DayEnd(RollForward(start)) - RollForward(start)
    ensures var c := RollForward(start);
            AddBusiness(start, amount)
            == Consume(OpenOn(NextBusinessDay(DayIndex(c))), amount - (DayEnd(c) - c))
  {
  }

  /** Elapsed wall-clock time equals the amount exactly when the start is
      open and the amount fits in the rest of that day; otherwise some closed
      time is spanned and the result is strictly later. */
  lemma AddEqualsWallClockIff(start: int, amount: int)
    requires amount > 0
    ensures AddBusiness(start, amount) == start + amount
            <==> InWindow(start) && amount <= DayEnd(start) - start
  {
    var c := RollForward(start);
    if !InWindow(start) {
      assert c > start;
    } else if amount > DayEnd(start) - start {
      var d := DayIndex(start);
      var next := OpenOn(NextBusinessDay(d));
      DayParts(start, d, TimeOfDay(start));
      assert next > DayEnd(start);
      assert AddBusiness(start, amount) >= next + (amount - (DayEnd(start) - start));
    }
  }

  /** Spending `a` and then `b` business seconds is spending `a + b`
      (for `b > 0`; with `b == 0` an end at exactly 18:00 would be rolled). */
  lemma {:induction false} ConsumeCompose(cur: int, a: int, b: int)
    requires InWindow(cur) && a >= 0 && b > 0
    ensures AddBusiness(Consume(cur, a), b) == Consume(cur, a + b)
    decreases a, 1
  {
    if a == 0 {
    } else if a <= Available(cur) {
      ConsumeComposeSameDay(cur, a, b);
    } else {
      ConsumeComposeLaterDay(cur, a, b);
    }
  }

  /** ConsumeCompose when the first amount runs past 18:00 on the day of
      `cur`: both sides continue from 09:00 on the next business day. */
  lemma {:induction false} ConsumeComposeLaterDay(cur: int, a: int, b: int)
    requires InWindow(cur) && a > Available(cur) && b > 0
    ensures AddBusiness(Consume(cur, a), b) == Consume(cur, a + b)
    decreases a, 0
  {
    var next := OpenOn(NextBusinessDay(DayIndex(cur)));
    var rest := a - Available(cur);
    ConsumePastDay(cur, a, rest);
    ConsumePastDay(cur, a + b, rest + b);
    ConsumeCompose(next, rest, b);
  }

  /** An amount that does not fit before 18:00 continues at 09:00 on the
      next business day with what is left. */
  lemma ConsumePastDay(cur: int, n: int, rest: int)
    requires InWindow(cur) && n > Available(cur) && rest == n - Available(cur)
    ensures Consume(cur, n) == Consume(OpenOn(NextBusinessDay(DayIndex(cur))), rest)
  {
  }

  /** ConsumeCompose when the first amount ends on the day of `cur`. */
  lemma ConsumeComposeSameDay(cur: int, a: int, b: int)
    requires InWindow(cur) && 0 < a <= Available(cur) && b > 0
    ensures AddBusiness(Consume(cur, a), b) == Consume(cur, a + b)
  {
    var x := cur + a;
    DayParts(x, DayIndex(cur), TimeOfDay(cur) + a);
    assert Consume(cur, a) == x;
    if TimeOfDay(x) < CloseAt {
      assert RollForward(x) == x;
      if a + b > Available(cur) {
        var rest := a + b - Available(cur);
        ConsumePastDay(cur, a + b, rest);
        ConsumePastDay(x, b, rest);
      }
    } else {
      assert RollForward(x) == OpenOn(NextBusinessDay(DayIndex(cur)));
      ConsumePastDay(cur, a + b, b);
    }
  }

  lemma AddBusinessCompose(start: int, a: int, b: int)
    requires a >= 0 && b > 0
    ensures AddBusiness(AddBusiness(start, a), b) == AddBusiness(start, a + b)
  {
    ConsumeCompose(RollForward(start), a, b);
  }

  /** A longer amount never gives an earlier deadline. */
  lemma AddBusinessMonotone(start: int, a: int, b: int)
    requires a <= b
    ensures AddBusiness(start, a) <= AddBusiness(start, b)
  {
    if a <= 0 {
      NothingToAdd(start, a, b);
    } else if a < b {
      MoreToAdd(start, a, b - a, b);
    }
  }

  /** Spending `d` more seconds continues from the earlier deadline. */
  lemma MoreToAdd(start: int, a: int, d: int, b: int)
    requires a > 0 && d > 0 && b == a + d
    ensures AddBusiness(start, a) <= AddBusiness(start, b)
  {
    var x := AddBusiness(start, a);
    AddBusinessCompose(start, a, d);
    assert x <= AddBusiness(x, d);
  }

  /** With nothing to spend the deadline is the roll-forward, which every
      amount reaches. */
  lemma NothingToAdd(start: int, a: int, b: int)
    requires a <= 0 && a <= b
    ensures AddBusiness(start, a) == RollForward(start) <= AddBusiness(start, b)
  {
    var c := RollForward(start);
    assert Consume(c, a) == c;
    assert c <= Consume(c, b);
  }

  /** Friday 19:00 plus one business hour is Monday 10:00. */
  lemma FridayEveningPlusOneHour()
    ensures AddBusiness(4 * Day + 19 * HourLength, HourLength) == 7 * Day + 10 * HourLength
  {
    DayParts(4 * Day + 19 * HourLength, 4, 19 * HourLength);
  }
}
