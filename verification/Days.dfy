/** In-memory indexes by calendar day (server/db/days.rs). Days are numbered in order; a calendar
    gives where each starts. */
module Days {
  import opened Base

  datatype Calendar = Calendar(start: int -> int, dayOf: int -> int)

  /** No day is longer, by far: twice this fits in 64 bits. */
  const LONGEST_DAY := 0x4000_0000_0000_0000

  /** Day starts strictly increase and `dayOf` finds the day a time is in. */
  ghost predicate ValidCalendar(cal: Calendar) {
    && (forall k :: cal.start(k) < cal.start(k + 1) <= cal.start(k) + LONGEST_DAY)
    && (forall t :: cal.start(cal.dayOf(t)) <= t < cal.start(cal.dayOf(t) + 1))
  }

  lemma {:induction false} StartMonotone(cal: Calendar, j: int, k: int)
    requires ValidCalendar(cal) && j <= k
    ensures cal.start(j) + (k - j) <= cal.start(k)
    decreases k - j
  {
    if j < k {
      StartMonotone(cal, j, k - 1);
      assert cal.start(k - 1) < cal.start(k - 1 + 1);
    }
  }

  /** How much of `[lo, hi)` falls on day k. */
  function Overlap(cal: Calendar, lo: int, hi: int, k: int): (n: nat) {
    Max(0, Min(hi, cal.start(k + 1)) - Max(lo, cal.start(k)))
  }

  // -- signal values -----------------------------------------------------------------------

  /** `states[i]` is the time spent in state `i + 1`. */
  type SignalValue = seq<u64>

  function TimeIn(v: SignalValue, state: nat): u64
    requires state >= 1
  {
    if state <= |v| then v[state - 1] else 0
  }

  /** Drops trailing zeros, which changes no lookup. */
  function Normalize(v: SignalValue): (r: SignalValue)
    ensures forall s: nat | s >= 1 :: TimeIn(r, s) == TimeIn(v, s)
    ensures r != [] ==> r[|r| - 1] != 0
  {
    if v != [] && v[|v| - 1] == 0 then Normalize(v[..|v| - 1]) else v
  }

  function Resize(v: SignalValue, n: nat): (r: SignalValue)
    ensures |r| == Max(n, |v|)
    ensures forall s: nat | s >= 1 :: TimeIn(r, s) == TimeIn(v, s)
  {
    if |v| < n then v + seq(n - |v|, _ => 0) else v
  }

  /** `SignalValue::apply`; `None` is its panic when the new state's time does not fit in 64 bits or
      the old state has too little time to give. */
  function Apply(v: SignalValue, duration: nat, old_: nat, new_: nat): (r: Option<SignalValue>)
    requires duration > 0
    ensures r.Some? <==> Fits(TimeIn(v, Max(new_, 1)), duration, new_) && (old_ == 0 || old_ == new_ || duration <= TimeIn(v, old_))
    ensures r.Some? ==> forall s: nat | s >= 1 ::
      TimeIn(r.value, s) == TimeIn(v, s) + (if s == new_ then duration else 0) - (if s == old_ then duration else 0)
  {
    var resized := Resize(v, new_);
    if new_ > 0 && resized[new_ - 1] + duration >= 0x1_0000_0000_0000_0000 then None
    else
    var added := if new_ > 0 then resized[new_ - 1 := resized[new_ - 1] + duration] else resized;
    if old_ == 0 then Some(Normalize(added))
    else if |added| < old_ || added[old_ - 1] < duration then None
    else Some(Normalize(added[old_ - 1 := added[old_ - 1] - duration]))
  }

  /** Adding to the new state's time does not overflow. State 0 has no time. */
  predicate Fits(time: nat, duration: nat, new_: nat) {
    new_ > 0 ==> time + duration < 0x1_0000_0000_0000_0000
  }

  type SignalDays = map<int, SignalValue>

  function DayTime(m: SignalDays, k: int, state: nat): u64
    requires state >= 1
  {
    if k in m then TimeIn(m[k], state) else 0
  }

  /** `Map::adjust_day`: an absent day is inserted even if its value is empty; a present day that
      becomes empty is removed. */
  function AdjustDay(m: SignalDays, k: int, duration: nat, old_: nat, new_: nat): (r: Option<SignalDays>)
    requires duration > 0
    ensures r.Some? <==> Fits(DayTime(m, k, Max(new_, 1)), duration, new_) && (old_ == 0 || old_ == new_ || duration <= DayTime(m, k, old_))
    ensures r.Some? ==> forall s: nat | s >= 1 ::
      DayTime(r.value, k, s) == DayTime(m, k, s) + (if s == new_ then duration else 0) - (if s == old_ then duration else 0)
    ensures r.Some? ==> forall j: int, s: nat | s >= 1 && j != k :: DayTime(r.value, j, s) == DayTime(m, j, s)
  {
    match Apply(if k in m then m[k] else [], duration, old_, new_)
    case None => None
    case Some(v) => Some(if k in m && v == [] then m - {k} else m[k := v])
  }

  /** What adjusting `[lo, hi)` from `old_` to `new_` makes of a lookup. */
  function Moved(cal: Calendar, m: SignalDays, lo: int, hi: int, old_: nat, new_: nat, k: int, s: nat): int
    requires s >= 1
  {
    DayTime(m, k, s) + (if s == new_ then Overlap(cal, lo, hi, k) else 0)
                     - (if s == old_ then Overlap(cal, lo, hi, k) else 0)
  }

  /** Day k has the time that leaving `old_` takes away, and room for what `new_` gets. */
  ghost predicate EnoughOn(cal: Calendar, m: SignalDays, lo: int, hi: int, old_: nat, new_: nat, k: int) {
    && Fits(DayTime(m, k, Max(new_, 1)), Overlap(cal, lo, hi, k), new_)
    && (old_ == 0 || old_ == new_ || Overlap(cal, lo, hi, k) <= DayTime(m, k, old_))
  }

  ghost predicate Enough(cal: Calendar, m: SignalDays, lo: int, hi: int, old_: nat, new_: nat) {
    forall k :: EnoughOn(cal, m, lo, hi, old_, new_, k)
  }

  /** The walk has adjusted exactly the days before `day`. */
  ghost predicate Walked(cal: Calendar, m: SignalDays, lo: int, hi: int, old_: nat, new_: nat, cur: SignalDays, day: int) {
    && (forall k: int, s: nat | s >= 1 ::
          DayTime(cur, k, s) == if k < day then Moved(cal, m, lo, hi, old_, new_, k, s) else DayTime(m, k, s))
    && (forall k | k < day :: EnoughOn(cal, m, lo, hi, old_, new_, k))
  }

  lemma OverlapOutside(cal: Calendar, lo: int, hi: int, day: int, k: int)
    requires ValidCalendar(cal)
    requires (k < day && cal.start(day) <= lo) || (k > day && hi <= cal.start(day + 1))
    ensures Overlap(cal, lo, hi, k) == 0
  {
    if k < day {
      StartMonotone(cal, k + 1, day);
    } else {
      StartMonotone(cal, day + 1, k);
    }
  }

  /** Every lookup has moved by the overlap. */
  ghost predicate Adjusted(cal: Calendar, m: SignalDays, lo: int, hi: int, old_: nat, new_: nat, r: SignalDays) {
    forall k: int, s: nat | s >= 1 :: DayTime(r, k, s) == Moved(cal, m, lo, hi, old_, new_, k, s)
  }

  lemma WalkStart(cal: Calendar, m: SignalDays, lo: int, hi: int, old_: nat, new_: nat)
    requires ValidCalendar(cal)
    ensures Walked(cal, m, lo, hi, old_, new_, m, cal.dayOf(lo))
  {
    var day := cal.dayOf(lo);
    forall k | k < day ensures Overlap(cal, lo, hi, k) == 0 {
      OverlapOutside(cal, lo, hi, day, k);
    }
  }

  lemma WalkDone(cal: Calendar, m: SignalDays, lo: int, hi: int, old_: nat, new_: nat, cur: SignalDays, day: int)
    requires ValidCalendar(cal) && Walked(cal, m, lo, hi, old_, new_, cur, day + 1) && hi <= cal.start(day + 1)
    ensures Enough(cal, m, lo, hi, old_, new_) && Adjusted(cal, m, lo, hi, old_, new_, cur)
  {
    forall k | k > day ensures Overlap(cal, lo, hi, k) == 0 {
      OverlapOutside(cal, lo, hi, day, k);
    }
  }

  lemma WalkStep(cal: Calendar, m: SignalDays, lo: int, hi: int, old_: nat, new_: nat, cur: SignalDays, day: int, duration: nat)
    requires Walked(cal, m, lo, hi, old_, new_, cur, day)
    requires duration == Overlap(cal, lo, hi, day) > 0
    ensures var next := AdjustDay(cur, day, duration, old_, new_);
            if next.Some? then Walked(cal, m, lo, hi, old_, new_, next.value, day + 1)
            else !Enough(cal, m, lo, hi, old_, new_)
  {
    assert DayTime(cur, day, Max(new_, 1)) == DayTime(m, day, Max(new_, 1));
    assert old_ >= 1 ==> DayTime(cur, day, old_) == DayTime(m, day, old_);
    assert EnoughOn(cal, m, lo, hi, old_, new_, day) <==> AdjustDay(cur, day, duration, old_, new_).Some?;
  }

  /** `Map<SignalValue>::adjust`: walks the days a range spans. */
  method AdjustSignal(cal: Calendar, m: SignalDays, lo: int, hi: int, old_: nat, new_: nat)
    returns (r: Option<SignalDays>)
    requires ValidCalendar(cal)
    ensures r.Some? <==> Enough(cal, m, lo, hi, old_, new_)
    ensures r.Some? ==> Adjusted(cal, m, lo, hi, old_, new_, r.value)
    ensures hi <= lo ==> r == Some(m)
  {
    if hi <= lo {
      return Some(m);
    }
    var day, from, cur := cal.dayOf(lo), lo, m;
    WalkStart(cal, m, lo, hi, old_, new_);
    while true
      invariant lo <= from < hi && from == Max(lo, cal.start(day)) && from < cal.start(day + 1)
      invariant Walked(cal, m, lo, hi, old_, new_, cur, day)
      decreases hi - from
    {
      var boundary := cal.start(day + 1);
      var duration := Min(hi, boundary) - from;
      WalkStep(cal, m, lo, hi, old_, new_, cur, day, duration);
      var next := AdjustDay(cur, day, duration, old_, new_);
      if next.None? {
        return None;
      }
      cur := next.value;
      if hi <= boundary {
        WalkDone(cal, m, lo, hi, old_, new_, cur, day);
        return Some(cur);
      }
      day, from := day + 1, boundary;
      assert cal.start(day) < cal.start(day + 1);
    }
  }

  // -- what the index means ----------------------------------------------------------------

  /** How many time units of `[lo, hi)` a function of time spends at v. */
  ghost function Count(f: int -> int, lo: int, hi: int, v: int): nat
    decreases hi - lo
  {
    if hi <= lo then 0 else Count(f, lo, hi - 1, v) + if f(hi - 1) == v then 1 else 0
  }

  /** The index of a signal is exact: for every day and state, the time spent there. */
  ghost predicate IndexOf(cal: Calendar, m: Option<SignalDays>, f: int -> int) {
    m.Some? && forall k: int, s: nat | s >= 1 :: DayTime(m.value, k, s) == Count(f, cal.start(k), cal.start(k + 1), s)
  }

  lemma {:induction false} CountSame(f: int -> int, g: int -> int, lo: int, hi: int, v: int)
    requires forall t | lo <= t < hi :: f(t) == g(t)
    ensures Count(f, lo, hi, v) == Count(g, lo, hi, v)
    decreases hi - lo
  {
    if lo < hi {
      CountSame(f, g, lo, hi - 1, v);
    }
  }

  /** `f` with `[lo, hi)` overwritten by `new_`. */
  ghost function Overwrite(f: int -> int, lo: int, hi: int, new_: int): int -> int {
    t => if lo <= t < hi then new_ else f(t)
  }

  /** Overwriting a stretch where f is constantly `old_` moves that stretch's overlap. */
  lemma {:induction false} CountOverwrite(f: int -> int, lo: int, hi: int, old_: int, new_: int, a: int, b: int, v: int)
    requires a <= b && forall t | lo <= t < hi :: f(t) == old_
    ensures var n := Max(0, Min(hi, b) - Max(lo, a));
            && Count(Overwrite(f, lo, hi, new_), a, b, v) ==
               Count(f, a, b, v) + (if v == new_ then n else 0) - (if v == old_ then n else 0)
            && (v == old_ ==> n <= Count(f, a, b, v))
    decreases b - a
  {
    if a < b {
      CountOverwrite(f, lo, hi, old_, new_, a, b - 1, v);
    }
  }

  lemma {:induction false} CountBound(f: int -> int, lo: int, hi: int, v: int)
    requires lo <= hi
    ensures Count(f, lo, hi, v) <= hi - lo
    decreases hi - lo
  {
    if lo < hi {
      CountBound(f, lo, hi - 1, v);
    }
  }

  /** The times of a day of an exact index add up to no more than the day. */
  lemma DayHasRoom(cal: Calendar, m: SignalDays, lo: int, hi: int, old_: nat, new_: nat, f: int -> int, k: int)
    requires ValidCalendar(cal) && IndexOf(cal, Some(m), f)
    requires forall t | lo <= t < hi :: f(t) == old_
    ensures EnoughOn(cal, m, lo, hi, old_, new_, k)
  {
    var a, b := cal.start(k), cal.start(k + 1);
    assert a < b <= a + LONGEST_DAY;
    CountBound(f, a, b, Max(new_, 1));
    if old_ >= 1 {
      CountOverwrite(f, lo, hi, old_, new_, a, b, old_);
    }
  }

  /** Adjusting an exact index over such a stretch succeeds and keeps it exact. */
  lemma AdjustKeepsExact(cal: Calendar, m: SignalDays, lo: int, hi: int, old_: nat, new_: nat, f: int -> int)
    requires ValidCalendar(cal) && IndexOf(cal, Some(m), f)
    requires forall t | lo <= t < hi :: f(t) == old_
    ensures Enough(cal, m, lo, hi, old_, new_)
    ensures forall r | Adjusted(cal, m, lo, hi, old_, new_, r) :: IndexOf(cal, Some(r), Overwrite(f, lo, hi, new_))
  {
    forall k: int, s: nat | s >= 1
      ensures Moved(cal, m, lo, hi, old_, new_, k, s) == Count(Overwrite(f, lo, hi, new_), cal.start(k), cal.start(k + 1), s)
    {
      CountOverwrite(f, lo, hi, old_, new_, cal.start(k), cal.start(k + 1), s);
    }
    forall k ensures EnoughOn(cal, m, lo, hi, old_, new_, k) {
      DayHasRoom(cal, m, lo, hi, old_, new_, f, k);
    }
  }
}
