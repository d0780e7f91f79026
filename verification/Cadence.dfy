/** When a schedule fires: the cadence, its crank, and the trigger condition it asks for. */
module Cadences {
  import opened Outcomes
  import opened Arithmetic

  const NANOS: nat := 1_000_000_000

  /** What a cron expression answers for "the first occurrence after this instant" (given in nanoseconds). */
  datatype Occurrence = Malformed | Never | At(seconds: nat)

  datatype Env = Env(height: nat, time: nat, cron: (string, nat) -> Occurrence) {
    ghost predicate Valid() {
      height <= MAX_U64 && time <= MAX_U64
    }
  }

  /** The two conditions that the scheduler accepts for a trigger. */
  datatype TriggerCondition = BlocksCompleted(height: nat) | TimestampElapsed(time: nat) {
    predicate IsSatisfied(env: Env) {
      match this
      case BlocksCompleted(h) => env.height >= h
      case TimestampElapsed(t) => env.time >= t
    }
  }

  function Seconds(nanos: nat): nat {
    nanos / NANOS
  }

  function PlusSeconds(t: nat, seconds: nat): Outcome<nat> {
    CheckedU64(t + seconds * NANOS)
  }

  function MinusSeconds(t: nat, seconds: nat): Outcome<nat> {
    if seconds * NANOS <= t then Ok(t - seconds * NANOS) else Panic
  }

  function Remainder(a: nat, b: nat): Outcome<nat> {
    if b == 0 then Panic else Ok(a % b)
  }

  /** `interval` counts blocks, `duration` and every timestamp nanoseconds. */
  datatype Cadence =
    | Blocks(interval: nat, previous: Option<nat>)
    | Time(duration: nat, previous: Option<nat>)
    | Cron(expr: string, previous: Option<nat>)
  {
    function IsDue(env: Env): Outcome<bool> {
      match previous
      case None => Ok(true)
      case Some(p) =>
        match this
        case Blocks(d, _) =>
          var due :- CheckedU64(p + d);
          Ok(env.height >= due)
        case Time(d, _) =>
          var due :- CheckedU64(Seconds(p) + Seconds(d));
          Ok(Seconds(env.time) >= due)
        case Cron(_, _) =>
          var condition :- IntoCondition(env);
          Ok(condition.IsSatisfied(env))
    }

    function IntoCondition(env: Env): Outcome<TriggerCondition> {
      match this
      case Blocks(d, None) => Ok(BlocksCompleted(env.height))
      case Blocks(d, Some(p)) =>
        var h :- CheckedU64(p + d);
        Ok(BlocksCompleted(h))
      case Time(d, None) => Ok(TimestampElapsed(env.time))
      case Time(d, Some(p)) =>
        var t :- PlusSeconds(p, Seconds(d));
        Ok(TimestampElapsed(t))
      case Cron(expr, p) =>
        match env.cron(expr, if p.Some? then p.value else env.time)
        case Malformed => Err
        case Never => Ok(BlocksCompleted(MAX_U64))
        case At(s) =>
          var t :- CheckedU64(s * NANOS);
          Ok(TimestampElapsed(t))
    }

    function Crank(env: Env): Outcome<Cadence> {
      match this
      case Blocks(d, None) => Ok(Blocks(d, Some(env.height)))
      case Blocks(d, Some(p)) =>
        var next :- CheckedU64(p + d);
        if env.height < d then Panic
        else if next < env.height - d then
          var late :- Remainder(env.height - p, d);
          Ok(Blocks(d, Some(env.height - late)))
        else Ok(Blocks(d, Some(next)))
      case Time(d, None) => Ok(Time(d, Some(env.time)))
      case Time(d, Some(p)) =>
        var next :- PlusSeconds(p, Seconds(d));
        var floor :- MinusSeconds(env.time, Seconds(d));
        if next < floor then
          var late :- Remainder(Seconds(env.time) - Seconds(p), Seconds(d));
          var t :- MinusSeconds(env.time, late);
          Ok(Time(d, Some(t)))
        else Ok(Time(d, Some(next)))
      case Cron(expr, p) =>
        match env.cron(expr, if p.Some? then Max(p.value, env.time) else env.time)
        case Malformed => Err
        case Never => Panic // `Timestamp::from_seconds(u64::MAX)` overflows
        case At(s) =>
          var t :- CheckedU64(s * NANOS);
          Ok(Cron(expr, Some(t)))
    }
  }

  // ---- Block and time cadences, each in its own unit ----

  /** A block or time cadence that has fired before and whose interval is at least one block or one second. */
  predicate Steady(c: Cadence) {
    !c.Cron? && c.previous.Some? && Period(c) > 0
  }

  predicate SameInterval(c: Cadence, c': Cadence) {
    match c
    case Blocks(d, _) => c'.Blocks? && c'.interval == d
    case Time(d, _) => c'.Time? && c'.duration == d
    case Cron(e, _) => c'.Cron? && c'.expr == e
  }

  function Period(c: Cadence): nat
    requires !c.Cron?
  {
    if c.Blocks? then c.interval else Seconds(c.duration)
  }

  function Last(c: Cadence): nat
    requires !c.Cron? && c.previous.Some?
  {
    if c.Blocks? then c.previous.value else Seconds(c.previous.value)
  }

  function Now(c: Cadence, env: Env): nat {
    if c.Blocks? then env.height else Seconds(env.time)
  }

  /**
   * The next due instant is a 64-bit number of nanoseconds; only a clock within a second of the end of time breaks
   * this.
   */
  predicate Fits(c: Cadence) {
    c.Time? && c.previous.Some? ==> c.previous.value + Seconds(c.duration) * NANOS <= MAX_U64
  }

  /** The period exactly two intervals old, to the nanosecond: the one moment a crank leaves the cadence due. */
  predicate ExactlyTwoPeriods(c: Cadence, env: Env)
    requires !c.Cron? && c.previous.Some?
  {
    && Now(c, env) == Last(c) + 2 * Period(c)
    && (c.Time? ==> env.time <= c.previous.value + 2 * Period(c) * NANOS)
  }

  lemma {:induction false} SecondsPlus(t: nat, s: nat)
    ensures Seconds(t + s * NANOS) == Seconds(t) + s
  {
  }

  lemma {:induction false} SecondsMinus(t: nat, s: nat)
    requires s <= Seconds(t)
    ensures s * NANOS <= t && Seconds(t - s * NANOS) == Seconds(t) - s
  {
  }

  lemma {:induction false} SecondsMonotone(a: nat, b: nat)
    requires a <= b
    ensures Seconds(a) <= Seconds(b)
  {
  }

  /** A block or time cadence that has fired is due one period after that, in its own unit. */
  lemma {:induction false} DueExactly(c: Cadence, env: Env)
    requires !c.Cron? && c.previous.Some?
    ensures c.IsDue(env) == if Last(c) + Period(c) <= MAX_U64 then Ok(Now(c, env) >= Last(c) + Period(c)) else Panic
  {
  }

  /**
   * A block or time cadence that has never fired is due at once, and its first crank counts from that very moment: it
   * is due again one period later.
   */
  lemma {:induction false} FirstCrank(c: Cadence, env: Env, later: Env)
    requires !c.Cron? && c.previous.None?
    ensures c.IsDue(env) == Ok(true)
    ensures c.IntoCondition(env).Ok?
    ensures c.IntoCondition(env).value.IsSatisfied(later) <==>
            if c.Blocks? then later.height >= env.height else later.time >= env.time
    ensures c.Crank(env).Ok? && SameInterval(c, c.Crank(env).value)
    ensures var c' := c.Crank(env).value;
      && c'.previous == Some(if c.Blocks? then env.height else env.time)
      && (Now(c, env) + Period(c) <= MAX_U64 ==> c'.IsDue(later) == Ok(Now(c, later) >= Now(c, env) + Period(c)))
  {
    DueExactly(c.Crank(env).value, later);
  }

  /** Skipping to the latest instant of the same phase, two periods or more after the last firing. */
  lemma {:induction false} CatchUp(last: nat, now: nat, d: nat)
    requires d > 0 && now >= last + 2 * d
    ensures var late := (now - last) % d;
      && 0 <= late < d && last + late + d <= now && (now - late - last) % d == 0
  {
    var q := (now - last) / d;
    DivMod(now - last, d);
    DivAtLeast(now - last, d, 2);
    MulMonotone(2, q, d);
    assert now - (now - last) % d - last == q * d;
    MultipleMod(q, d);
  }

  /** What a due crank of `c` into `c'` comes to: same phase, no later than now, next due at or after now. */
  ghost predicate Cranked(c: Cadence, c': Cadence, env: Env)
    requires Steady(c)
  {
    && Steady(c') && SameInterval(c, c')
    && Last(c) < Last(c') <= Now(c, env)
    && (Last(c') - Last(c)) % Period(c) == 0
    && Last(c') + Period(c) >= Now(c, env)
    && (Last(c') + Period(c) == Now(c, env) <==> ExactlyTwoPeriods(c, env))
  }

  lemma {:induction false} BlocksDueCrank(d: nat, p: nat, env: Env)
    requires d > 0 && env.Valid() && p + d <= env.height
    ensures var c := Blocks(d, Some(p)); c.Crank(env).Ok? && Cranked(c, c.Crank(env).value, env)
  {
    MultipleMod(1, d);
    if p + d < env.height - d {
      CatchUp(p, env.height, d);
    }
  }

  lemma {:induction false} TimeDueCrank(duration: nat, p: nat, env: Env)
    requires var c := Time(duration, Some(p));
      Steady(c) && Fits(c) && env.Valid() && Last(c) + Period(c) <= Now(c, env)
    ensures var c := Time(duration, Some(p)); c.Crank(env).Ok? && Cranked(c, c.Crank(env).value, env)
  {
    var d := Seconds(duration);
    SecondsMinus(env.time, d);
    SecondsPlus(p, 2 * d);
    if p + d * NANOS < env.time - d * NANOS {
      SecondsMonotone(p + 2 * d * NANOS, env.time);
      TimeCatchesUp(duration, p, env);
    } else {
      SecondsMonotone(env.time, p + 2 * d * NANOS);
      TimeStepsOn(duration, p, env);
    }
  }

  lemma {:induction false} TimeCatchesUp(duration: nat, p: nat, env: Env)
    requires var d := Seconds(duration);
      d > 0 && p + d * NANOS <= MAX_U64 && p + 2 * d * NANOS < env.time && Seconds(p) + 2 * d <= Seconds(env.time)
    ensures var c := Time(duration, Some(p)); c.Crank(env).Ok? && Cranked(c, c.Crank(env).value, env)
  {
    var d, now := Seconds(duration), Seconds(env.time);
    var late := (now - Seconds(p)) % d;
    CatchUp(Seconds(p), now, d);
    SecondsMinus(env.time, late);
    TimeSkips(duration, p, env, late);
    var c' := Time(duration, Some(env.time - late * NANOS));
    assert Last(c') == now - late && Last(c') + d > now;
  }

  lemma {:induction false} TimeSkips(duration: nat, p: nat, env: Env, late: nat)
    requires var d := Seconds(duration);
      && d > 0 && p + d * NANOS <= MAX_U64 && p + 2 * d * NANOS < env.time && Seconds(p) <= Seconds(env.time)
      && late == (Seconds(env.time) - Seconds(p)) % d && late * NANOS <= env.time
    ensures Time(duration, Some(p)).Crank(env) == Ok(Time(duration, Some(env.time - late * NANOS)))
  {
  }

  lemma {:induction false} TimeStepsOn(duration: nat, p: nat, env: Env)
    requires var d := Seconds(duration);
      && d > 0 && p + d * NANOS <= MAX_U64 && d * NANOS <= env.time <= p + 2 * d * NANOS
      && Seconds(p) + d <= Seconds(env.time) <= Seconds(p) + 2 * d
    ensures var c := Time(duration, Some(p)); c.Crank(env).Ok? && Cranked(c, c.Crank(env).value, env)
  {
    SecondsPlus(p, Seconds(duration));
    MultipleMod(1, Seconds(duration));
  }

  /**
   * A due crank advances to an instant of the same phase that is not in the future, and leaves the next due
   * instant at or after now; it leaves the cadence due again only when exactly two periods had gone by.
   */
  lemma {:induction false} DueCrank(c: Cadence, env: Env)
    requires Steady(c) && Fits(c) && env.Valid() && c.IsDue(env) == Ok(true)
    ensures c.Crank(env).Ok? && Cranked(c, c.Crank(env).value, env)
  {
    match c
    case Blocks(d, p) => BlocksDueCrank(d, p.value, env);
    case Time(duration, p) => TimeDueCrank(duration, p.value, env);
  }

  /**
   * When a due crank goes through: always for an interval of at least one block or second, except within a second
   * of the end of 64-bit time; for a zero interval only if no time has passed since the last firing.
   */
  lemma {:induction false} DueCrankSucceeds(c: Cadence, env: Env)
    requires !c.Cron? && c.previous.Some? && env.Valid() && c.IsDue(env) == Ok(true)
    ensures c.Crank(env).Ok? <==>
        Fits(c) && (Period(c) > 0 || c.previous.value >= if c.Blocks? then env.height else env.time)
    ensures !c.Crank(env).Ok? ==> c.Crank(env).Panic?
  {
    if Steady(c) && Fits(c) {
      DueCrank(c, env);
    } else if c.Time? && Period(c) > 0 {
      assert PlusSeconds(c.previous.value, Seconds(c.duration)) == Panic;
    }
  }

  /** An input for the failure: an interval of zero blocks, or of half a second, once time has passed. */
  lemma {:induction false} ZeroIntervalPanics(env: Env)
    requires env.height == 10 && env.time == 10 * NANOS
    ensures Blocks(0, Some(9)).IsDue(env) == Ok(true) && Blocks(0, Some(9)).Crank(env) == Panic
    ensures var c := Time(NANOS / 2, Some(9 * NANOS)); c.IsDue(env) == Ok(true) && c.Crank(env) == Panic
  {
  }

  // ---- Sequences of cranks ----

  /** Looks at the cadence once per environment, cranking it whenever it is due; also counts the cranks. */
  function Fire(c: Cadence, envs: seq<Env>): Outcome<(Cadence, nat)>
    decreases |envs|
  {
    if envs == [] then Ok((c, 0))
    else
      var due :- c.IsDue(envs[0]);
      if due then
        var c' :- c.Crank(envs[0]);
        var rest :- Fire(c', envs[1..]);
        Ok((rest.0, rest.1 + 1))
      else Fire(c, envs[1..])
  }

  ghost predicate ClockRuns(envs: seq<Env>) {
    && (forall i :: 0 <= i < |envs| ==> envs[i].Valid())
    && forall i, j :: 0 <= i < j < |envs| ==> envs[i].height <= envs[j].height && envs[i].time <= envs[j].time
  }

  /**
   * No drift and bounded rate, over any sequence of visits at non-decreasing heights and times: the last firing
   * keeps its phase, never passes the clock, and there are at most (now - start) / period firings.
   */
  lemma {:induction false} FiringRate(c: Cadence, envs: seq<Env>)
    requires Steady(c) && ClockRuns(envs) && Fire(c, envs).Ok?
    ensures var (c', n) := Fire(c, envs).value;
      && Steady(c') && SameInterval(c, c')
      && (Last(c') - Last(c)) % Period(c) == 0
      && (n > 0 ==> Last(c') <= Now(c, envs[|envs| - 1]))
      && (n > 0 ==> WithinRate(c, n, envs[|envs| - 1]))
  {
    if envs == [] {
      NotYet(c);
    } else {
      FiringsKeepPhase(c, envs, envs[|envs| - 1]);
    }
    var (c', n) := Fire(c, envs).value;
    if n > 0 {
      RateBound(c, c', n, envs[|envs| - 1]);
    }
  }

  ghost predicate Advanced(c: Cadence, c': Cadence, n: nat)
    requires Steady(c)
  {
    && Steady(c') && SameInterval(c, c')
    && (Last(c') - Last(c)) % Period(c) == 0
    && Last(c) + n * Period(c) <= Last(c')
  }

  ghost predicate FiredBy(c: Cadence, c': Cadence, n: nat, last: Env)
    requires Steady(c)
  {
    Advanced(c, c', n) && (n > 0 ==> Last(c') <= Now(c, last)) && (n == 0 ==> c' == c)
  }

  ghost predicate NoneAfter(envs: seq<Env>, last: Env) {
    forall i :: 0 <= i < |envs| ==> envs[i].Valid() && envs[i].height <= last.height && envs[i].time <= last.time
  }

  lemma {:induction false} FiringsKeepPhase(c: Cadence, envs: seq<Env>, last: Env)
    requires Steady(c) && NoneAfter(envs, last) && Fire(c, envs).Ok?
    ensures FiredBy(c, Fire(c, envs).value.0, Fire(c, envs).value.1, last)
    decreases |envs|
  {
    if envs == [] {
      NotFired(c, last);
    } else if c.IsDue(envs[0]) == Ok(true) {
      var c1 := c.Crank(envs[0]).value;
      FiredNow(c, envs[0]);
      SecondsMonotone(envs[0].time, last.time);
      FiringsKeepPhase(c1, envs[1..], last);
      FiredBefore(c, c1, Fire(c1, envs[1..]).value.0, Fire(c1, envs[1..]).value.1, last);
    } else {
      FiringsKeepPhase(c, envs[1..], last);
    }
  }

  lemma {:induction false} FiredNow(c: Cadence, env: Env)
    requires Steady(c) && env.Valid() && c.IsDue(env) == Ok(true) && c.Crank(env).Ok?
    ensures var c1 := c.Crank(env).value;
      && Steady(c1) && SameInterval(c, c1) && Last(c) < Last(c1) <= Now(c, env)
      && (Last(c1) - Last(c)) % Period(c) == 0
  {
    DueCrankSucceeds(c, env);
    DueCrank(c, env);
  }

  lemma {:induction false} FiredBefore(c: Cadence, c1: Cadence, c': Cadence, n: nat, last: Env)
    requires Steady(c) && Steady(c1) && SameInterval(c, c1) && FiredBy(c1, c', n, last)
    requires Last(c) < Last(c1) <= Now(c, last) && (Last(c1) - Last(c)) % Period(c) == 0
    ensures FiredBy(c, c', n + 1, last)
  {
    AdvancedOnce(c, c1, c', n);
  }

  lemma {:induction false} NotFired(c: Cadence, last: Env)
    requires Steady(c)
    ensures FiredBy(c, c, 0, last)
  {
    NotYet(c);
  }

  lemma {:induction false} AdvancedOnce(c: Cadence, c1: Cadence, c': Cadence, n: nat)
    requires Steady(c) && Steady(c1) && SameInterval(c, c1) && Advanced(c1, c', n)
    requires Last(c) < Last(c1) && (Last(c1) - Last(c)) % Period(c) == 0
    ensures Advanced(c, c', n + 1)
  {
    var d := Period(c);
    SumOfMultiples(Last(c') - Last(c1), Last(c1) - Last(c), d);
    PositiveMultiple(Last(c1) - Last(c), d);
    assert (n + 1) * d == n * d + d;
  }

  lemma {:induction false} AdvancedTwice(c: Cadence, c1: Cadence, c': Cadence, n: nat)
    requires Steady(c) && Advanced(c, c1, n) && Steady(c') && SameInterval(c1, c')
    requires Last(c1) < Last(c') && (Last(c') - Last(c1)) % Period(c1) == 0
    ensures Advanced(c, c', n + 1)
  {
    var d := Period(c);
    SumOfMultiples(Last(c') - Last(c1), Last(c1) - Last(c), d);
    PositiveMultiple(Last(c') - Last(c1), d);
    assert (n + 1) * d == n * d + d;
  }

  /** One more firing, no later than `end`, after those that led from `c` to `c1`. */
  lemma {:induction false} AdvancedAgain(c: Cadence, c1: Cadence, n: nat, env: Env, end: Env)
    requires Steady(c) && Advanced(c, c1, n) && c1.IsDue(env) == Ok(true) && c1.Crank(env).Ok?
    requires env.Valid() && env.height <= end.height && env.time <= end.time
    ensures var c' := c1.Crank(env).value; Advanced(c, c', n + 1) && Last(c') <= Now(c, end)
  {
    DueCrankSucceeds(c1, env);
    DueCrank(c1, env);
    AdvancedTwice(c, c1, c1.Crank(env).value, n);
    SecondsMonotone(env.time, end.time);
  }

  lemma {:induction false} NotYet(c: Cadence)
    requires Steady(c)
    ensures Advanced(c, c, 0)
  {
    MultipleMod(0, Period(c));
  }

  /** At most one firing per period between the last one and `end`. */
  predicate WithinRate(c: Cadence, n: nat, end: Env)
    requires Steady(c)
  {
    n > 0 ==> n <= (Now(c, end) - Last(c)) / Period(c)
  }

  lemma {:induction false} RateBound(c: Cadence, c': Cadence, n: nat, end: Env)
    requires Steady(c) && Advanced(c, c', n) && (n > 0 ==> Last(c') <= Now(c, end))
    ensures WithinRate(c, n, end)
  {
    DivAtLeast(Now(c, end) - Last(c), Period(c), n);
  }

  lemma {:induction false} FireLater(c: Cadence, envs: seq<Env>)
    requires envs != [] && c.IsDue(envs[0]) == Ok(false)
    ensures Fire(c, envs) == Fire(c, envs[1..])
  {
  }

  lemma {:induction false} FireNow(c: Cadence, envs: seq<Env>, c1: Cadence, c': Cadence, n: nat)
    requires envs != [] && c.IsDue(envs[0]) == Ok(true) && c.Crank(envs[0]) == Ok(c1)
    requires Fire(c1, envs[1..]) == Ok((c', n))
    ensures Fire(c, envs) == Ok((c', n + 1))
  {
  }

  function Periods(elapsed: nat, d: nat): nat
    requires d > 0
  {
    elapsed / d
  }

  ghost predicate EveryBlock(start: nat, envs: seq<Env>) {
    forall i :: 0 <= i < |envs| ==> envs[i].Valid() && envs[i].height == start + 1 + i
  }

  /** A keeper that looks at a block cadence in every block misses nothing: it fires exactly every `interval` blocks. */
  lemma {:induction false} EveryBlockFiresOnTime(d: nat, p: nat, start: nat, envs: seq<Env>)
    requires d > 0 && p <= start < p + d && EveryBlock(start, envs) && start + |envs| + d <= MAX_U64
    ensures var n := Periods(start + |envs| - p, d);
      Fire(Blocks(d, Some(p)), envs) == Ok((Blocks(d, Some(p + n * d)), n))
    decreases |envs|
  {
    var x := start + |envs| - p;
    if envs == [] {
      DivModUnique(x, d, 0, x);
    } else if start + 1 == p + d {
      EveryBlockFiresOnTime(d, p + d, start + 1, envs[1..]);
      LaterQuotient(x, d, p);
      OnTime(d, p, envs[0]);
      FireNow(Blocks(d, Some(p)), envs, Blocks(d, Some(p + d)), Blocks(d, Some(p + x / d * d)), (x - d) / d);
    } else {
      EveryBlockFiresOnTime(d, p, start + 1, envs[1..]);
      FireLater(Blocks(d, Some(p)), envs);
    }
  }

  lemma {:induction false} OnTime(d: nat, p: nat, env: Env)
    requires d > 0 && env.height == p + d && p + d + d <= MAX_U64
    ensures Blocks(d, Some(p)).IsDue(env) == Ok(true) && Blocks(d, Some(p)).Crank(env) == Ok(Blocks(d, Some(p + d)))
  {
  }

  lemma {:induction false} LaterQuotient(x: nat, d: nat, p: nat)
    requires d > 0 && x >= d
    ensures (x - d) / d + 1 == x / d && p + d + (x - d) / d * d == p + x / d * d
  {
    DivMod(x, d);
    var q := x / d;
    assert x - d == (q - 1) * d + x % d;
    DivModUnique(x - d, d, q - 1, x % d);
  }

  // ---- The trigger condition against the cadence ----

  /** For blocks the emitted condition holds exactly when the cadence is due. */
  lemma {:induction false} BlocksConditionIsDue(c: Cadence, asked: Env, env: Env)
    requires c.Blocks? && c.previous.Some? && c.IntoCondition(asked).Ok?
    ensures c.IsDue(env) == Ok(c.IntoCondition(asked).value.IsSatisfied(env))
  {
  }

  /** For time the condition implies due; due precedes it by less than a second, and only within its second. */
  lemma {:induction false} TimeConditionIsDue(c: Cadence, asked: Env, env: Env)
    requires c.Time? && c.previous.Some? && c.IntoCondition(asked).Ok?
    ensures var condition := c.IntoCondition(asked).value;
      && c.IsDue(env).Ok?
      && (condition.IsSatisfied(env) ==> c.IsDue(env).value)
      && (c.IsDue(env).value ==> env.time + NANOS > condition.time)
      && (c.IsDue(env).value ==>
            (condition.IsSatisfied(env) <==>
                Seconds(env.time) > Last(c) + Period(c) || env.time % NANOS >= c.previous.value % NANOS))
  {
    var t := c.previous.value + Seconds(c.duration) * NANOS;
    SecondsPlus(c.previous.value, Seconds(c.duration));
    assert t % NANOS == c.previous.value % NANOS;
    if env.time >= t {
      SecondsMonotone(t, env.time);
    }
  }

  // ---- Cron cadences ----

  /**
   * A cron crank stores as `previous` an occurrence that is still to come, and the cadence is then due exactly from
   * the occurrence after that one on.
   */
  lemma {:induction false} CronDueExactly(c: Cadence, env: Env, later: Env)
    requires c.Cron? && c.Crank(env).Ok? && later.cron == env.cron && later.Valid() && later.height < MAX_U64
    ensures var c' := c.Crank(env).value;
      && c'.Cron? && c'.expr == c.expr && c'.previous.Some?
      && var following := env.cron(c.expr, c'.previous.value);
      (c'.IsDue(later) == Ok(true) <==> following.At? && later.time >= following.seconds * NANOS)
  {
  }

  /**
   * An expression with no further occurrence is never due again, asks for a trigger that never fires, and aborts the
   * crank; one that does not parse is an error throughout.
   */
  lemma {:induction false} CronEnds(c: Cadence, p: nat, env: Env, later: Env)
    requires c.Cron? && c.previous == Some(p) && env.Valid() && later.height < MAX_U64
    ensures env.cron(c.expr, p) == Never ==>
              c.IntoCondition(env).Ok? && !c.IntoCondition(env).value.IsSatisfied(later)
    ensures env.cron(c.expr, p) == Never && env.height < MAX_U64 ==> c.IsDue(env) == Ok(false)
    ensures env.cron(c.expr, Max(p, env.time)) == Never ==> c.Crank(env) == Panic
    ensures env.cron(c.expr, p) == Malformed ==> c.IsDue(env) == Err && c.IntoCondition(env) == Err
    ensures env.cron(c.expr, Max(p, env.time)) == Malformed ==> c.Crank(env) == Err
  {
  }

  type Calendar = nat -> nat

  /**
   * The expression has occurrences `occ(0) < occ(1) < ..`, in seconds, and answers with the first one after an
   * instant.
   */
  ghost predicate Keeps(cron: (string, nat) -> Occurrence, expr: string, occ: Calendar) {
    && Rises(occ)
    && (forall t: nat, j: nat :: Spans(occ, j, t) ==> cron(expr, t) == At(occ(j + 1)))
  }

  predicate RisesAt(occ: Calendar, j: nat) {
    occ(j) < occ(j + 1)
  }

  ghost predicate Rises(occ: Calendar) {
    forall j: nat :: RisesAt(occ, j)
  }

  /** Instant `t` lies from occurrence `j` up to the next one. */
  predicate Spans(occ: Calendar, j: nat, t: nat) {
    occ(j) * NANOS <= t < occ(j + 1) * NANOS
  }

  /** The cadence whose `previous` is occurrence `j`. */
  function OnOccurrence(expr: string, occ: Calendar, j: nat): Cadence {
    Cron(expr, Some(occ(j) * NANOS))
  }

  lemma {:induction false} CalendarGrows(occ: Calendar, i: nat, j: nat)
    requires Rises(occ) && i <= j
    ensures occ(i) + (j - i) <= occ(j)
    decreases j - i
  {
    if i < j {
      CalendarGrows(occ, i, j - 1);
      assert RisesAt(occ, j - 1);
    }
  }

  lemma {:induction false} CalendarAt(occ: Calendar, i: nat, t: nat) returns (j: nat)
    requires Rises(occ) && occ(i) * NANOS <= t
    ensures i <= j && Spans(occ, j, t)
    decreases t - occ(i) * NANOS
  {
    j := i;
    assert RisesAt(occ, i);
    if occ(i + 1) * NANOS <= t {
      j := CalendarAt(occ, i + 1, t);
    }
  }

  /** Looked at with occurrence `s` as `previous`: due from the next occurrence on. */
  lemma {:induction false} CronLook(expr: string, occ: Calendar, s: nat, env: Env)
    requires Keeps(env.cron, expr, occ) && env.Valid()
    ensures OnOccurrence(expr, occ, s).IsDue(env).Ok? ==>
              (OnOccurrence(expr, occ, s).IsDue(env) == Ok(true) <==> occ(s + 1) * NANOS <= env.time)
    ensures occ(s + 1) * NANOS <= MAX_U64 ==> OnOccurrence(expr, occ, s).IsDue(env).Ok?
  {
    assert RisesAt(occ, s);
    assert Spans(occ, s, occ(s) * NANOS);
  }

  /** The trigger a cron cadence asks for fires at the next occurrence after the one it holds. */
  lemma {:induction false} CronCondition(expr: string, occ: Calendar, s: nat, env: Env)
    requires Keeps(env.cron, expr, occ) && occ(s + 1) * NANOS <= MAX_U64
    ensures OnOccurrence(expr, occ, s).IntoCondition(env) == Ok(TimestampElapsed(occ(s + 1) * NANOS))
  {
    assert RisesAt(occ, s);
    assert Spans(occ, s, occ(s) * NANOS);
  }

  /** A cron cadence that has never fired is due at once, and its first crank stores the next occurrence. */
  lemma {:induction false} CronFirstCrank(expr: string, occ: Calendar, j: nat, env: Env)
    requires Keeps(env.cron, expr, occ) && Spans(occ, j, env.time) && occ(j + 1) * NANOS <= MAX_U64
    ensures Cron(expr, None).IsDue(env) == Ok(true)
    ensures Cron(expr, None).Crank(env) == Ok(OnOccurrence(expr, occ, j + 1))
  {
  }

  /** A crank between occurrences `j` and `j + 1` stores the latter. */
  lemma {:induction false} CronCrank(expr: string, occ: Calendar, s: nat, j: nat, env: Env)
    requires Keeps(env.cron, expr, occ) && Spans(occ, j, env.time) && s <= j
    ensures OnOccurrence(expr, occ, s).Crank(env).Ok? ==>
        OnOccurrence(expr, occ, s).Crank(env) == Ok(OnOccurrence(expr, occ, j + 1))
    ensures occ(j + 1) * NANOS <= MAX_U64 ==> OnOccurrence(expr, occ, s).Crank(env).Ok?
  {
    CalendarGrows(occ, s, j);
  }

  /** A due look advances by at least two occurrences. */
  lemma {:induction false} CronFiresOnce(expr: string, occ: Calendar, s: nat, q: nat, env: Env) returns (j: nat)
    requires Keeps(env.cron, expr, occ) && env.Valid() && env.time < occ(q + 1) * NANOS
    requires OnOccurrence(expr, occ, s).IsDue(env) == Ok(true) && OnOccurrence(expr, occ, s).Crank(env).Ok?
    ensures s + 1 <= j <= q && OnOccurrence(expr, occ, s).Crank(env) == Ok(OnOccurrence(expr, occ, j + 1))
  {
    CronLook(expr, occ, s, env);
    j := CalendarAt(occ, s + 1, env.time);
    CronCrank(expr, occ, s, j, env);
    if j > q {
      CalendarGrows(occ, q + 1, j);
    }
  }

  ghost predicate OneCalendar(envs: seq<Env>, expr: string, occ: Calendar) {
    forall i :: 0 <= i < |envs| ==> envs[i].Valid() && Keeps(envs[i].cron, expr, occ)
  }

  /**
   * Over every sequence of looks before occurrence `q + 1`, starting at occurrence `s`: each firing takes up at least
   * two occurrences, so at most every second one fires.
   */
  lemma {:induction false} CronFiringRate(expr: string, occ: Calendar, s: nat, q: nat, envs: seq<Env>) returns (m: nat)
    requires OneCalendar(envs, expr, occ) && forall i :: 0 <= i < |envs| ==> envs[i].time < occ(q + 1) * NANOS
    requires Fire(OnOccurrence(expr, occ, s), envs).Ok?
    ensures var (c', n) := Fire(OnOccurrence(expr, occ, s), envs).value;
      && c' == OnOccurrence(expr, occ, m) && m >= s + 2 * n
      && (n == 0 ==> m == s)
      && (n > 0 ==> m <= q + 1 && n <= (q + 1 - s) / 2)
    decreases |envs|
  {
    if envs == [] {
      m := s;
    } else if OnOccurrence(expr, occ, s).IsDue(envs[0]) == Ok(true) {
      var j := CronFiresOnce(expr, occ, s, q, envs[0]);
      m := CronFiringRate(expr, occ, j + 1, q, envs[1..]);
    } else {
      m := CronFiringRate(expr, occ, s, q, envs[1..]);
    }
  }

  /** One look at each occurrence after occurrence `s`. */
  ghost predicate EveryOccurrence(envs: seq<Env>, expr: string, occ: Calendar, s: nat) {
    && OneCalendar(envs, expr, occ)
    && (forall i :: 0 <= i < |envs| ==> envs[i].time == occ(s + 1 + i) * NANOS)
    && occ(s + |envs| + 2) * NANOS <= MAX_U64
  }

  lemma {:induction false} TwoLooks(expr: string, occ: Calendar, s: nat, envs: seq<Env>, c': Cadence, n: nat)
    requires EveryOccurrence(envs, expr, occ, s) && |envs| >= 2
    requires Fire(OnOccurrence(expr, occ, s + 2), envs[1..][1..]) == Ok((c', n))
    ensures Fire(OnOccurrence(expr, occ, s), envs) == Ok((c', n + 1))
  {
    var c, c2 := OnOccurrence(expr, occ, s), OnOccurrence(expr, occ, s + 2);
    CronFiresAt(expr, occ, s, |envs|, envs[0]);
    CronRests(expr, occ, s + 2, |envs|, envs[1]);
    FireLater(c2, envs[1..]);
    FireNow(c, envs, c2, c', n);
  }

  lemma {:induction false} OneLook(expr: string, occ: Calendar, s: nat, envs: seq<Env>)
    requires EveryOccurrence(envs, expr, occ, s) && |envs| == 1
    ensures Fire(OnOccurrence(expr, occ, s), envs) == Ok((OnOccurrence(expr, occ, s + 2), 1))
  {
    var c, c2 := OnOccurrence(expr, occ, s), OnOccurrence(expr, occ, s + 2);
    CronFiresAt(expr, occ, s, 1, envs[0]);
    assert Fire(c2, envs[1..]) == Ok((c2, 0));
    FireNow(c, envs, c2, c2, 0);
  }

  /**
   * A keeper that looks at every occurrence fires at every second one, the first, the third, the fifth: `n` times in
   * `2 * n` or `2 * n - 1` looks.
   */
  lemma {:induction false} CronFiresEverySecond(expr: string, occ: Calendar, s: nat, envs: seq<Env>, n: nat)
    requires EveryOccurrence(envs, expr, occ, s) && (|envs| == 2 * n || |envs| + 1 == 2 * n)
    ensures Fire(OnOccurrence(expr, occ, s), envs) == Ok((OnOccurrence(expr, occ, s + 2 * n), n))
    decreases n
  {
    if |envs| == 1 {
      OneLook(expr, occ, s, envs);
    } else if |envs| >= 2 {
      LaterOccurrences(expr, occ, s, envs);
      CronFiresEverySecond(expr, occ, s + 2, envs[1..][1..], n - 1);
      TwoLooks(expr, occ, s, envs, OnOccurrence(expr, occ, s + 2 * n), n - 1);
    }
  }

  lemma {:induction false} LaterOccurrences(expr: string, occ: Calendar, s: nat, envs: seq<Env>)
    requires EveryOccurrence(envs, expr, occ, s) && |envs| >= 2
    ensures EveryOccurrence(envs[1..][1..], expr, occ, s + 2)
  {
    forall i | 0 <= i < |envs| - 2 ensures envs[1..][1..][i] == envs[i + 2] {
    }
  }

  lemma {:induction false} CronFiresAt(expr: string, occ: Calendar, s: nat, n: nat, env: Env)
    requires Keeps(env.cron, expr, occ) && env.Valid() && env.time == occ(s + 1) * NANOS && n > 0
    requires occ(s + n + 2) * NANOS <= MAX_U64
    ensures OnOccurrence(expr, occ, s).IsDue(env) == Ok(true) &&
        OnOccurrence(expr, occ, s).Crank(env) == Ok(OnOccurrence(expr, occ, s + 2))
  {
    CalendarGrows(occ, s + 2, s + n + 2);
    CronLook(expr, occ, s, env);
    assert RisesAt(occ, s + 1);
    CronCrank(expr, occ, s, s + 1, env);
  }

  lemma {:induction false} CronRests(expr: string, occ: Calendar, s: nat, n: nat, env: Env)
    requires Keeps(env.cron, expr, occ) && env.Valid() && env.time == occ(s) * NANOS && n > 0
    requires occ(s + n) * NANOS <= MAX_U64
    ensures OnOccurrence(expr, occ, s).IsDue(env) == Ok(false)
  {
    CalendarGrows(occ, s + 1, s + n);
    assert RisesAt(occ, s);
    CronLook(expr, occ, s, env);
  }
}
