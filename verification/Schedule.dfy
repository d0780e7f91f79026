/** The schedule condition: execute stages a cranked cadence, commit installs it. */
module Schedules {
  import opened Outcomes
  import opened Cadences
  import opened Money
  import opened Runs

  /** What a schedule can ask the chain about during one call. */
  datatype View = View(env: Env, balance: Denom -> Outcome<nat>)

  datatype Schedule = Schedule(
    scheduler: Address,
    manager: Address,
    cadence: Cadence,
    next: Option<Cadence>,
    rebate: seq<Coin>,
    executors: seq<Address>,
    jitter: Option<nat>,
    executions: Option<nat>,
    maxExecutions: Option<nat>)

  function Executions(s: Schedule): nat {
    if s.executions.Some? then s.executions.value else 0
  }

  function CanExecute(s: Schedule, env: Env): Outcome<bool> {
    if s.maxExecutions.Some? && s.executions.Some? && s.executions.value >= s.maxExecutions.value then Ok(false)
    else s.cadence.IsDue(env)
  }

  function CheckMax(s: Schedule): Outcome<nat> {
    if s.maxExecutions.None? then Ok(0)
    else
      var n :- CheckedU32(Executions(s) + 1);
      if n > s.maxExecutions.value then Err else Ok(n)
  }

  /** Stages the cranked cadence in `next` when due; the condition is that of the staged or the current cadence. */
  function Stage(s: Schedule, env: Env): Outcome<(TriggerCondition, Schedule)> {
    var due :- s.cadence.IsDue(env);
    if due then
      var current :- s.cadence.Crank(env);
      var condition :- current.IntoCondition(env);
      Ok((condition, s.(next := Some(current))))
    else
      var condition :- s.cadence.IntoCondition(env);
      Ok((condition, s))
  }

  function ExecuteWith(s: Schedule, env: Env, rebate: Outcome<Coins>): Outcome<(seq<Message>, Schedule)> {
    var _ :- CheckMax(s);
    var funds :- rebate;
    var (condition, staged) :- Stage(s, env);
    Ok(([CreateTrigger(s.scheduler, condition, s.manager, s.executors, s.jitter, funds)], staged))
  }

  /** What `execute_unsafe` does, as a function. */
  function Execute(s: Schedule, view: View): Outcome<(seq<Message>, Schedule)> {
    ExecuteWith(s, view.env, Capped(s.rebate, view.balance))
  }

  method ExecuteUnsafe(s: Schedule, view: View) returns (r: Outcome<(seq<Message>, Schedule)>)
    ensures r == Execute(s, view)
  {
    var checked := CheckMax(s);
    if checked.IsFailure() {
      return checked.PropagateFailure();
    }
    var rebate := CollectCapped(s.rebate, view.balance);
    r := ExecuteWith(s, view.env, rebate);
  }

  function Commit(s: Schedule): Outcome<Schedule> {
    match s.next
    case None => Ok(s)
    case Some(c) =>
      var n :- CheckedU32(Executions(s) + 1);
      Ok(s.(cadence := c, next := None, executions := Some(n)))
  }

  /** One whole visit: messages emitted, whether the success side was taken, and the schedule left behind. */
  datatype Result = Result(messages: seq<Message>, success: bool, schedule: Schedule)

  /**
   * The order in which a `Process` continuation does it: execute and save (an error saves the schedule unchanged),
   * then choose the branch on the saved schedule, then commit it.
   */
  function Visit(s: Schedule, before: View, after: Env): Outcome<Result> {
    var executed := Execute(s, before);
    if executed.Panic? then Panic
    else
      var (messages, saved) := if executed.Ok? then executed.value else ([], s);
      var can := CanExecute(saved, after);
      if can.Panic? then Panic
      else
        var committed :- Commit(saved);
        Ok(Result(messages, can == Ok(true), committed))
  }

  // ---- What a visit achieves ----

  predicate QueriesSucceed(s: Schedule, view: View) {
    forall k :: 0 <= k < |s.rebate| ==> view.balance(s.rebate[k].denom).Ok?
  }

  /** Guaranteed by `init`, which rejects cron expressions that do not parse. */
  ghost predicate Parses(c: Cadence, env: Env) {
    c.Cron? ==> forall t :: env.cron(c.expr, t) != Malformed
  }

  predicate WithinMax(s: Schedule) {
    s.maxExecutions.Some? ==> Executions(s) < s.maxExecutions.value
  }

  /** May execute now: due, and within the limit. */
  predicate Ripe(s: Schedule, env: Env) {
    s.cadence.IsDue(env) == Ok(true) && WithinMax(s)
  }

  /** The schedule once cadence `c` is committed: counted, with nothing staged. */
  function Committed(s: Schedule, c: Cadence): Schedule {
    s.(cadence := c, next := None, executions := Some(Executions(s) + 1))
  }

  /**
   * With queries that succeed and a limit of at least one, the success side is taken exactly when the cadence is due
   * and the limit is not reached; then the crank is committed, over anything staged. Otherwise what the user had
   * staged is committed and counted, if anything was, and nothing else changes. Either way nothing stays staged. So
   * the count goes with the success side exactly when nothing was staged or the schedule may execute.
   */
  lemma {:induction false} VisitCommitsOnSuccess(s: Schedule, before: View)
    requires QueriesSucceed(s, before) && Parses(s.cadence, before.env) && s.maxExecutions != Some(0)
    requires Visit(s, before, before.env).Ok?
    ensures var v := Visit(s, before, before.env).value;
      && v.schedule.next.None?
      && (v.success <==> Ripe(s, before.env))
      && (v.success ==>
            && s.cadence.Crank(before.env).Ok?
            && v.schedule == Committed(s, s.cadence.Crank(before.env).value))
      && (!v.success ==> v.schedule == if s.next.Some? then Committed(s, s.next.value) else s)
      && ((v.success <==> v.schedule.executions != s.executions) <==> s.next.None? || Ripe(s, before.env))
  {
    CappedQueries(s.rebate, before.balance);
  }

  /** Counter and clock have room: for one more execution, and for two more periods. */
  predicate HasRoom(s: Schedule, env: Env) {
    && !s.cadence.Cron? && Executions(s) < MAX_U32
    && var interval := if s.cadence.Blocks? then s.cadence.interval else s.cadence.duration + NANOS;
    && (if s.cadence.Blocks? then env.height else env.time) + 2 * interval <= MAX_U64
    && (s.cadence.previous.Some? ==> Period(s.cadence) > 0 && s.cadence.previous.value + interval <= MAX_U64)
  }

  /** A block or time schedule with room and a period of its own always gets through its visit, due or not. */
  lemma {:induction false} VisitGoesThrough(s: Schedule, before: View)
    requires QueriesSucceed(s, before) && HasRoom(s, before.env) && before.env.Valid()
    ensures Visit(s, before, before.env).Ok?
  {
    CappedQueries(s.rebate, before.balance);
    if s.cadence.previous.Some? {
      DueExactly(s.cadence, before.env);
      if s.cadence.IsDue(before.env) == Ok(true) {
        DueCrank(s.cadence, before.env);
      }
    }
  }

  /**
   * A count within the limit passes it in one visit exactly when something is staged and the limit is reached,
   * whether the schedule is due or not.
   */
  lemma {:induction false} CountPassesLimit(s: Schedule, before: View)
    requires QueriesSucceed(s, before) && Parses(s.cadence, before.env)
    requires s.maxExecutions.Some? && Executions(s) <= s.maxExecutions.value
    requires Visit(s, before, before.env).Ok?
    ensures Executions(Visit(s, before, before.env).value.schedule) > s.maxExecutions.value <==>
            s.next.Some? && Executions(s) == s.maxExecutions.value
  {
    CappedQueries(s.rebate, before.balance);
  }

  /** A block schedule with a rebate, given what is staged, its count and its limit. */
  function Example(next: Option<Cadence>, executions: Option<nat>, maxExecutions: Option<nat>): Schedule {
    Schedule("scheduler", "manager", Blocks(10, Some(100)), next, [Coin("rune", 1)], [], None, executions,
        maxExecutions)
  }

  function ExampleView(height: nat, balance: Outcome<nat>): View {
    View(Env(height, 0, (e: string, t: nat) => Never), (d: Denom) => balance)
  }

  /** An input each: a cadence committed before it is due, and a count that passes its limit. */
  lemma {:induction false} StagedByTheUser(c: Cadence)
    ensures var early := Example(Some(c), None, None);
      var v := Visit(early, ExampleView(105, Ok(1)), ExampleView(105, Ok(1)).env);
      v.Ok? && !v.value.success && v.value.schedule == Committed(early, c)
    ensures var full := Example(Some(c), Some(1), Some(1));
      var v := Visit(full, ExampleView(110, Ok(1)), ExampleView(110, Ok(1)).env);
      v.Ok? && !v.value.success && v.value.schedule.executions == Some(2)
  {
    var early, full := Example(Some(c), None, None), Example(Some(c), Some(1), Some(1));
    CappedQueries(early.rebate, ExampleView(105, Ok(1)).balance);
    assert full.cadence.IsDue(ExampleView(110, Ok(1)).env) == Ok(true);
  }

  /**
   * Where the two part ways with nothing staged. For a schedule that may execute, the success side is taken with no
   * crank and no execution counted exactly when a rebate balance cannot be queried or the limit is zero and uncounted.
   */
  lemma {:induction false} SuccessWithoutCrank(s: Schedule, before: View)
    requires s.next.None? && Parses(s.cadence, before.env) && CanExecute(s, before.env) == Ok(true)
    requires Visit(s, before, before.env).Ok?
    ensures var v := Visit(s, before, before.env).value;
      && v.success
      && (v.schedule == s <==>
          Capped(s.rebate, before.balance).Err? || (s.maxExecutions == Some(0) && s.executions.None?))
  {
    if s.maxExecutions == Some(0) && s.executions.None? {
      assert Execute(s, before) == Err;
    }
  }

  /** An input for each of the two: a failed balance query, and a limit of zero. */
  lemma {:induction false} SuccessesWithoutCrank()
    ensures var s, view := Example(None, None, None), ExampleView(110, Err);
      Visit(s, view, view.env) == Ok(Result([], true, s))
    ensures var s, view := Example(None, None, Some(0)), ExampleView(110, Ok(1));
      Visit(s, view, view.env) == Ok(Result([], true, s))
  {
    var s, view := Example(None, None, None), ExampleView(110, Err);
    assert s.rebate[..0] == [];
    assert Capped(s.rebate, view.balance) == Err;
  }

  /** A visit as a step that counts when the success side is taken. */
  function VisitStep(s: Schedule, view: View): Outcome<(Schedule, bool)> {
    var v :- Visit(s, view, view.env);
    Ok((v.schedule, v.success))
  }

  ghost predicate GoodView(s: Schedule, view: View) {
    QueriesSucceed(s, view) && Parses(s.cadence, view.env)
  }

  ghost predicate GoodViews(s: Schedule, views: seq<View>) {
    forall k :: 0 <= k < |views| ==> GoodView(s, views[k])
  }

  /** Everything but the cadence's progress and the execution count is fixed for life. */
  predicate SameTerms(s: Schedule, s': Schedule) {
    && s'.rebate == s.rebate && s'.maxExecutions == s.maxExecutions && s'.scheduler == s.scheduler
    && s'.manager == s.manager && s'.executors == s.executors && s'.jitter == s.jitter
    && SameInterval(s.cadence, s'.cadence)
  }

  lemma {:induction false} CrankSameInterval(c: Cadence, env: Env)
    requires c.Crank(env).Ok?
    ensures SameInterval(c, c.Crank(env).value)
  {
  }

  /**
   * A schedule after `n` counted executions: nothing staged, same terms, the count advanced by `n` within the limit.
   */
  predicate Aged(s: Schedule, s': Schedule, n: nat) {
    && s'.next.None? && SameTerms(s, s')
    && s'.executions == (if n == 0 then s.executions else Some(Executions(s) + n))
    && (s.maxExecutions.Some? ==> n == 0 || Executions(s) + n <= s.maxExecutions.value)
  }

  lemma {:induction false} VisitAges(s: Schedule, s': Schedule, n: nat, view: View)
    requires Aged(s, s', n) && s.maxExecutions != Some(0)
    requires GoodView(s, view) && Visit(s', view, view.env).Ok?
    ensures var v := Visit(s', view, view.env).value;
      Aged(s, v.schedule, if v.success then n + 1 else n)
  {
    assert Parses(s'.cadence, view.env);
    VisitCommitsOnSuccess(s', view);
    if s'.cadence.Crank(view.env).Ok? {
      CrankSameInterval(s'.cadence, view.env);
    }
  }

  /** Over any sequence of visits, `executions` counts the successes and never takes them past the limit. */
  lemma {:induction false} ExecutionsAreBounded(s: Schedule, views: seq<View>)
    requires s.next.None? && s.maxExecutions != Some(0) && GoodViews(s, views)
    requires Repeat(VisitStep, s, views).Ok?
    ensures var (s', n) := Repeat(VisitStep, s, views).value; Aged(s, s', n)
  {
    var inv := (s', n) => Aged(s, s', n);
    forall k, t, n | 0 <= k < |views| ensures StepKeeps(VisitStep, views[k], inv, t, n) {
      if Aged(s, t, n) && VisitStep(t, views[k]).Ok? {
        VisitAges(s, t, n, views[k]);
      }
    }
    RepeatKeeps(VisitStep, s, views, inv);
  }

  /** Every successful execute emits exactly one trigger, whose condition is that of the cadence commit will install. */
  lemma {:induction false} TriggerMatchesCommit(s: Schedule, before: View)
    requires s.next.None? && Execute(s, before).Ok?
    ensures var (messages, staged) := Execute(s, before).value;
      && |messages| == 1 && messages[0].CreateTrigger?
      && messages[0].target == s.manager && messages[0].scheduler == s.scheduler
      && messages[0].executors == s.executors && messages[0].jitter == s.jitter
      && Capped(s.rebate, before.balance) == Ok(messages[0].funds)
      && (Commit(staged).Ok? ==>
            && Commit(staged).value.cadence.IntoCondition(before.env) == Ok(messages[0].condition)
            && (!s.cadence.Cron? ==> Commit(staged).value.cadence.previous.Some?))
  {
  }

  /**
   * Each rebate is capped on its own, so a trigger asks for more than the balance of a denom exactly when there is a
   * balance, two rebates name the denom, and together they exceed it. Its message then fails; what the visit commits
   * does not depend on that: a ripe schedule is cranked and counted all the same.
   */
  lemma {:induction false} RebateOverdraws(s: Schedule, before: View, d: Denom)
    requires s.next.None? && GoodView(s, before) && before.balance(d).Ok?
    requires Visit(s, before, before.env).Ok? && Execute(s, before).Ok?
    ensures var v := Visit(s, before, before.env).value;
      && |v.messages| == 1 && v.messages[0].CreateTrigger?
      && (AmountOf(v.messages[0].funds, d) > before.balance(d).value <==>
          before.balance(d).value > 0 && Requests(s.rebate, d) >= 2 && Total(s.rebate, d) > before.balance(d).value)
      && (Ripe(s, before.env) ==>
            s.cadence.Crank(before.env).Ok? && v.schedule == Committed(s, s.cadence.Crank(before.env).value))
  {
    TriggerMatchesCommit(s, before);
    VisitCommitsOnSuccess(s, before);
    CappedOverdraws(s.rebate, before.balance, d);
  }

  /** An input for it: one rune twice, with a balance of one. */
  lemma {:induction false} RebateAskedTwice()
    ensures var s := Example(None, None, None).(rebate := [Coin("rune", 1), Coin("rune", 1)]);
      var view := ExampleView(110, Ok(1));
      var v := Visit(s, view, view.env);
      && v.Ok? && v.value.success && v.value.schedule.executions == Some(1)
      && |v.value.messages| == 1 && v.value.messages[0].CreateTrigger?
      && AmountOf(v.value.messages[0].funds, "rune") == 2
  {
    var rebate, view := [Coin("rune", 1), Coin("rune", 1)], ExampleView(110, Ok(1));
    assert rebate[..1] == [Coin("rune", 1)] && rebate[..1][..0] == [];
    assert Capped(rebate[..1], view.balance) == Ok(map["rune" := 1]);
    assert map["rune" := 1]["rune" := 2] == map["rune" := 2];
    assert rebate[1] == Coin("rune", 1);
    assert Capped(rebate, view.balance) == Ok(Add(map["rune" := 1], "rune", 1));
  }

  /** Whenever the trigger's condition comes true, the committed cadence is due; for blocks also the other way round. */
  lemma {:induction false} TriggerFiresWhenDue(s: Schedule, before: View, later: Env)
    requires s.next.None? && !s.cadence.Cron? && Execute(s, before).Ok? && Commit(Execute(s, before).value.1).Ok?
    ensures var (messages, staged) := Execute(s, before).value;
      var c := Commit(staged).value.cadence;
      && messages[0].CreateTrigger?
      && (messages[0].condition.IsSatisfied(later) ==> c.IsDue(later) == Ok(true))
      && (c.Blocks? && c.IsDue(later) == Ok(true) ==> messages[0].condition.IsSatisfied(later))
      && (c.Time? && c.IsDue(later) == Ok(true) ==>
          messages[0].condition.TimestampElapsed? && later.time + NANOS > messages[0].condition.time)
  {
    TriggerMatchesCommit(s, before);
    var c := Commit(Execute(s, before).value.1).value.cadence;
    if c.Blocks? {
      BlocksConditionIsDue(c, before.env, later);
    } else if c.Time? {
      TimeConditionIsDue(c, before.env, later);
    }
  }
}
