/** How many checks a booking can cost: every check that is carried through
    spends a fixed amount of a potential that depends on the time left to the
    deadline alone. The checks that are not carried through are those whose alert
    could not be composed, and of these there may be any number. */
module CheckBudget {
  import opened Models
  import opened Matching
  import opened MatchingLaws
  import opened Worker
  import opened Jobs
  import opened Protocol
  import opened ProtocolLaws
  import opened History

  /** What one check costs. */
  const COST: int := 24 * HOUR

  /** The budget for the time left: slope 4 in the last three days, 2 in the days
      before, 1 beyond a fortnight. In checks: left/6 h, 12 + (left - 72 h)/12 h,
      and 34 + (left - 336 h)/24 h. */
  function Budget(left: int): int {
    if left <= 3 * DAY then 4 * left
    else if left <= 14 * DAY then 12 * COST + 2 * (left - 3 * DAY)
    else 34 * COST + (left - 14 * DAY)
  }

  /** Waiting out the cadence costs at least one check, across both boundaries. */
  lemma CadenceCostsACheck(left: int, later: int)
    requires 0 < left && later <= left - CadenceHours(Some(left)) * HOUR
    ensures Budget(later) <= Budget(left) - COST
  {
  }

  lemma BudgetIsPositive(left: int)
    requires 0 < left
    ensures 0 < Budget(left)
  {
  }

  /** The number of checks a budget allows: the budget in checks, rounded up. */
  function MaxChecks(left: int): int {
    (Budget(left) + COST - 1) / COST
  }

  /** Time left at a check. */
  function LeftAt(deadline: int, x: Entry): int {
    deadline - CheckTime(x)
  }

  // ---------------------------------------------------------------- checks carried through

  /** A kept check that was carried through to its schedule. */
  predicate Completed(x: Entry) {
    x.Checked? && !x.verdict.Unpriceable?
  }

  function CompletedChecks(w: World): seq<Entry> {
    Pick(w.log, Completed)
  }

  /** What a visit adds to them. */
  lemma {:induction false} VisitCompletes(e: Env, w: World, now: int, o: Oracle, commits: bool)
    requires Due(w, now)
    ensures var w', kind := Apply(e, w, Pass(now, o, commits)), KindOf(e.cfg, w.job, o, now);
            var checks := CheckByKind(e, w.job, o, now, commits);
            if commits && RecordsRow(kind) && !kind.ZeroPrice? then
              && |checks| == 1 && CheckTime(checks[0]) == now
              && CompletedChecks(w') == CompletedChecks(w) + [checks[0]]
            else CompletedChecks(w') == CompletedChecks(w)
  {
    hide Apply, BestLikeForLike, Pick, MailByKind, CheckByKind, CheckEntries, Due, AfterRetry, KindOf, VerdictOf;
    VisitPick(e, w, now, o, commits, Completed);
    OnlyMail(e, w.job, o, now, commits);
    CheckRecordsBest(e, w.job, o, now, commits);
    UnpriceableIsZeroPrice(e, w.job, o, now, commits);
    var checks, mails := CheckByKind(e, w.job, o, now, commits), MailByKind(e, w.job, o, now, commits);
    assert checks != [] ==> checks[0] in checks;
    assert mails != [] ==> mails[0] in mails;
    assert Only(mails, Completed) == [];
  }

  /** The verdict names the kind of visit that raises over the price. */
  lemma UnpriceableIsZeroPrice(e: Env, j: Job, o: Oracle, now: int, commits: bool)
    ensures forall x :: x in CheckByKind(e, j, o, now, commits) ==>
              x.Checked? && (x.verdict.Unpriceable? <==> KindOf(e.cfg, j, o, now).ZeroPrice?)
  {
    hide BestLikeForLike, DropFloor;
  }

  // ---------------------------------------------------------------- the account

  /** The state of the account, `base` checks having been completed before: the
      new ones have each spent one unit, and the next is not before its cadence. */
  predicate Solvent(w: World, base: nat, deadline: int) {
    var xs := CompletedChecks(w);
    && base <= |xs|
    && !Pending(w.job.status)
    && w.job.terms.deadline.Some? && w.job.terms.deadline.value.at == deadline
    && (|xs| > base ==>
          var first, last := LeftAt(deadline, xs[base]), LeftAt(deadline, xs[|xs| - 1]);
          && 0 < last
          && Budget(last) <= Budget(first) - (|xs| - base - 1) * COST
          && (Monitored(w.job.status) && w.job.nextCheckAt.Some? ==>
                CheckTime(xs[|xs| - 1]) + CadenceHours(Some(last)) * HOUR <= w.job.nextCheckAt.value))
  }

  /** A visit that completes a check is before the deadline, and the job is then
      not looked at before the cadence has passed. */
  lemma {:induction false} CheckedVisit(e: Env, j: Job, o: Oracle, now: int)
    requires j.terms.deadline.Some?
    requires RecordsRow(KindOf(e.cfg, j, o, now)) && !KindOf(e.cfg, j, o, now).ZeroPrice?
    ensures now < j.terms.deadline.value.at
    ensures var k := ByKind(e.cfg, j, o, now).job;
            k.nextCheckAt.Some?
            && now + CadenceHours(Some(j.terms.deadline.value.at - now)) * HOUR <= k.nextCheckAt.value
  {
    hide BestLikeForLike, DropFloor, CadenceHours, ByKind;
    VisitSchedule(e.cfg, j, o, now);
    assert AfterRetry(j, o).terms == j.terms;
  }

  /** Any other visit never brings the next check forward. */
  lemma {:induction false} OtherVisit(e: Env, j: Job, o: Oracle, now: int)
    requires Selected(j, now)
    requires !RecordsRow(KindOf(e.cfg, j, o, now)) || KindOf(e.cfg, j, o, now).ZeroPrice?
    ensures var k := ByKind(e.cfg, j, o, now).job;
            k.nextCheckAt.Some? ==> j.nextCheckAt.value <= k.nextCheckAt.value
  {
    hide BestLikeForLike, DropFloor, ByKind, KindOf;
    VisitSchedule(e.cfg, j, o, now);
  }

  /** What a visit leaves of the terms and the schedule. */
  lemma {:induction false} VisitAccount(e: Env, w: World, now: int, o: Oracle, commits: bool)
    requires AtPrecision(e, w.job) && Due(w, now)
    ensures var j, k := w.job, Apply(e, w, Pass(now, o, commits)).job;
            && k.terms == j.terms
            && (!Pending(j.status) ==> !Pending(k.status))
            && k.nextCheckAt == if commits then ByKind(e.cfg, j, o, now).job.nextCheckAt else j.nextCheckAt
  {
    hide BestLikeForLike, ByKind, KindOf, CheckByKind, MailByKind, AfterRetry, InPass;
    PassByKind(e, w, now, o, commits);
    VisitMarks(e.cfg, w.job, o, now);
    hide Apply;
  }

  lemma {:induction false} VisitKeepsSolvent(e: Env, w: World, now: int, o: Oracle, commits: bool, base: nat,
                                             deadline: int)
    requires ValidEnv(e) && AtPrecision(e, w.job)
    requires Due(w, now) && Solvent(w, base, deadline)
    ensures Solvent(Apply(e, w, Pass(now, o, commits)), base, deadline)
  {
    hide Apply, AtPrecision, BestLikeForLike, ByKind, KindOf, CheckByKind, AfterRetry, CompletedChecks, Budget,
         CadenceHours;
    var w', j, xs := Apply(e, w, Pass(now, o, commits)), w.job, CompletedChecks(w);
    var kind := KindOf(e.cfg, j, o, now);
    VisitAccount(e, w, now, o, commits);
    VisitCompletes(e, w, now, o, commits);
    if commits && RecordsRow(kind) && !kind.ZeroPrice? {
      CheckedVisit(e, j, o, now);
      if |xs| > base {
        CadenceCostsACheck(LeftAt(deadline, xs[|xs| - 1]), deadline - now);
        assert (|xs| - base) * COST == (|xs| - base - 1) * COST + COST;
      }
    } else {
      if commits { OtherVisit(e, j, o, now); }
      assert CompletedChecks(w') == xs;
    }
  }

  lemma {:induction false} StepKeepsSolvent(e: Env, w: World, s: Step, base: nat, deadline: int)
    requires ValidEnv(e) && AtPrecision(e, w.job) && LeavesClock(s)
    requires Solvent(w, base, deadline)
    ensures Solvent(Apply(e, w, s), base, deadline)
  {
    hide CompletedChecks, Budget, CadenceHours;
    match s
    case Pass(now, o, commits) =>
      if Due(w, now) {
        VisitKeepsSolvent(e, w, now, o, commits, base, deadline);
      } else {
        PassNotDue(e, w, now, o, commits);
        SameCompletedChecks(w, Apply(e, w, s));
        hide Apply;
      }
    case Patch(_, _, _) =>
      ClockStep(e, w, s);
      SameCompletedChecks(w, Apply(e, w, s));
      hide Apply;
    case Cancel =>
      SameCompletedChecks(w, Apply(e, w, s));
    case Plan(_) =>
      SameCompletedChecks(w, Apply(e, w, s));
  }

  lemma SameCompletedChecks(w: World, w': World)
    requires w'.log == w.log
    ensures CompletedChecks(w') == CompletedChecks(w)
  {
  }

  lemma {:induction false} RunKeepsSolvent(e: Env, w: World, steps: seq<Step>, base: nat, deadline: int)
    requires ValidEnv(e) && AtPrecision(e, w.job) && Solvent(w, base, deadline)
    requires forall i :: 0 <= i < |steps| ==> LeavesClock(steps[i])
    ensures AtPrecision(e, Exec(e, w, steps).job) && Solvent(Exec(e, w, steps), base, deadline)
    decreases |steps|
  {
    if steps != [] {
      var front, s := steps[..|steps| - 1], steps[|steps| - 1];
      RunKeepsSolvent(e, w, front, base, deadline);
      StepKeepsPrecision(e, Exec(e, w, front), s);
      StepKeepsSolvent(e, Exec(e, w, front), s, base, deadline);
      hide Apply, Solvent, AtPrecision;
    }
  }

  lemma RoundedUp(n: int, budget: int)
    requires (n - 1) * COST < budget
    ensures n <= (budget + COST - 1) / COST
  {
  }

  /** The completed checks a stretch of a run adds, from any state of a job that
      is not pending, with a fixed deadline and no status set by hand, whatever
      the prices are, at whatever times the passes come, and whether or not they
      are kept: if the first of them was made `left` before the deadline, there
      are at most MaxChecks(left). */
  lemma {:induction false} CompletedChecksAreBudgeted(e: Env, w: World, steps: seq<Step>, deadline: int)
    requires ValidEnv(e) && AtPrecision(e, w.job) && !Pending(w.job.status)
    requires w.job.terms.deadline.Some? && w.job.terms.deadline.value.at == deadline
    requires forall i :: 0 <= i < |steps| ==> LeavesClock(steps[i])
    ensures var xs, base := CompletedChecks(Exec(e, w, steps)), |CompletedChecks(w)|;
            && base <= |xs|
            && (base < |xs| ==> |xs| - base <= MaxChecks(LeftAt(deadline, xs[base])))
  {
    var xs, base := CompletedChecks(Exec(e, w, steps)), |CompletedChecks(w)|;
    RunKeepsSolvent(e, w, steps, base, deadline);
    var n := |xs| - base;
    if n > 0 {
      var first, last := LeftAt(deadline, xs[base]), LeftAt(deadline, xs[|xs| - 1]);
      BudgetIsPositive(last);
      assert (n - 1) * COST < Budget(first);
      hide Budget;
      RoundedUp(n, Budget(first));
    }
  }

  // ---------------------------------------------------------------- all checks

  /** No rate of this pass has a negative price. */
  predicate OrdinaryRates(s: Step) {
    s.Pass? ==> forall k :: 0 <= k < |RatesOf(s.o)| ==> RatesOf(s.o)[k].price >= 0.0
  }

  /** An alert can always be composed if the booking has a price, or no rate is
      below zero. */
  lemma {:induction false} OrdinaryVisit(e: Env, j: Job, o: Oracle, now: int)
    requires KindOf(e.cfg, j, o, now).ZeroPrice?
    ensures j.terms.originalPrice == 0.0
    ensures exists k :: 0 <= k < |RatesOf(o)| && RatesOf(o)[k].price < 0.0
  {
    var k := AfterRetry(j, o);
    BestIsArgmin(RatesOf(o), k);
    hide BestLikeForLike;
    var best := BestOf(j, o);
    assert ReachableDrop(e.cfg, best, k);
    assert DropFloor(e.cfg, 0.0) >= 0.0;
    var i :| 0 <= i < |RatesOf(o)| && RatesOf(o)[i] == best.value;
  }

  lemma {:induction false} StepCompletes(e: Env, w: World, s: Step)
    requires w.job.terms.originalPrice != 0.0 || OrdinaryRates(s)
    ensures forall x :: x in Logged(e, w, s) && x.Checked? ==> Completed(x)
  {
    hide BestLikeForLike, KindOf, CheckByKind, MailByKind, VerdictOf, AfterRetry;
    if s.Pass? && Due(w, s.now) {
      OnlyMail(e, w.job, s.o, s.now, s.commits);
      UnpriceableIsZeroPrice(e, w.job, s.o, s.now, s.commits);
      if KindOf(e.cfg, w.job, s.o, s.now).ZeroPrice? { OrdinaryVisit(e, w.job, s.o, s.now); }
    }
  }

  lemma {:induction false} RunCompletes(e: Env, w: World, steps: seq<Step>)
    requires ValidEnv(e) && AtPrecision(e, w.job)
    requires w.job.terms.originalPrice != 0.0 || forall i :: 0 <= i < |steps| ==> OrdinaryRates(steps[i])
    ensures var w' := Exec(e, w, steps);
            AtPrecision(e, w'.job) && w'.job.terms.originalPrice == w.job.terms.originalPrice
    ensures forall x :: x in Added(e, w, steps) && x.Checked? ==> Completed(x)
    decreases |steps|
  {
    if steps != [] {
      var front, s := steps[..|steps| - 1], steps[|steps| - 1];
      RunCompletes(e, w, front);
      StepKeepsPrecision(e, Exec(e, w, front), s);
      StepCompletes(e, Exec(e, w, front), s);
      hide Apply, AtPrecision, OrdinaryRates, Logged;
    }
  }

  lemma {:induction false} PickSame(log: seq<Entry>, p: Entry -> bool, q: Entry -> bool)
    requires forall x :: x in log ==> (p(x) <==> q(x))
    ensures Pick(log, p) == Pick(log, q)
  {
    if log != [] { PickSame(log[..|log| - 1], p, q); }
  }

  /** So all checks are budgeted if the booking has a price, or no rate of the
      stretch is below zero. */
  lemma {:induction false} ChecksAreBudgeted(e: Env, w: World, steps: seq<Step>, deadline: int)
    requires ValidEnv(e) && AtPrecision(e, w.job) && !Pending(w.job.status)
    requires w.job.terms.originalPrice != 0.0 || forall i :: 0 <= i < |steps| ==> OrdinaryRates(steps[i])
    requires w.job.terms.deadline.Some? && w.job.terms.deadline.value.at == deadline
    requires forall i :: 0 <= i < |steps| ==> LeavesClock(steps[i])
    ensures var xs, base := Checks(Exec(e, w, steps)), |Checks(w)|;
            && base <= |xs|
            && (base < |xs| ==> |xs| - base <= MaxChecks(LeftAt(deadline, xs[base])))
  {
    hide Exec, AtPrecision, MaxChecks, Pick, OrdinaryRates, LeavesClock, Added;
    var more := Added(e, w, steps);
    RunAdds(e, w, steps);
    RunCompletes(e, w, steps);
    CompletedChecksAreBudgeted(e, w, steps, deadline);
    PickAppend(w.log, more, IsCheck);
    PickAppend(w.log, more, Completed);
    PickSame(more, IsCheck, Completed);
    var xs, ys := Checks(Exec(e, w, steps)), CompletedChecks(Exec(e, w, steps));
    if Pick(more, IsCheck) != [] {
      assert xs[|Checks(w)|] == Pick(more, IsCheck)[0] == ys[|CompletedChecks(w)|];
    }
  }

  // ---------------------------------------------------------------- checks without end

  /** A kept check leaves the job due at the very same instant exactly when it
      was an alert on a booking priced at zero. */
  lemma {:induction false} OnlyZeroPriceStaysDue(e: Env, j: Job, o: Oracle, now: int)
    requires Selected(j, now) && RecordsRow(KindOf(e.cfg, j, o, now))
    ensures Selected(Stored(e.round, Processed(e.cfg, j, o, now).job), now) <==> KindOf(e.cfg, j, o, now).ZeroPrice?
    ensures KindOf(e.cfg, j, o, now).ZeroPrice? ==> j.terms.originalPrice == 0.0
  {
    hide BestLikeForLike, DropFloor, ByKind;
    VisitByKind(e.cfg, j, o, now);
    VisitSchedule(e.cfg, j, o, now);
    VisitMarks(e.cfg, j, o, now);
    hide Processed;
  }

  function Again(s: Step, n: nat): (steps: seq<Step>)
    ensures |steps| == n
  {
    if n == 0 then [] else Again(s, n - 1) + [s]
  }

  /** What such a visit leaves keeps calling for the alert. */
  lemma {:induction false} StillZeroPrice(cfg: Settings, j: Job, k: Job, o: Oracle, now: int)
    requires KindOf(cfg, j, o, now).ZeroPrice?
    requires k.terms == j.terms && k.hotelId == AfterRetry(j, o).hotelId
    requires k.dropAlertSentAt == j.dropAlertSentAt && k.lowestAlertedPrice == j.lowestAlertedPrice
    ensures KindOf(cfg, k, o, now).ZeroPrice?
  {
    BestDependsOnTerms(RatesOf(o), AfterRetry(j, o), k);
    hide BestLikeForLike, DropFloor;
  }

  lemma ZeroPriceKeepsHotel(cfg: Settings, j: Job, o: Oracle, now: int)
    requires KindOf(cfg, j, o, now).ZeroPrice?
    ensures ByKind(cfg, j, o, now).job.hotelId == AfterRetry(j, o).hotelId
  {
    hide BestLikeForLike, KindOf, AfterRetry;
  }

  /** A pass at this instant would find a drop and be unable to tell. */
  predicate Speechless(e: Env, w: World, now: int, o: Oracle) {
    AtPrecision(e, w.job) && Due(w, now) && KindOf(e.cfg, w.job, o, now).ZeroPrice?
  }

  /** Such a pass adds a check, and leaves the next one in the same position. */
  lemma {:induction false} SpeechlessAgain(e: Env, w: World, now: int, o: Oracle)
    requires ValidEnv(e) && Speechless(e, w, now, o)
    ensures var w' := Apply(e, w, Pass(now, o, true)); Speechless(e, w', now, o) && |Checks(w')| == |Checks(w)| + 1
  {
    hide KindOf, AfterRetry, BestLikeForLike, ByKind, CheckByKind, MailByKind, Checks, InPass, Processed;
    var w', j := Apply(e, w, Pass(now, o, true)), w.job;
    StepKeepsPrecision(e, w, Pass(now, o, true));
    VisitChecks(e, w, now, o, true);
    CheckRecordsBest(e, j, o, now, true);
    VisitMarks(e.cfg, j, o, now);
    VisitSchedule(e.cfg, j, o, now);
    PassByKind(e, w, now, o, true);
    ZeroPriceKeepsHotel(e.cfg, j, o, now);
    hide Apply;
    StillZeroPrice(e.cfg, j, w'.job, o, now);
  }

  /** And so without end: for as long as the same answer comes back, every kept
      pass adds a check, whatever the time left. */
  lemma {:induction false} ZeroPriceNeverEnds(e: Env, w: World, now: int, o: Oracle, n: nat)
    requires ValidEnv(e) && Speechless(e, w, now, o)
    ensures var w' := Exec(e, w, Again(Pass(now, o, true), n));
            |Checks(w')| == |Checks(w)| + n && Speechless(e, w', now, o)
  {
    hide Speechless, Checks, Apply;
    var s := Pass(now, o, true);
    if n > 0 {
      ZeroPriceNeverEnds(e, w, now, o, n - 1);
      SpeechlessAgain(e, Exec(e, w, Again(s, n - 1)), now, o);
      assert Again(s, n)[..n - 1] == Again(s, n - 1) && Again(s, n)[n - 1] == s;
    }
  }

  /** A booking priced at zero, and a rate at -11. */
  const FREE_STAY: JobCreate :=
    JobCreate("Hotel", None, 100, 102, None, None, None, None, 0.0, true, Some(Aware(90 * DAY)))
  const NEGATIVE_RATE: Candidate :=
    Candidate("OTA", -11.0, "EUR", None, None, None, true, Some("https://ota"), None, None)
  const KNOWN_HOTEL: Resolution := Matches([HotelMatch("h1", "Hotel", None, 1.0)])

  lemma {:induction false} FreeStayIsSpeechless(e: Env, j: Job, o: Oracle)
    requires e.cfg == DEFAULT_SETTINGS && o.rates == Rates([NEGATIVE_RATE])
    requires j.terms == TermsOf(FREE_STAY) && j.hotelId == Some("h1") && j.dropAlertSentAt.None?
    ensures KindOf(e.cfg, j, o, 0).ZeroPrice?
  {
    BestIsArgmin([NEGATIVE_RATE], j);
    hide BestLikeForLike;
    assert Agrees([NEGATIVE_RATE][0], j);
    assert BestOf(j, o) == Some(NEGATIVE_RATE);
  }

  /** There is such a booking: with the shipped settings and exact columns, n
      passes make n checks, for every n. */
  lemma {:induction false} FreeStayIsCheckedWithoutEnd(n: nat)
    ensures var e := Env(DEFAULT_SETTINGS, (x: real) => x, 0.0);
            var c := FromPost(1, FREE_STAY, KNOWN_HOTEL, 0);
            var o := Oracle(KNOWN_HOTEL, Rates([NEGATIVE_RATE]), Delivery(true, true, true), 0, None);
            Create(c).Some? && |Checks(Exec(e, Start(e, c, Trialing, true), Again(Pass(0, o, true), n)))| == n
  {
    var e := Env(DEFAULT_SETTINGS, (x: real) => x, 0.0);
    var c := FromPost(1, FREE_STAY, KNOWN_HOTEL, 0);
    var o := Oracle(KNOWN_HOTEL, Rates([NEGATIVE_RATE]), Delivery(true, true, true), 0, None);
    var w := Start(e, c, Trialing, true);
    ColumnsExist(DEFAULT_SETTINGS);
    FreeStayIsSpeechless(e, w.job, o);
    PickOne(w.log, IsCheck);
    hide KindOf, Pick;
    assert Speechless(e, w, 0, o);
    hide Speechless;
    ZeroPriceNeverEnds(e, w, 0, o, n);
  }
}
