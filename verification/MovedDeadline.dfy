/** A deadline moved by PATCH. The endpoint touches neither the schedule nor the
    mark of an earlier warning, so the next look at the booking may come too late
    for the new deadline, and a warning for the old one is taken for a warning for
    the new. Here is exactly when the booking is looked at, and when it is warned,
    before the new deadline, and what is lost otherwise. */
module MovedDeadline {
  import opened Models
  import opened Matching
  import opened Worker
  import opened Jobs
  import opened Protocol
  import opened ProtocolLaws
  import opened Watch
  import opened DeadlineGuard
  import opened InTime

  /** All that the PATCH changes is the deadline. */
  lemma MovingKeepsSchedule(e: Env, w: World, deadline: Option<Stamp>, accepted: bool, when: int)
    requires !Pending(w.job.status)
    ensures Apply(e, w, Patch([SetDeadline(deadline)], accepted, when))
         == w.(job := w.job.(terms := w.job.terms.(deadline := deadline)))
  {
    assert [SetDeadline(deadline)][..0] == [];
    assert Patched(w.job, []) == w.job;
    assert w.log + [] == w.log;
  }

  /** The exact condition for whoever moves a deadline: the new one is sure to be
      preceded by a look if and only if the old schedule, which stays, leaves more
      than `gap` before it. */
  lemma {:induction false} MovedDeadlineIsSeenExactly(e: Env, w: World, stamp: Stamp, accepted: bool, when: int,
                                                      gap: int)
    requires 0 < gap && w.plan in {Trialing, Paying} && Monitored(w.job.status) && w.job.nextCheckAt.Some?
    requires stamp.at <= w.job.terms.checkOut * DAY
    ensures var moved := Apply(e, w, Patch([SetDeadline(Some(stamp))], accepted, when));
            AlwaysSeenInTime(e, moved, stamp.at, gap) <==> LastUnseen(w, w.lastPass) + gap < stamp.at
  {
    MovingKeepsSchedule(e, w, Some(stamp), accepted, when);
    hide Apply, AlwaysSeenInTime;
    SeenInTimeExactly(e, Apply(e, w, Patch([SetDeadline(Some(stamp))], accepted, when)), stamp.at, gap);
  }

  /** And sure to be preceded by a warning, unless a better thing can be told, if
      and only if moreover no warning has gone out before. */
  lemma {:induction false} MovedDeadlineIsWarnedExactly(e: Env, w: World, stamp: Stamp, accepted: bool, when: int,
                                                        gap: int)
    requires ValidEnv(e) && AtPrecision(e, w.job) && 0 < gap && Stride(e, gap) <= WindowLength(e)
    requires w.plan in {Trialing, Paying} && Monitored(w.job.status) && Truthy(w.job.hotelId) && w.job.nextCheckAt.Some?
    requires stamp.at <= w.job.terms.checkOut * DAY
    ensures var moved := Apply(e, w, Patch([SetDeadline(Some(stamp))], accepted, when));
            AlwaysWarned(e, moved, stamp.at, gap) <==>
              w.job.deadlineAlertSentAt.None? && LastUnseen(w, w.lastPass) + gap < stamp.at
  {
    var s := Patch([SetDeadline(Some(stamp))], accepted, when);
    StepKeepsPrecision(e, w, s);
    MovingKeepsSchedule(e, w, Some(stamp), accepted, when);
    hide Apply, AlwaysWarned, AtPrecision, Stride, WindowLength;
    WarnedInTimeExactly(e, Apply(e, w, s), stamp.at, gap);
  }

  // ---------------------------------------------------------------- seen too late

  /** What the user is served for: a check, an alert, a warning. */
  predicate Service(x: Entry) {
    x.Checked? || (x.Mailed? && (x.event.PriceDropFound? || x.event.DeadlineApproaching?))
  }

  function Services(w: World): seq<Entry> { Pick(w.log, Service) }

  /** No look before `earliest`. */
  predicate NotBefore(w: World, earliest: int) {
    !Pending(w.job.status) && (w.job.nextCheckAt.Some? ==> earliest <= w.job.nextCheckAt.value)
  }

  /** The next look, if any, comes no sooner than the deadline. */
  predicate TooLate(w: World, deadline: int) {
    NotBefore(w, deadline) && DeadlineIs(w, deadline)
  }

  lemma {:induction false} LateVisitServesNobody(e: Env, w: World, now: int, o: Oracle, commits: bool, deadline: int)
    requires TooLate(w, deadline) && Due(w, now)
    ensures var w' := Apply(e, w, Pass(now, o, commits)); TooLate(w', deadline) && Services(w') == Services(w)
  {
    hide BestLikeForLike, AfterRetry, VerdictOf, Pick, ByKind, InPass, CheckByKind, MailByKind;
    assert KindOf(e.cfg, w.job, o, now).Closing?;
    PassByKind(e, w, now, o, commits);
    VisitMarks(e.cfg, w.job, o, now);
    VisitSchedule(e.cfg, w.job, o, now);
    VisitPick(e, w, now, o, commits, Service);
    ClosingServesNobody(e, w.job, o, now, commits);
    hide Apply, KindOf;
  }

  lemma ClosingServesNobody(e: Env, j: Job, o: Oracle, now: int, commits: bool)
    requires KindOf(e.cfg, j, o, now).Closing?
    ensures Only(CheckByKind(e, j, o, now, commits), Service) == []
    ensures Only(MailByKind(e, j, o, now, commits), Service) == []
  {
    hide BestLikeForLike, KindOf, AfterRetry;
  }

  lemma {:induction false} LateStepServesNobody(e: Env, w: World, s: Step, deadline: int)
    requires TooLate(w, deadline) && LeavesClock(s)
    ensures TooLate(Apply(e, w, s), deadline) && Services(Apply(e, w, s)) == Services(w)
  {
    hide Pick;
    match s
    case Pass(now, o, commits) =>
      if Due(w, now) {
        LateVisitServesNobody(e, w, now, o, commits, deadline);
      } else {
        PassNotDue(e, w, now, o, commits);
      }
      hide Apply;
    case Patch(_, _, _) =>
      ClockStep(e, w, s);
      hide Apply;
    case Cancel =>
    case Plan(_) =>
  }

  /** A booking whose next look comes too late gets no check, no alert and not
      even an attempt at a warning any more, in any run that moves neither status
      nor deadline by hand. */
  lemma {:induction false} TooLateServesNobody(e: Env, w: World, steps: seq<Step>, deadline: int)
    requires TooLate(w, deadline) && forall i :: 0 <= i < |steps| ==> LeavesClock(steps[i])
    ensures TooLate(Exec(e, w, steps), deadline) && Services(Exec(e, w, steps)) == Services(w)
    decreases |steps|
  {
    if steps != [] {
      TooLateServesNobody(e, w, steps[..|steps| - 1], deadline);
      LateStepServesNobody(e, Exec(e, w, steps[..|steps| - 1]), steps[|steps| - 1], deadline);
      hide Apply, TooLate, Services;
    }
  }

  /** No step of the run looks at the booking, or sets status or deadline. */
  predicate Uneventful(e: Env, w: World, steps: seq<Step>) {
    forall i :: 0 <= i < |steps| ==>
      LeavesClock(steps[i]) && (steps[i].Pass? ==> !Due(Exec(e, w, steps[..i]), steps[i].now))
  }

  lemma {:induction false} UneventfulRun(e: Env, w: World, steps: seq<Step>, earliest: int)
    requires NotBefore(w, earliest) && Uneventful(e, w, steps)
    ensures NotBefore(Exec(e, w, steps), earliest) && Services(Exec(e, w, steps)) == Services(w)
    decreases |steps|
  {
    hide Services;
    if steps != [] {
      var front, s := steps[..|steps| - 1], steps[|steps| - 1];
      assert forall i :: 0 <= i < |front| ==> front[i] == steps[i] && front[..i] == steps[..i];
      UneventfulRun(e, w, front, earliest);
      UneventfulStep(e, Exec(e, w, front), s, earliest);
      hide Apply, NotBefore, Uneventful;
    }
  }

  lemma {:induction false} UneventfulStep(e: Env, w: World, s: Step, earliest: int)
    requires NotBefore(w, earliest) && LeavesClock(s) && (s.Pass? ==> !Due(w, s.now))
    ensures NotBefore(Apply(e, w, s), earliest) && Services(Apply(e, w, s)) == Services(w)
  {
    hide Pick;
    match s
    case Pass(now, o, commits) =>
      PassNotDue(e, w, now, o, commits);
      hide Apply;
    case Patch(_, _, _) =>
      ClockStep(e, w, s);
      hide Apply;
    case Cancel =>
    case Plan(_) =>
  }

  /** So it goes for every booking whose deadline is moved, at whatever time before
      the next look, to within one cadence of its last completed check: that check
      was the last service. */
  lemma {:induction false} MovedWithinCadence(e: Env, w: World, now: int, o: Oracle, between: seq<Step>, stamp: Stamp,
                                              accepted: bool, when: int, steps: seq<Step>)
    requires Due(w, now)
    requires var kind := KindOf(e.cfg, w.job, o, now); RecordsRow(kind) && !kind.ZeroPrice?
    requires Uneventful(e, Apply(e, w, Pass(now, o, true)), between)
    requires stamp.at <= now + CadenceHours(TimeUntil(w.job.terms.deadline, now)) * HOUR
    requires forall i :: 0 <= i < |steps| ==> LeavesClock(steps[i])
    ensures var checked := Apply(e, w, Pass(now, o, true));
            var moved := Apply(e, Exec(e, checked, between), Patch([SetDeadline(Some(stamp))], accepted, when));
            Services(Exec(e, moved, steps)) == Services(checked)
  {
    hide BestLikeForLike, KindOf, ByKind, CheckByKind, MailByKind, InPass, AfterRetry, CadenceHours, Pick, Exec,
         Uneventful;
    PassByKind(e, w, now, o, true);
    VisitMarks(e.cfg, w.job, o, now);
    VisitSchedule(e.cfg, w.job, o, now);
    var checked := Apply(e, w, Pass(now, o, true));
    var before := Exec(e, checked, between);
    hide Apply;
    UneventfulRun(e, checked, between, stamp.at);
    MovingKeepsSchedule(e, before, Some(stamp), accepted, when);
    TooLateServesNobody(e, Apply(e, before, Patch([SetDeadline(Some(stamp))], accepted, when)), steps, stamp.at);
  }

  /** A booking a month ahead of its deadline. */
  const BOOKING: JobCreate :=
    JobCreate("Hotel", None, 40, 42, None, None, None, None, 500.0, true, Some(Aware(30 * DAY)))
  const ITS_HOTEL: Resolution := Matches([HotelMatch("h1", "Hotel", None, 1.0)])

  /** Its first check, at once, finds nothing; the next is due in 24 h. */
  lemma {:induction false} FirstCheckFindsNothing(e: Env, w: World, o: Oracle)
    requires e.cfg == DEFAULT_SETTINGS && o.rates == Rates([])
    requires w.job.terms.deadline == BOOKING.deadline && w.job.terms.checkOut == BOOKING.checkOut
    requires Truthy(w.job.hotelId) && Due(w, 0)
    ensures KindOf(e.cfg, w.job, o, 0).Quiet?
    ensures Services(Apply(e, w, Pass(0, o, true))) == Services(w) + CheckByKind(e, w.job, o, 0, true)
    ensures |CheckByKind(e, w.job, o, 0, true)| == 1 && CheckByKind(e, w.job, o, 0, true)[0].Checked?
  {
    NothingToReport(e, w.job, o);
    VisitPick(e, w, 0, o, true, Service);
    hide Apply, Pick, KindOf, CheckByKind, MailByKind;
  }

  lemma NothingToReport(e: Env, j: Job, o: Oracle)
    requires e.cfg == DEFAULT_SETTINGS && o.rates == Rates([])
    requires j.terms.deadline == BOOKING.deadline && j.terms.checkOut == BOOKING.checkOut && Truthy(j.hotelId)
    ensures KindOf(e.cfg, j, o, 0).Quiet? && MailByKind(e, j, o, 0, true) == []
    ensures |CheckByKind(e, j, o, 0, true)| == 1 && CheckByKind(e, j, o, 0, true)[0].Checked?
  {
  }

  /** For instance: booked and checked at midnight, due again in 24 h, deadline
      moved to ten in the morning. Whatever follows, that check was all, and no
      warning is even tried. */
  lemma {:induction false} MovedToTenInTheMorning(e: Env, accepted: bool, steps: seq<Step>)
    requires e.cfg == DEFAULT_SETTINGS && forall i :: 0 <= i < |steps| ==> LeavesClock(steps[i])
    ensures var c := FromPost(1, BOOKING, ITS_HOTEL, 0);
            var o := Oracle(ITS_HOTEL, Rates([]), Delivery(true, true, true), 0, None);
            Create(c).Some? &&
            var checked := Apply(e, Start(e, c, Trialing, accepted), Pass(0, o, true));
            var moved := Apply(e, checked, Patch([SetDeadline(Some(Aware(10 * HOUR)))], true, 0));
            var served := Services(Exec(e, moved, steps));
            |served| == 1 && served[0].Checked?
  {
    var c := FromPost(1, BOOKING, ITS_HOTEL, 0);
    var o := Oracle(ITS_HOTEL, Rates([]), Delivery(true, true, true), 0, None);
    var w := Start(e, c, Trialing, accepted);
    PickOne(w.log, Service);
    hide Apply, Pick, KindOf, CheckByKind;
    FirstCheckFindsNothing(e, w, o);
    MovedWithinCadence(e, w, 0, o, [], Aware(10 * HOUR), true, 0, steps);
  }

  /** A booking a day ahead of its deadline. */
  const SOON: JobCreate := BOOKING.(deadline := Some(Aware(DAY)))

  /** Its first check warns. */
  lemma {:induction false} FirstCheckWarns(e: Env, w: World, o: Oracle)
    requires e.cfg == DEFAULT_SETTINGS && o.rates == Rates([]) && o.delivery.deadline
    requires w.job.terms.deadline == SOON.deadline && w.job.terms.checkOut == SOON.checkOut
    requires Truthy(w.job.hotelId) && w.job.deadlineAlertSentAt.None? && Due(w, 0)
    ensures var w' := Apply(e, w, Pass(0, o, true));
            && w'.job.deadlineAlertSentAt == Some(0) && Monitored(w'.job.status)
            && w'.plan in {Trialing, Paying} && w'.lastPass == 0
            && w'.job.nextCheckAt == Some(6 * HOUR + o.jitter * SECOND)
  {
    assert KindOf(e.cfg, w.job, o, 0).Warning?;
    hide KindOf, ByKind, CheckByKind, MailByKind, InPass, BestLikeForLike, AfterRetry;
    PassByKind(e, w, 0, o, true);
    VisitMarks(e.cfg, w.job, o, 0);
    VisitSchedule(e.cfg, w.job, o, 0);
    hide Apply;
  }

  /** For instance: warned a day ahead, deadline moved by four weeks. The booking
      is sure to be looked at in time, and sure never to be warned of again. */
  lemma {:induction false} WarnedForTheOldDeadline(e: Env, accepted: bool, steps: seq<Step>)
    requires ValidEnv(e) && e.cfg == DEFAULT_SETTINGS
    ensures var c := FromPost(1, SOON, ITS_HOTEL, 0);
            var o := Oracle(ITS_HOTEL, Rates([]), Delivery(true, true, true), 0, None);
            Create(c).Some? &&
            var warned := Apply(e, Start(e, c, Trialing, accepted), Pass(0, o, true));
            var moved := Apply(e, warned, Patch([SetDeadline(Some(Aware(29 * DAY)))], true, 0));
            && AlwaysSeenInTime(e, moved, 29 * DAY, 15 * 60 * SECOND)
            && forall x :: x in Added(e, moved, steps) && x.Mailed? ==> !x.event.DeadlineApproaching?
  {
    var c := FromPost(1, SOON, ITS_HOTEL, 0);
    var o := Oracle(ITS_HOTEL, Rates([]), Delivery(true, true, true), 0, None);
    var w := Start(e, c, Trialing, accepted);
    var warned := Apply(e, w, Pass(0, o, true));
    var patch := Patch([SetDeadline(Some(Aware(29 * DAY)))], true, 0);
    CreatedOnWatch(e, c, Trialing, accepted, DAY, 0);
    StepKeepsPrecision(e, w, Pass(0, o, true));
    assert w.job.terms.deadline == SOON.deadline && w.job.terms.checkOut == SOON.checkOut;
    hide Apply, AtPrecision, AlwaysSeenInTime, Added, Start;
    FirstCheckWarns(e, w, o);
    MovingKeepsSchedule(e, warned, Some(Aware(29 * DAY)), true, 0);
    SeenInTimeExactly(e, Apply(e, warned, patch), 29 * DAY, 15 * 60 * SECOND);
    NeverWarnedAgain(e, Apply(e, warned, patch), steps);
  }
}
