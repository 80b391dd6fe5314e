/** How soon the wrap-up comes: no monitored booking outlives its deadline by
    more than six and a half hours and the time between passes, plus an hour and
    that time for every refused attempt. */
module Closing {
  import opened Models
  import opened Matching
  import opened Worker
  import opened Protocol
  import opened ProtocolLaws

  const JITTER: int := 30 * 60 * SECOND

  /** An attempt to deliver the wrap-up, in a pass that was kept. */
  predicate Attempt(x: Entry) {
    x.Mailed? && x.event.MonitoringEnded? && x.committed
  }

  function Attempts(w: World): seq<Entry> { Pick(w.log, Attempt) }

  function TimeOf(x: Entry): int {
    if x.Mailed? then x.at else 0
  }

  /** A step of a run in which the scheduler comes by at least every `gap`, its
      passes are kept, the plan keeps running, and nobody cancels, re-labels or
      moves the deadline. The price source may do anything. */
  predicate Punctual(w: World, s: Step, gap: int) {
    match s
    case Pass(now, _, commits) => commits && w.lastPass <= now <= w.lastPass + gap
    case Patch(_, _, _) => LeavesClock(s)
    case Cancel => false
    case Plan(plan) => plan in {Trialing, Paying}
  }

  predicate PunctualRun(e: Env, w: World, steps: seq<Step>, gap: int) {
    forall i :: 0 <= i < |steps| ==> Punctual(Exec(e, w, steps[..i]), steps[i], gap)
  }

  /** The latest instant a job can be scheduled for after n refused attempts. */
  function Latest(deadline: int, n: nat, gap: int): int {
    deadline + 6 * HOUR + JITTER + n * (HOUR + gap)
  }

  lemma LatestGrows(deadline: int, n: nat, gap: int)
    requires 0 <= gap
    ensures Latest(deadline, n + 1, gap) == Latest(deadline, n, gap) + HOUR + gap
    ensures deadline + 6 * HOUR + JITTER <= Latest(deadline, n, gap)
  {
    assert (n + 1) * (HOUR + gap) == n * (HOUR + gap) + HOUR + gap;
    assert 0 <= n * (HOUR + gap);
  }

  predicate OnTime(w: World, deadline: int, gap: int) {
    var n := |Attempts(w)|;
    && w.plan in {Trialing, Paying}
    && (Monitored(w.job.status) || w.job.status.Expired?)
    && w.job.terms.deadline.Some? && w.job.terms.deadline.value.at == deadline
    && (Monitored(w.job.status) ==>
          && w.job.nextCheckAt.Some?
          && w.job.nextCheckAt.value <= Latest(deadline, n, gap)
          && w.lastPass <= Latest(deadline, n, gap))
    && forall i :: 0 <= i < n ==> TimeOf(Attempts(w)[i]) <= Latest(deadline, i, gap) + gap
  }

  lemma {:induction false} VisitAttempts(e: Env, w: World, now: int, o: Oracle, commits: bool)
    requires Due(w, now)
    ensures var w', mails := Apply(e, w, Pass(now, o, commits)), MailByKind(e, w.job, o, now, commits);
            && Attempts(w') == Attempts(w) + (if commits && KindOf(e.cfg, w.job, o, now).Closing? then mails else [])
            && (KindOf(e.cfg, w.job, o, now).Closing? ==> |mails| == 1 && TimeOf(mails[0]) == now)
  {
    hide Apply, BestLikeForLike, Pick, KindOf, Recorded, VerdictOf, CheckByKind, Due, AfterRetry, SawMovement;
    var checks, mails := CheckByKind(e, w.job, o, now, commits), MailByKind(e, w.job, o, now, commits);
    VisitPick(e, w, now, o, commits, Attempt);
    OnlyMail(e, w.job, o, now, commits);
    assert checks != [] ==> checks[0] in checks;
    assert Only(checks, Attempt) == [];
    assert Only(mails, Attempt) == if commits && KindOf(e.cfg, w.job, o, now).Closing? then mails else [];
  }

  /** Where a visit before the deadline can move the schedule to. */
  lemma {:induction false} OpenVisitSchedule(cfg: Settings, j: Job, o: Oracle, now: int, deadline: int)
    requires j.terms.deadline.Some? && j.terms.deadline.value.at == deadline
    requires !KindOf(cfg, j, o, now).Closing?
    ensures now < deadline
    ensures var next := ByKind(cfg, j, o, now).job.nextCheckAt;
            next == j.nextCheckAt || (next.Some? && next.value <= deadline + 6 * HOUR + JITTER)
  {
    hide BestLikeForLike, DropFloor, ByKind, AfterRetry;
    VisitSchedule(cfg, j, o, now);
  }

  lemma {:induction false} VisitIsOnTime(e: Env, w: World, now: int, o: Oracle, deadline: int, gap: int)
    requires 0 <= gap && OnTime(w, deadline, gap) && Due(w, now) && w.lastPass <= now <= w.lastPass + gap
    ensures OnTime(Apply(e, w, Pass(now, o, true)), deadline, gap)
  {
    hide BestLikeForLike, DropFloor, ByKind, KindOf, CheckByKind, MailByKind, AfterRetry, Attempts, CadenceHours,
         InPass, VerdictOf, Latest;
    var w', j, xs := Apply(e, w, Pass(now, o, true)), w.job, Attempts(w);
    var mails := MailByKind(e, j, o, now, true);
    PassByKind(e, w, now, o, true);
    VisitMarks(e.cfg, j, o, now);
    VisitSchedule(e.cfg, j, o, now);
    VisitAttempts(e, w, now, o, true);
    LatestGrows(deadline, |xs|, gap);
    hide Apply;
    if KindOf(e.cfg, j, o, now).Closing? {
      assert Attempts(w') == xs + mails;
      forall i | 0 <= i < |xs| + 1
        ensures TimeOf(Attempts(w')[i]) <= Latest(deadline, i, gap) + gap
      {
        if i < |xs| { assert Attempts(w')[i] == xs[i]; }
      }
    } else {
      assert Attempts(w') == xs;
      OpenVisitSchedule(e.cfg, j, o, now, deadline);
    }
  }

  lemma {:induction false} StepIsOnTime(e: Env, w: World, s: Step, deadline: int, gap: int)
    requires 0 <= gap && OnTime(w, deadline, gap) && Punctual(w, s, gap)
    ensures OnTime(Apply(e, w, s), deadline, gap)
  {
    hide Latest, Pick;
    match s
    case Pass(now, o, commits) =>
      if Due(w, now) {
        VisitIsOnTime(e, w, now, o, deadline, gap);
      } else {
        PassNotDue(e, w, now, o, commits);
        hide Apply;
      }
    case Patch(_, _, _) =>
      ClockStep(e, w, s);
      hide Apply;
    case Plan(_) =>
  }

  /** In a punctual run from a state whose job is scheduled no later than six and
      a half hours after its fixed deadline, and has not been wrapped up yet: the
      i-th attempt to deliver the wrap-up comes within 6.5 h + gap + i (1 h + gap)
      of the deadline, and as long as the job is still monitored after n refused
      attempts, the last pass was no later than 6.5 h + n (1 h + gap) after it. */
  lemma {:induction false} WrapUpIsPrompt(e: Env, w: World, steps: seq<Step>, deadline: int, gap: int)
    requires 0 <= gap && PunctualRun(e, w, steps, gap)
    requires w.plan in {Trialing, Paying} && Monitored(w.job.status) && Attempts(w) == []
    requires w.job.terms.deadline.Some? && w.job.terms.deadline.value.at == deadline
    requires w.job.nextCheckAt.Some? && w.job.nextCheckAt.value <= deadline + 6 * HOUR + JITTER
    requires w.lastPass <= deadline + 6 * HOUR + JITTER
    ensures OnTime(Exec(e, w, steps), deadline, gap)
    decreases |steps|
  {
    LatestGrows(deadline, 0, gap);
    if steps != [] {
      var front, s := steps[..|steps| - 1], steps[|steps| - 1];
      assert forall i :: 0 <= i < |front| ==> front[..i] == steps[..i];
      assert PunctualRun(e, w, front, gap) by {
        forall i | 0 <= i < |front|
          ensures Punctual(Exec(e, w, front[..i]), front[i], gap)
        {
          assert Punctual(Exec(e, w, steps[..i]), steps[i], gap);
        }
      }
      assert Punctual(Exec(e, w, steps[..|front|]), steps[|front|], gap);
      WrapUpIsPrompt(e, w, front, deadline, gap);
      StepIsOnTime(e, Exec(e, w, front), s, deadline, gap);
      hide Apply, OnTime, Punctual;
    }
  }

  /** So once a pass comes later than that, the job is closed. */
  lemma {:induction false} ClosedAfterAtMostNRefusals(e: Env, w: World, steps: seq<Step>, deadline: int, gap: int)
    requires 0 <= gap && PunctualRun(e, w, steps, gap)
    requires w.plan in {Trialing, Paying} && Monitored(w.job.status) && Attempts(w) == []
    requires w.job.terms.deadline.Some? && w.job.terms.deadline.value.at == deadline
    requires w.job.nextCheckAt.Some? && w.job.nextCheckAt.value <= deadline + 6 * HOUR + JITTER
    requires w.lastPass <= deadline + 6 * HOUR + JITTER
    requires Exec(e, w, steps).lastPass > Latest(deadline, |Attempts(Exec(e, w, steps))|, gap)
    ensures Exec(e, w, steps).job.status.Expired?
  {
    WrapUpIsPrompt(e, w, steps, deadline, gap);
    hide Exec, Latest, Attempts;
  }

  /** A job keeps the promised schedule from any visit made before its deadline,
      so the bound applies to it from then on. */
  lemma {:induction false} VisitedInTimeIsBounded(e: Env, w: World, now: int, o: Oracle, deadline: int)
    requires Due(w, now) && now < deadline && !KindOf(e.cfg, w.job, o, now).Closing?
    requires w.job.terms.deadline.Some? && w.job.terms.deadline.value.at == deadline
    ensures var w' := Apply(e, w, Pass(now, o, true));
            w'.job.nextCheckAt.Some? && w'.job.nextCheckAt.value <= deadline + 6 * HOUR + JITTER
            && w'.lastPass <= deadline && Monitored(w'.job.status)
  {
    hide BestLikeForLike, DropFloor, ByKind, KindOf, CheckByKind, MailByKind, AfterRetry, InPass, VerdictOf;
    PassByKind(e, w, now, o, true);
    VisitMarks(e.cfg, w.job, o, now);
    VisitSchedule(e.cfg, w.job, o, now);
    OpenVisitSchedule(e.cfg, w.job, o, now, deadline);
    hide Apply;
  }
}
