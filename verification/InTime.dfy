/** Exactly when a booking is sure to be looked at, and sure to be warned of,
    before its deadline: conditions that can be read off the row. */
module InTime {
  import opened Models
  import opened Matching
  import opened Worker
  import opened Protocol
  import opened ProtocolLaws
  import opened Closing
  import opened Watch
  import opened DeadlineGuard
  import opened History
  import Delivery

  /** A monitored booking with this deadline, which ends before the stay does. */
  predicate Scheduled(w: World, deadline: int) {
    && w.plan in {Trialing, Paying} && Monitored(w.job.status) && w.job.nextCheckAt.Some?
    && DeadlineIs(w, deadline) && deadline <= w.job.terms.checkOut * DAY
  }

  // ---------------------------------------------------------------- seen in time

  /** The i-th step looks at the booking before its deadline. */
  predicate LooksAt(e: Env, w: World, steps: seq<Step>, i: nat, deadline: int)
    requires i < |steps|
  {
    var v, s := Exec(e, w, steps[..i]), steps[i];
    s.Pass? && s.now < deadline && Due(v, s.now) && !Over(v.job, s.now)
  }

  predicate SeenInTime(e: Env, w: World, steps: seq<Step>, deadline: int) {
    exists i: nat :: i < |steps| && LooksAt(e, w, steps, i, deadline)
  }

  /** However the passes fall, some look comes before the deadline. */
  ghost predicate AlwaysSeenInTime(e: Env, w: World, deadline: int, gap: int) {
    forall steps :: PunctualRun(e, w, steps, gap) && deadline <= Exec(e, w, steps).lastPass ==>
      SeenInTime(e, w, steps, deadline)
  }

  lemma {:induction false} PrefixOfRun(e: Env, w: World, steps: seq<Step>, gap: int, deadline: int)
    requires steps != []
    ensures var front, last := steps[..|steps| - 1], |steps| - 1;
            && (PunctualRun(e, w, steps, gap) <==>
                  PunctualRun(e, w, front, gap) && Punctual(Exec(e, w, front), steps[last], gap))
            && (SeenInTime(e, w, steps, deadline) <==>
                  SeenInTime(e, w, front, deadline) || LooksAt(e, w, steps, last, deadline))
  {
    hide Punctual, Exec, Due, Over;
    var front, last := steps[..|steps| - 1], |steps| - 1;
    assert forall i :: 0 <= i < last ==> front[..i] == steps[..i] && front[i] == steps[i];
    assert steps[..last] == front;
    forall i: nat | i < last
      ensures LooksAt(e, w, front, i, deadline) <==> LooksAt(e, w, steps, i, deadline)
    {
      assert front[..i] == steps[..i];
    }
    if PunctualRun(e, w, steps, gap) {
      forall i | 0 <= i < last
        ensures Punctual(Exec(e, w, front[..i]), front[i], gap)
      {
        assert Punctual(Exec(e, w, steps[..i]), steps[i], gap);
      }
      assert Punctual(Exec(e, w, steps[..last]), steps[last], gap);
    }
    if PunctualRun(e, w, front, gap) && Punctual(Exec(e, w, front), steps[last], gap) {
      forall i | 0 <= i <= last
        ensures Punctual(Exec(e, w, steps[..i]), steps[i], gap)
      {
        if i < last { assert Punctual(Exec(e, w, front[..i]), front[i], gap); }
      }
    }
  }

  /** While nobody looks, nothing moves but the clock, and not past `unseen`. */
  predicate Waiting(w: World, deadline: int, next: int, unseen: int) {
    Scheduled(w, deadline) && w.job.nextCheckAt == Some(next) && next - 1 <= unseen && w.lastPass <= unseen
  }

  lemma {:induction false} StepWaits(e: Env, w: World, s: Step, deadline: int, next: int, unseen: int, gap: int)
    requires Waiting(w, deadline, next, unseen) && unseen + gap < deadline && Punctual(w, s, gap)
    ensures if s.Pass? && Due(w, s.now) then s.now < deadline && !Over(w.job, s.now)
            else Waiting(Apply(e, w, s), deadline, next, unseen)
  {
    match s
    case Pass(now, o, commits) =>
      if Due(w, now) {
        assert DayOf(now) < w.job.terms.checkOut;
      } else {
        PassNotDue(e, w, now, o, commits);
        hide Apply;
      }
    case Patch(_, _, _) =>
      ClockStep(e, w, s);
      hide Apply;
    case Plan(_) =>
  }

  lemma {:induction false} UnseenRun(e: Env, w: World, steps: seq<Step>, deadline: int, gap: int)
    requires Scheduled(w, deadline) && LastUnseen(w, w.lastPass) + gap < deadline && PunctualRun(e, w, steps, gap)
    ensures SeenInTime(e, w, steps, deadline)
            || Waiting(Exec(e, w, steps), deadline, w.job.nextCheckAt.value, LastUnseen(w, w.lastPass))
    decreases |steps|
  {
    if steps != [] {
      var front, s := steps[..|steps| - 1], steps[|steps| - 1];
      PrefixOfRun(e, w, steps, gap, deadline);
      UnseenRun(e, w, front, deadline, gap);
      hide Apply, Waiting, Punctual, Due, Over, SeenInTime, PunctualRun;
      if !SeenInTime(e, w, front, deadline) {
        StepWaits(e, Exec(e, w, front), s, deadline, w.job.nextCheckAt.value, LastUnseen(w, w.lastPass), gap);
      }
    }
  }

  /** Passes from one instant up to another, `gap` apart. */
  function Climb(start: int, end: int, gap: int, o: Oracle): (steps: seq<Step>)
    requires 0 < gap
    ensures forall s :: s in steps ==> s.Pass? && s.o == o
    decreases end - start
  {
    if end <= start then [] else Climb(start, end - gap, gap, o) + [Pass(end, o, true)]
  }

  lemma NoStepsTaken(e: Env, w: World, gap: int, deadline: int)
    ensures Exec(e, w, []) == w && PunctualRun(e, w, [], gap) && !SeenInTime(e, w, [], deadline)
  {
  }

  lemma {:induction false} ClimbUnseen(e: Env, w: World, end: int, gap: int, o: Oracle, deadline: int)
    requires 0 < gap && w.job.nextCheckAt.Some? && end < w.job.nextCheckAt.value
    ensures var steps := Climb(w.lastPass, end, gap, o);
            && Exec(e, w, steps) == w.(lastPass := (if w.lastPass < end then end else w.lastPass))
            && PunctualRun(e, w, steps, gap) && !SeenInTime(e, w, steps, deadline)
    decreases end - w.lastPass
  {
    hide SeenInTime, PunctualRun;
    NoStepsTaken(e, w, gap, deadline);
    if w.lastPass < end {
      var front, s := Climb(w.lastPass, end - gap, gap, o), Pass(end, o, true);
      ClimbUnseen(e, w, end - gap, gap, o, deadline);
      var v := Exec(e, w, front);
      assert (front + [s])[..|front|] == front;
      PrefixOfRun(e, w, front + [s], gap, deadline);
      PassNotDue(e, v, end, o, true);
      hide Apply, Climb;
      assert Exec(e, w, front + [s]) == Apply(e, v, s);
    }
  }

  /** If LastUnseen leaves no pass before the deadline, here is a punctual run in
      which nobody looks. */
  lemma {:induction false} UnseenRunExists(e: Env, w: World, deadline: int, gap: int, o: Oracle)
    returns (steps: seq<Step>)
    requires 0 < gap && w.job.nextCheckAt.Some? && deadline <= LastUnseen(w, w.lastPass) + gap
    ensures PunctualRun(e, w, steps, gap) && deadline <= Exec(e, w, steps).lastPass
    ensures !SeenInTime(e, w, steps, deadline)
  {
    var climb := Climb(w.lastPass, w.job.nextCheckAt.value - 1, gap, o);
    ClimbUnseen(e, w, w.job.nextCheckAt.value - 1, gap, o, deadline);
    var s := Pass(LastUnseen(w, w.lastPass) + gap, o, true);
    steps := climb + [s];
    assert steps[..|steps| - 1] == climb && steps[|steps| - 1] == s;
    PrefixOfRun(e, w, steps, gap, deadline);
    PassMovesClock(e, Exec(e, w, climb), s.now, o, true);
    hide Apply;
  }

  /** With passes at most `gap` apart, a booking is sure to be looked at before
      its deadline if and only if the last instant without a look is more than
      `gap` before it. */
  lemma {:induction false} SeenInTimeExactly(e: Env, w: World, deadline: int, gap: int)
    requires 0 < gap && Scheduled(w, deadline)
    ensures AlwaysSeenInTime(e, w, deadline, gap) <==> LastUnseen(w, w.lastPass) + gap < deadline
  {
    hide PunctualRun, SeenInTime, Exec;
    if LastUnseen(w, w.lastPass) + gap < deadline {
      forall steps | PunctualRun(e, w, steps, gap) && deadline <= Exec(e, w, steps).lastPass
        ensures SeenInTime(e, w, steps, deadline)
      {
        UnseenRun(e, w, steps, deadline, gap);
      }
    } else {
      var silence := Oracle(LookupRaised, CheckRaised, Delivery(false, false, false), 0, None);
      var steps := UnseenRunExists(e, w, deadline, gap, silence);
      assert !SeenInTime(e, w, steps, deadline);
    }
  }

  // ---------------------------------------------------------------- warned in time

  /** A kept attempt to warn before the deadline. */
  predicate WarningTried(log: seq<Entry>, deadline: int) {
    exists x :: x in log && x.Mailed? && x.event.DeadlineApproaching? && x.committed && x.at < deadline
  }

  /** However the passes fall, and whatever fails, a warning is tried in time
      unless a drop can be told of instead. */
  ghost predicate AlwaysWarned(e: Env, w: World, deadline: int, gap: int) {
    forall steps :: AttendedRun(e, w, steps, gap) && deadline <= Exec(e, w, steps).lastPass
                    && NothingReachable(e, Added(e, w, steps), deadline) ==>
      WarningTried(Added(e, w, steps), deadline)
  }

  /** Once the mark is set, no step whatever leads to another warning. */
  lemma {:induction false} StepNeverWarnsAgain(e: Env, w: World, s: Step)
    requires w.job.deadlineAlertSentAt.Some?
    ensures Apply(e, w, s).job.deadlineAlertSentAt.Some?
    ensures forall x :: x in Logged(e, w, s) && x.Mailed? ==> !x.event.DeadlineApproaching?
  {
    hide BestLikeForLike, KindOf, ByKind, AfterRetry, CheckByKind, MailByKind, InPass;
    if s.Pass? {
      if Due(w, s.now) {
        PassByKind(e, w, s.now, s.o, s.commits);
        VisitMarks(e.cfg, w.job, s.o, s.now);
        OnlyMail(e, w.job, s.o, s.now, s.commits);
        Delivery.WarningComesOnce(e.cfg, w.job, s.o, s.now);
        OnlyWarningsWarn(e, w.job, s.o, s.now, s.commits);
      } else {
        PassNotDue(e, w, s.now, s.o, s.commits);
      }
    } else {
      OtherStep(e, w, s);
    }
    hide Apply;
  }

  lemma OnlyWarningsWarn(e: Env, j: Job, o: Oracle, now: int, commits: bool)
    requires !KindOf(e.cfg, j, o, now).Warning?
    ensures forall x :: x in MailByKind(e, j, o, now, commits) ==> x.Mailed? && !x.event.DeadlineApproaching?
  {
    hide BestLikeForLike, KindOf, AfterRetry;
  }

  lemma {:induction false} NeverWarnedAgain(e: Env, w: World, steps: seq<Step>)
    requires w.job.deadlineAlertSentAt.Some?
    ensures Exec(e, w, steps).job.deadlineAlertSentAt.Some?
    ensures forall x :: x in Added(e, w, steps) && x.Mailed? ==> !x.event.DeadlineApproaching?
    decreases |steps|
  {
    if steps != [] {
      NeverWarnedAgain(e, w, steps[..|steps| - 1]);
      StepNeverWarnsAgain(e, Exec(e, w, steps[..|steps| - 1]), steps[|steps| - 1]);
      hide Apply, Logged;
    }
  }

  /** Passes `gap` apart that get answers make an attended run. */
  lemma {:induction false} ClimbIsAttended(e: Env, w: World, end: int, gap: int, o: Oracle)
    requires 0 < gap && o.rates.Rates?
    ensures var steps := Climb(w.lastPass, end, gap, o);
            && AttendedRun(e, w, steps, gap)
            && Exec(e, w, steps).lastPass == LastServed(e, w, steps) == (if w.lastPass < end then end else w.lastPass)
    decreases end - w.lastPass
  {
    hide Exec, LastServed, AttendedRun;
    if w.lastPass < end {
      var front, s := Climb(w.lastPass, end - gap, gap, o), Pass(end, o, true);
      ClimbIsAttended(e, w, end - gap, gap, o);
      AttendedAppend(e, w, front, s, gap);
      PassMovesClock(e, Exec(e, w, front), end, o, true);
      hide Climb, Apply;
    } else {
      NoSteps(e, w);
      AttendedFromTheOutset(e, w, gap);
    }
  }

  lemma AttendedFromTheOutset(e: Env, w: World, gap: int)
    ensures AttendedRun(e, w, [], gap)
  {
  }

  lemma {:induction false} AttendedAppend(e: Env, w: World, front: seq<Step>, s: Step, gap: int)
    requires AttendedRun(e, w, front, gap) && Attended(Exec(e, w, front), s, LastServed(e, w, front), gap)
    ensures AttendedRun(e, w, front + [s], gap)
    ensures var v := Exec(e, w, front);
            && Exec(e, w, front + [s]) == Apply(e, v, s)
            && Added(e, w, front + [s]) == Added(e, w, front) + Logged(e, v, s)
            && LastServed(e, w, front + [s]) == (if Serves(v, s) then s.now else LastServed(e, w, front))
  {
    hide Attended, Apply, Exec, LastServed, Logged, Serves, Added;
    var steps := front + [s];
    assert steps[..|steps| - 1] == front && steps[|steps| - 1] == s;
    OneMoreStep(e, w, steps);
    forall i | 0 <= i < |steps|
      ensures Attended(Exec(e, w, steps[..i]), steps[i], LastServed(e, w, steps[..i]), gap)
    {
      if i < |front| {
        assert steps[..i] == front[..i];
        assert Attended(Exec(e, w, front[..i]), front[i], LastServed(e, w, front[..i]), gap);
      }
    }
  }

  /** Checks that are answered with an empty list are flat. */
  lemma {:induction false} EmptyAnswersAreFlat(e: Env, w: World, steps: seq<Step>)
    requires forall s :: s in steps ==> s.Pass? && s.o.rates == Rates([])
    ensures forall x :: x in Added(e, w, steps) && x.Checked? ==> x.verdict.Flat?
    decreases |steps|
  {
    if steps != [] {
      var front, s := steps[..|steps| - 1], steps[|steps| - 1];
      EmptyAnswersAreFlat(e, w, front);
      assert s in steps;
      EmptyAnswerIsFlat(e, Exec(e, w, front), s);
      hide Logged, Apply;
    }
  }

  lemma EmptyAnswerIsFlat(e: Env, w: World, s: Step)
    requires s.Pass? && s.o.rates == Rates([])
    ensures forall x :: x in Logged(e, w, s) && x.Checked? ==> x.verdict.Flat?
  {
    hide KindOf, AfterRetry, Due, MailByKind;
    OnlyMail(e, w.job, s.o, s.now, s.commits);
  }

  /** An attended run past the deadline in which nothing is found. */
  lemma {:induction false} BarrenRun(e: Env, w: World, deadline: int, gap: int, o: Oracle)
    requires 0 < gap && o.rates == Rates([])
    ensures var steps := Climb(w.lastPass, deadline, gap, o);
            && AttendedRun(e, w, steps, gap) && deadline <= Exec(e, w, steps).lastPass
            && NothingReachable(e, Added(e, w, steps), deadline)
  {
    hide AttendedRun, Exec, Added, LastServed, Climb;
    ClimbIsAttended(e, w, deadline, gap, o);
    EmptyAnswersAreFlat(e, w, Climb(w.lastPass, deadline, gap, o));
  }

  /** If the first look may come at the deadline or after it, an attended run in
      which it does. */
  lemma {:induction false} LateRun(e: Env, w: World, deadline: int, gap: int, o: Oracle) returns (steps: seq<Step>)
    requires 0 < gap && o.rates == Rates([])
    requires Watched(w, deadline) && deadline <= LastUnseen(w, w.lastPass) + gap
    ensures AttendedRun(e, w, steps, gap) && deadline <= Exec(e, w, steps).lastPass
    ensures forall x :: x in Added(e, w, steps) ==>
              (x.Checked? ==> deadline <= x.row.checkedAt) && (x.Mailed? ==> deadline <= x.at)
  {
    hide AttendedRun, Exec, Added, Logged, Apply, LastServed;
    var end, s := w.job.nextCheckAt.value - 1, Pass(LastUnseen(w, w.lastPass) + gap, o, true);
    var climb := Climb(w.lastPass, end, gap, o);
    ClimbIsAttended(e, w, end, gap, o);
    ClimbUnseen(e, w, end, gap, o, deadline);
    RunAdds(e, w, climb);
    hide Climb;
    assert Added(e, w, climb) == [];
    AttendedAppend(e, w, climb, s, gap);
    PassMovesClock(e, Exec(e, w, climb), s.now, o, true);
    LoggedAtItsTime(e, Exec(e, w, climb), s);
    steps := climb + [s];
  }

  lemma LoggedAtItsTime(e: Env, w: World, s: Step)
    requires s.Pass?
    ensures forall x :: x in Logged(e, w, s) ==>
              if x.Checked? then x.row.checkedAt == s.now else x.at == s.now
  {
    hide CheckByKind, MailByKind, Due, KindOf;
    OnlyMail(e, w.job, s.o, s.now, s.commits);
    CheckRecordsBest(e, w.job, s.o, s.now, s.commits);
    MailIsOfItsPass(e, w.job, s.o, s.now, s.commits);
  }

  /** Two ways to miss the warning: the mark is set, or the look comes too late. */
  lemma {:induction false} UnwarnedRunExists(e: Env, w: World, deadline: int, gap: int) returns (steps: seq<Step>)
    requires 0 < gap && Watched(w, deadline)
    requires w.job.deadlineAlertSentAt.Some? || deadline <= LastUnseen(w, w.lastPass) + gap
    ensures AttendedRun(e, w, steps, gap) && deadline <= Exec(e, w, steps).lastPass
    ensures NothingReachable(e, Added(e, w, steps), deadline) && !WarningTried(Added(e, w, steps), deadline)
  {
    var o := Oracle(LookupRaised, Rates([]), Delivery(false, false, false), 0, None);
    hide AttendedRun, Exec, Added, Climb;
    if w.job.deadlineAlertSentAt.Some? {
      steps := Climb(w.lastPass, deadline, gap, o);
      BarrenRun(e, w, deadline, gap, o);
      NeverWarnedAgain(e, w, steps);
    } else {
      steps := LateRun(e, w, deadline, gap, o);
    }
  }

  /** A watched booking is sure to be warned of, if nothing better is found, if and
      only if it has not been warned of before, and the last instant without a look
      is more than `gap` before the deadline. */
  lemma {:induction false} WarnedInTimeExactly(e: Env, w: World, deadline: int, gap: int)
    requires ValidEnv(e) && AtPrecision(e, w.job) && Watched(w, deadline)
    requires 0 < gap && Stride(e, gap) <= WindowLength(e)
    ensures AlwaysWarned(e, w, deadline, gap) <==>
              w.job.deadlineAlertSentAt.None? && LastUnseen(w, w.lastPass) + gap < deadline
  {
    hide AttendedRun, Exec, Added, WarningTried, NothingReachable, Stride, WindowLength, AtPrecision, LastUnseen;
    if w.job.deadlineAlertSentAt.None? && LastUnseen(w, w.lastPass) + gap < deadline {
      forall steps | AttendedRun(e, w, steps, gap) && deadline <= Exec(e, w, steps).lastPass
                     && NothingReachable(e, Added(e, w, steps), deadline)
        ensures WarningTried(Added(e, w, steps), deadline)
      {
        SureWarning(e, w, steps, deadline, gap);
      }
    } else {
      var steps := UnwarnedRunExists(e, w, deadline, gap);
      assert !WarningTried(Added(e, w, steps), deadline);
    }
  }

  lemma {:induction false} SureWarning(e: Env, w: World, steps: seq<Step>, deadline: int, gap: int)
    requires ValidEnv(e) && AtPrecision(e, w.job) && Watched(w, deadline) && AttendedRun(e, w, steps, gap)
    requires 0 <= gap && Stride(e, gap) <= WindowLength(e)
    requires w.job.deadlineAlertSentAt.None? && LastUnseen(w, w.lastPass) + gap < deadline
    requires deadline <= Exec(e, w, steps).lastPass && NothingReachable(e, Added(e, w, steps), deadline)
    ensures WarningTried(Added(e, w, steps), deadline)
  {
    hide AttendedRun, Exec, Added, NothingReachable, Stride, WindowLength, AtPrecision, LastUnseen, WindowChecks;
    DeadlineCannotBeScheduledPast(e, w, steps, deadline, gap);
    var log := Added(e, w, steps);
    assert WindowChecks(e, log, deadline) != [];
    PickedBelong(log, RefusedWarning(deadline, WindowLength(e)));
    if Refusals(e, log, deadline) != [] { assert Refusals(e, log, deadline)[0] in log; }
  }
}
