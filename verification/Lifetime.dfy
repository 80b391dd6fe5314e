/** The life of a booking that nobody re-labels by hand: it is scheduled exactly
    while it is monitored, its status is the last news the user got, it is
    announced once, and it ends once, with nothing after. */
module Lifetime {
  import opened Models
  import opened Matching
  import opened Worker
  import opened Lifecycle
  import opened Jobs
  import opened Protocol
  import opened ProtocolLaws

  /** Kept mail about a drop or the deadline. */
  predicate KeptNews(x: Entry) {
    KeptDrop(x) || KeptWarning(x)
  }

  /** The status that the last such mail stands for. */
  function StatusAfter(news: seq<Entry>): Status {
    if news == [] then Active
    else if IsDrop(news[|news| - 1]) then DropFound
    else DeadlineSoon
  }

  function News(w: World): seq<Entry> { Pick(w.log, KeptNews) }
  function Endings(w: World): seq<Entry> { Pick(w.log, KeptEnding) }
  function Welcomes(w: World): seq<Entry> { Pick(w.log, IsWelcome) }

  /** A job has a next check exactly while the scheduler polls it. */
  predicate Scheduled(j: Job) {
    j.nextCheckAt.Some? <==> Monitored(j.status)
  }

  /** A pending job lacks something. */
  predicate TrulyPending(j: Job) {
    Pending(j.status) ==> !ReadyToMonitor(j)
  }

  predicate LifeInv(w: World) {
    var s := w.job.status;
    && Scheduled(w.job)
    && TrulyPending(w.job)
    && (Monitored(s) ==> s == StatusAfter(News(w)) && |Welcomes(w)| == 1)
    && (Pending(s) ==> News(w) == [] && Welcomes(w) == [])
    && |Welcomes(w)| <= 1
    && (Endings(w) == [] || (Ended(w) && !Monitored(s) && !Pending(s)))
  }

  /** The wrap-up is the last thing that ever happened. */
  predicate Ended(w: World) {
    |Endings(w)| == 1 && w.log != [] && w.log[|w.log| - 1] == Endings(w)[0]
  }

  // ---------------------------------------------------------------- visits

  lemma {:induction false} VisitNews(e: Env, w: World, now: int, o: Oracle, commits: bool)
    requires Due(w, now)
    ensures var w', mails := Apply(e, w, Pass(now, o, commits)), MailByKind(e, w.job, o, now, commits);
            var kind := KindOf(e.cfg, w.job, o, now);
            var told := (kind.Alert? && o.delivery.drop) || (kind.Warning? && o.delivery.deadline);
            && News(w') == News(w) + (if commits && told then mails else [])
            && Endings(w') == Endings(w) + (if commits && kind.Closing? && o.delivery.ended then mails else [])
            && Welcomes(w') == Welcomes(w)
            && (kind.Alert? || kind.Warning? || kind.Closing? ==> |mails| == 1)
            && (kind.Alert? && o.delivery.drop ==> IsDrop(mails[0]))
            && (kind.Warning? ==> !IsDrop(mails[0]))
  {
    hide Apply, BestLikeForLike, Pick, KindOf, Recorded, VerdictOf, CheckByKind, Due, AfterRetry, SawMovement;
    var checks, mails := CheckByKind(e, w.job, o, now, commits), MailByKind(e, w.job, o, now, commits);
    var kind := KindOf(e.cfg, w.job, o, now);
    VisitPick(e, w, now, o, commits, KeptNews);
    VisitPick(e, w, now, o, commits, KeptEnding);
    VisitPick(e, w, now, o, commits, IsWelcome);
    OnlyMail(e, w.job, o, now, commits);
    assert checks != [] ==> checks[0] in checks;
    assert Only(checks, KeptNews) == [] && Only(checks, KeptEnding) == [] && Only(checks, IsWelcome) == [];
    assert Only(mails, IsWelcome) == [];
    var told := (kind.Alert? && o.delivery.drop) || (kind.Warning? && o.delivery.deadline);
    assert Only(mails, KeptNews) == if commits && told then mails else [];
    assert Only(mails, KeptEnding) == if commits && kind.Closing? && o.delivery.ended then mails else [];
  }

  /** The status after a visit, and the schedule with it. */
  lemma {:induction false} VisitStatus(e: Env, w: World, now: int, o: Oracle, commits: bool)
    requires Due(w, now)
    ensures var w', kind := Apply(e, w, Pass(now, o, commits)), KindOf(e.cfg, w.job, o, now);
            && (w'.job.nextCheckAt.Some? <==> !(commits && kind.Closing? && o.delivery.ended))
            && w'.job.status == (if !commits then w.job.status
                                 else if kind.Closing? && o.delivery.ended then Expired
                                 else if kind.Alert? && o.delivery.drop then DropFound
                                 else if kind.Warning? && o.delivery.deadline then DeadlineSoon
                                 else w.job.status)
  {
    hide BestLikeForLike, KindOf, ByKind, AfterRetry, CheckByKind, MailByKind, VerdictOf, CadenceHours;
    PassByKind(e, w, now, o, commits);
    VisitMarks(e.cfg, w.job, o, now);
    VisitSchedule(e.cfg, w.job, o, now);
    hide Apply;
  }

  lemma {:induction false} VisitKeepsLife(e: Env, w: World, now: int, o: Oracle, commits: bool)
    requires Due(w, now) && LifeInv(w)
    ensures LifeInv(Apply(e, w, Pass(now, o, commits)))
  {
    hide Apply, BestLikeForLike, KindOf, AfterRetry, MailByKind, ReadyToMonitor, News, Endings, Welcomes, IsDrop;
    var w', mails := Apply(e, w, Pass(now, o, commits)), MailByKind(e, w.job, o, now, commits);
    assert Endings(w) == [];
    VisitStatus(e, w, now, o, commits);
    VisitNews(e, w, now, o, commits);
    var kind, news := KindOf(e.cfg, w.job, o, now), News(w);
    if commits && kind.Closing? && o.delivery.ended {
      EndingIsLast(e, w, now, o);
      assert Endings(w') == [mails[0]];
    } else if commits && ((kind.Alert? && o.delivery.drop) || (kind.Warning? && o.delivery.deadline)) {
      assert News(w') == news + mails && (news + mails)[|news|] == mails[0];
      assert Endings(w') == [];
    } else {
      assert News(w') == news && Endings(w') == [];
    }
  }

  lemma {:induction false} EndingIsLast(e: Env, w: World, now: int, o: Oracle)
    requires Due(w, now) && KindOf(e.cfg, w.job, o, now).Closing?
    ensures var log, mails := Apply(e, w, Pass(now, o, true)).log, MailByKind(e, w.job, o, now, true);
            |mails| == 1 && log != [] && log[|log| - 1] == mails[0]
  {
    hide BestLikeForLike, KindOf, ByKind, CheckByKind, MailByKind;
    PassByKind(e, w, now, o, true);
    ClosingLogsOnlyTheEnding(e, w.job, o, now, true);
    hide Apply;
  }

  lemma ClosingLogsOnlyTheEnding(e: Env, j: Job, o: Oracle, now: int, commits: bool)
    requires KindOf(e.cfg, j, o, now).Closing?
    ensures CheckByKind(e, j, o, now, commits) == [] && |MailByKind(e, j, o, now, commits)| == 1
  {
    hide BestLikeForLike, KindOf;
  }

  // ---------------------------------------------------------------- hotel identity

  /** A hotel is never guessed: outside a PATCH, a job comes by a hotel only while
      it has none, and only if the lookup gave a single match at 0.9 or better. */
  lemma {:induction false} HotelIsNeverGuessed(e: Env, w: World, now: int, o: Oracle, commits: bool)
    ensures var before, after := w.job.hotelId, Apply(e, w, Pass(now, o, commits)).job.hotelId;
            after != before ==>
              && !Truthy(before)
              && o.resolution.Matches? && |o.resolution.matches| == 1 && o.resolution.matches[0].confidence >= 0.9
              && after == Some(o.resolution.matches[0].hotelId)
  {
    if Due(w, now) {
      PassByKind(e, w, now, o, commits);
      VisitHotel(e.cfg, w.job, o, now);
    } else {
      PassNotDue(e, w, now, o, commits);
    }
    hide Apply, ByKind, KindOf, CheckByKind, MailByKind, BestLikeForLike;
  }

  lemma VisitHotel(cfg: Settings, j: Job, o: Oracle, now: int)
    ensures ByKind(cfg, j, o, now).job.hotelId in {j.hotelId, AfterRetry(j, o).hotelId}
  {
    hide BestLikeForLike, DropFloor, KindOf, DropEvent, WarningEvent, CadenceHours;
  }

  // ---------------------------------------------------------------- beginnings

  /** An email starts monitoring exactly if nothing is missing, and otherwise
      says what to ask for first: the hotel, then the deadline. */
  lemma {:induction false} EmailStartsAsReady(e: Env, c: Creation, plan: PlanStatus, accepted: bool)
    requires c.FromEmail? && Create(c).Some?
    ensures var w := Start(e, c, plan, accepted);
            && (w.job.status.Active? <==> ReadyToMonitor(w.job))
            && (w.job.status.PendingHotel? <==> w.job.hotelId.None?)
            && (w.job.status.PendingInfo? <==> w.job.hotelId.Some? && w.job.terms.deadline.None?)
            && (w.log[0].event.HotelResolutionNeeded? <==> w.job.status.PendingHotel?)
            && (w.log[0].event.NeedsDeadline? <==> w.job.status.PendingInfo?)
            && (IsWelcome(w.log[0]) <==> w.job.status.Active?)
  {
  }

  // ---------------------------------------------------------------- patches

  lemma {:induction false} StatusIsUntouched(j: Job, patch: seq<Assign>)
    requires forall i :: 0 <= i < |patch| ==> !patch[i].SetStatus?
    ensures Patched(j, patch).status == j.status
  {
    if patch != [] { StatusIsUntouched(j, patch[..|patch| - 1]); }
  }

  lemma {:induction false} PatchKeepsLife(e: Env, w: World, s: Step)
    requires s.Patch? && NoStatusPatch(s) && LifeInv(w)
    ensures LifeInv(Apply(e, w, s))
  {
    hide Patched, Pick;
    var w' := Apply(e, w, s);
    StatusIsUntouched(w.job, s.patch);
    PatchKeepsMonitoring(w.job, s.patch);
    if PatchActivates(w.job, s.patch) {
      var x := Mailed(s.when, MonitoredEvent(Patched(w.job, s.patch)), s.accepted, true, Patched(w.job, s.patch), []);
      assert w'.log == w.log + [x];
      WelcomeOnly(w.log, x);
    } else {
      assert w'.log == w.log + [];
      assert w'.log == w.log;
    }
  }

  lemma {:induction false} WelcomeOnly(log: seq<Entry>, x: Entry)
    requires IsWelcome(x)
    ensures Pick(log + [x], KeptNews) == Pick(log, KeptNews)
    ensures Pick(log + [x], KeptEnding) == Pick(log, KeptEnding)
    ensures Pick(log + [x], IsWelcome) == Pick(log, IsWelcome) + [x]
  {
    PickAppend(log, [x], KeptNews);
    PickAppend(log, [x], KeptEnding);
    PickAppend(log, [x], IsWelcome);
    PickOne([x], KeptNews);
    PickOne([x], KeptEnding);
    PickOne([x], IsWelcome);
    hide Pick;
  }

  lemma {:induction false} StepKeepsLife(e: Env, w: World, s: Step)
    requires NoStatusPatch(s) && LifeInv(w)
    ensures LifeInv(Apply(e, w, s))
  {
    match s
    case Pass(now, o, commits) =>
      if Due(w, now) {
        VisitKeepsLife(e, w, now, o, commits);
      } else {
        PassNotDue(e, w, now, o, commits);
        hide Apply;
      }
    case Patch(_, _, _) => PatchKeepsLife(e, w, s);
    case Cancel =>
      hide Pick;
    case Plan(_) =>
      hide Pick;
  }

  lemma {:induction false} StartIsAlive(e: Env, c: Creation, plan: PlanStatus, accepted: bool)
    requires Create(c).Some?
    ensures LifeInv(Start(e, c, plan, accepted))
  {
    var w := Start(e, c, plan, accepted);
    PickOne(w.log, KeptNews);
    PickOne(w.log, KeptEnding);
    PickOne(w.log, IsWelcome);
    hide Pick;
  }

  /** In every run without a status set by hand: no job is stranded and none is a
      zombie (it has a next check exactly while it is monitored); a monitored
      job's status tells its last drop or deadline mail; it was announced exactly
      once; and once the wrap-up has gone out, nothing follows it in the log, no
      check and no mail, and it is the only one. */
  lemma {:induction false} LifeHolds(e: Env, c: Creation, plan: PlanStatus, accepted: bool, steps: seq<Step>)
    requires Create(c).Some? && NoStatusPatches(steps)
    ensures LifeInv(Exec(e, Start(e, c, plan, accepted), steps))
    decreases |steps|
  {
    StartIsAlive(e, c, plan, accepted);
    if steps != [] {
      LifeHolds(e, c, plan, accepted, steps[..|steps| - 1]);
      var w := Start(e, c, plan, accepted);
      StepKeepsLife(e, Exec(e, w, steps[..|steps| - 1]), steps[|steps| - 1]);
      hide Apply, LifeInv;
    }
  }

  /** The same, position by position: a kept wrap-up is the last entry. */
  lemma {:induction false} NothingFollowsTheWrapUp(e: Env, c: Creation, plan: PlanStatus, accepted: bool,
                                                   steps: seq<Step>, i: nat)
    requires Create(c).Some? && NoStatusPatches(steps)
    requires var log := Exec(e, Start(e, c, plan, accepted), steps).log; i < |log| && KeptEnding(log[i])
    ensures i == |Exec(e, Start(e, c, plan, accepted), steps).log| - 1
  {
    hide Exec, Start, Create, NoStatusPatches, Scheduled, TrulyPending, StatusAfter, Pick;
    var w := Exec(e, Start(e, c, plan, accepted), steps);
    LifeHolds(e, c, plan, accepted, steps);
    PickedBelong(w.log, KeptEnding);
    assert w.log[i] in Endings(w);
    assert Endings(w)[0] in Endings(w);
    LastIsOnly(w.log, KeptEnding);
  }

  lemma {:induction false} LastIsOnly(log: seq<Entry>, p: Entry -> bool)
    requires log != [] && p(log[|log| - 1]) && |Pick(log, p)| == 1
    ensures forall i :: 0 <= i < |log| - 1 ==> !p(log[i])
  {
    var front := log[..|log| - 1];
    PickedBelong(front, p);
    assert forall i :: 0 <= i < |log| - 1 ==> log[i] in front;
  }

  // ---------------------------------------------------------------- status set by hand

  /** A PATCH that is stored keeps the schedule consistent exactly when it
      activates the job or moves it neither into nor out of monitoring. */
  lemma {:induction false} PatchKeepsSchedule(j: Job, patch: seq<Assign>, when: int)
    requires Scheduled(j) && StorablePatch(patch)
    ensures Scheduled(Updated(j, patch, when)) <==>
              (PatchActivates(j, patch) || (Monitored(Patched(j, patch).status) <==> Monitored(j.status)))
  {
    PatchKeepsMonitoring(j, patch);
    hide Patched, ReadyToMonitor;
  }

  /** For instance: setting a cancelled job back to active leaves it without a
      next check, so that no pass ever looks at it. */
  lemma {:induction false} ReopenedJobIsStranded(j: Job, when: int, now: int)
    requires Scheduled(j) && j.status.Cancelled?
    ensures var k := Updated(j, [SetStatus(Some(Active))], when);
            Monitored(k.status) && k.nextCheckAt.None? && !Selected(k, now)
  {
    var patch := [SetStatus(Some(Active))];
    assert patch[..0] == [];
    assert Patched(j, patch) == Assigned(j, patch[0]);
  }

  /** A pending job is never complete after a step, whatever is patched, the
      status included. */
  lemma {:induction false} StepLeavesTrulyPending(e: Env, w: World, s: Step)
    requires TrulyPending(w.job)
    ensures TrulyPending(Apply(e, w, s).job)
  {
    if s.Pass? {
      if Due(w, s.now) {
        PassByKind(e, w, s.now, s.o, s.commits);
        VisitMarks(e.cfg, w.job, s.o, s.now);
      } else {
        PassNotDue(e, w, s.now, s.o, s.commits);
      }
      hide Apply, ByKind, KindOf, BestLikeForLike;
    } else {
      hide Patched;
    }
  }

  lemma {:induction false} PendingMeansIncomplete(e: Env, c: Creation, plan: PlanStatus, accepted: bool,
                                                  steps: seq<Step>)
    requires Create(c).Some?
    ensures TrulyPending(Exec(e, Start(e, c, plan, accepted), steps).job)
    decreases |steps|
  {
    if steps != [] {
      PendingMeansIncomplete(e, c, plan, accepted, steps[..|steps| - 1]);
      var w := Start(e, c, plan, accepted);
      StepLeavesTrulyPending(e, Exec(e, w, steps[..|steps| - 1]), steps[|steps| - 1]);
      hide Apply, TrulyPending;
    }
  }
}
