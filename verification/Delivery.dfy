/** What a failed final commit can cost: the row forgets, the mail stays sent.
    Every kind of mail is bounded by what the protocol allows once, plus one for
    each failed pass. */
module Delivery {
  import opened Models
  import opened Matching
  import opened Worker
  import opened Protocol
  import opened ProtocolLaws
  import opened Alerts
  import Lifetime

  /** Scheduler mail that went out in a pass that was not kept. */
  predicate Lost(x: Entry) {
    LostDrop(x) || LostWarning(x) || LostEnding(x)
  }

  function Warnings(w: World): seq<Entry> { Pick(w.log, KeptWarning) }

  /** At most one kept warning, and the mark of the row tells which. */
  predicate WarningMark(w: World) {
    if Warnings(w) == [] then w.job.deadlineAlertSentAt.None?
    else |Warnings(w)| == 1 && Warnings(w)[0].Mailed? && w.job.deadlineAlertSentAt == Some(Warnings(w)[0].at)
  }

  predicate DeliveryInv(w: World) {
    WarningMark(w) && |Pick(w.log, Lost)| <= w.aborts
  }

  lemma {:induction false} VisitMail(e: Env, w: World, now: int, o: Oracle, commits: bool)
    requires Due(w, now)
    ensures var w', mails := Apply(e, w, Pass(now, o, commits)), MailByKind(e, w.job, o, now, commits);
            var kind := KindOf(e.cfg, w.job, o, now);
            && Warnings(w') == Warnings(w) + (if commits && kind.Warning? && o.delivery.deadline then mails else [])
            && |Pick(w'.log, Lost)| <= |Pick(w.log, Lost)| + (if commits then 0 else 1)
            && (kind.Warning? ==> |mails| == 1 && mails[0].Mailed? && mails[0].at == now)
  {
    hide Apply, BestLikeForLike, Pick, KindOf, Recorded, VerdictOf, CheckByKind, Due, AfterRetry, SawMovement;
    var checks, mails := CheckByKind(e, w.job, o, now, commits), MailByKind(e, w.job, o, now, commits);
    var kind := KindOf(e.cfg, w.job, o, now);
    VisitPick(e, w, now, o, commits, KeptWarning);
    VisitPick(e, w, now, o, commits, Lost);
    OnlyMail(e, w.job, o, now, commits);
    assert checks != [] ==> checks[0] in checks;
    assert Only(checks, KeptWarning) == [] && Only(checks, Lost) == [];
    assert commits ==> Only(mails, Lost) == [];
    assert Only(mails, KeptWarning) == if commits && kind.Warning? && o.delivery.deadline then mails else [];
  }

  lemma WarningComesOnce(cfg: Settings, j: Job, o: Oracle, now: int)
    ensures KindOf(cfg, j, o, now).Warning? ==> j.deadlineAlertSentAt.None?
  {
    hide BestLikeForLike, DropFloor;
  }

  lemma {:induction false} StepKeepsDeliveryInv(e: Env, w: World, s: Step)
    requires DeliveryInv(w)
    ensures DeliveryInv(Apply(e, w, s))
  {
    hide BestLikeForLike, KindOf, ByKind, AfterRetry, CheckByKind, MailByKind, VerdictOf, Pick, Processed, InPass;
    if s.Pass? {
      if Due(w, s.now) {
        PassByKind(e, w, s.now, s.o, s.commits);
        VisitMarks(e.cfg, w.job, s.o, s.now);
        VisitMail(e, w, s.now, s.o, s.commits);
        WarningComesOnce(e.cfg, w.job, s.o, s.now);
        var mails := MailByKind(e, w.job, s.o, s.now, s.commits);
        assert Warnings(w) == [] ==> Warnings(w) + mails == mails;
      } else {
        PassNotDue(e, w, s.now, s.o, s.commits);
      }
    } else {
      OtherStep(e, w, s);
      OtherStepPick(e, w, s, KeptWarning);
      OtherStepPick(e, w, s, Lost);
    }
    hide Apply;
  }

  lemma {:induction false} DeliveryInvHolds(e: Env, c: Creation, plan: PlanStatus, accepted: bool, steps: seq<Step>)
    requires Create(c).Some?
    ensures DeliveryInv(Exec(e, Start(e, c, plan, accepted), steps))
  {
    var w := Start(e, c, plan, accepted);
    PickOne(w.log, KeptWarning);
    PickOne(w.log, Lost);
    assert DeliveryInv(w);
    hide Pick, Exec, DeliveryInv;
    RunKeepsDeliveryInv(e, w, steps);
  }

  lemma {:induction false} RunKeepsDeliveryInv(e: Env, w: World, steps: seq<Step>)
    requires DeliveryInv(w)
    ensures DeliveryInv(Exec(e, w, steps))
    decreases |steps|
  {
    if steps != [] {
      RunKeepsDeliveryInv(e, w, steps[..|steps| - 1]);
      StepKeepsDeliveryInv(e, Exec(e, w, steps[..|steps| - 1]), steps[|steps| - 1]);
      hide Apply, DeliveryInv;
    }
  }

  // ---------------------------------------------------------------- counting

  lemma {:induction false} DeliveredIsKeptOrLost(log: seq<Entry>)
    ensures |Pick(log, IsDrop)| == |Pick(log, KeptDrop)| + |Pick(log, LostDrop)|
    ensures |Pick(log, IsWarning)| == |Pick(log, KeptWarning)| + |Pick(log, LostWarning)|
    ensures |Pick(log, IsEnding)| == |Pick(log, KeptEnding)| + |Pick(log, LostEnding)|
    ensures |Pick(log, LostDrop)| + |Pick(log, LostWarning)| + |Pick(log, LostEnding)| == |Pick(log, Lost)|
  {
    if log != [] { DeliveredIsKeptOrLost(log[..|log| - 1]); }
  }

  /** Over any run with A failed passes, whatever is patched: at most 1 + A
      deadline warnings and, with the shipped settings, at most 33 + A drop
      alerts reach the user, and the two excesses together are at most A. Every
      mark on the row has its delivered mail. */
  lemma {:induction false} MailIsBounded(e: Env, c: Creation, plan: PlanStatus, accepted: bool, steps: seq<Step>)
    requires ValidEnv(e) && Create(c).Some? && Shipped(e)
    requires var w := Exec(e, Start(e, c, plan, accepted), steps);
             forall i :: 0 <= i < |Drops(w)| ==> AlertPrice(Drops(w)[i]) >= 0.0
    ensures var w := Exec(e, Start(e, c, plan, accepted), steps);
            && |Pick(w.log, IsWarning)| <= 1 + w.aborts
            && |Pick(w.log, IsDrop)| <= 33 + w.aborts
            && |Pick(w.log, IsDrop)| + |Pick(w.log, IsWarning)| <= 34 + w.aborts
            && (w.job.deadlineAlertSentAt.Some? ==>
                  exists x :: x in w.log && KeptWarning(x) && w.job.deadlineAlertSentAt == Some(x.at))
            && (w.job.dropAlertSentAt.Some? ==>
                  exists x :: x in w.log && KeptDrop(x) && w.job.dropAlertSentAt == Some(x.at)
                              && w.job.lowestAlertedPrice == Some(Rounded(e, x.event.newPrice)))
  {
    var w := Exec(e, Start(e, c, plan, accepted), steps);
    hide Exec, Start, Create, AtPrecision, Deepening;
    AtMost33Alerts(e, c, plan, accepted, steps);
    AlertInvHolds(e, c, plan, accepted, steps);
    DeliveryInvHolds(e, c, plan, accepted, steps);
    DeliveredIsKeptOrLost(w.log);
    PickedBelong(w.log, KeptWarning);
    PickedBelong(w.log, KeptDrop);
    hide Pick;
    if Warnings(w) != [] { assert Warnings(w)[0] in Warnings(w); }
    if Drops(w) != [] {
      var x := Drops(w)[|Drops(w)| - 1];
      assert x in Drops(w);
      assert KeptDrop(x) && AlertPrice(x) == x.event.newPrice;
    }
  }

  /** And, if no status is set by hand, at most 1 + A wrap-ups. */
  lemma {:induction false} WrapUpsAreBounded(e: Env, c: Creation, plan: PlanStatus, accepted: bool, steps: seq<Step>)
    requires Create(c).Some? && NoStatusPatches(steps)
    ensures var w := Exec(e, Start(e, c, plan, accepted), steps);
            |Pick(w.log, IsEnding)| <= 1 + w.aborts
  {
    var w := Exec(e, Start(e, c, plan, accepted), steps);
    Lifetime.LifeHolds(e, c, plan, accepted, steps);
    DeliveryInvHolds(e, c, plan, accepted, steps);
    DeliveredIsKeptOrLost(w.log);
    hide Exec, Start, Create;
  }
}
