/** How often a user can be mailed about price drops, and how deep the alerts
    go. Nothing here depends on what the user patches. */
module Alerts {
  import opened Models
  import opened Matching
  import opened Worker
  import opened Protocol
  import opened ProtocolLaws

  // ---------------------------------------------------------------- the marks

  /** The price a drop alert named. */
  function AlertPrice(x: Entry): real {
    if x.Mailed? && x.event.PriceDropFound? then x.event.newPrice else 0.0
  }

  function AlertPrices(xs: seq<Entry>): (ps: seq<real>)
    ensures |ps| == |xs| && forall i :: 0 <= i < |xs| ==> ps[i] == AlertPrice(xs[i])
  {
    seq(|xs|, i requires 0 <= i < |xs| => AlertPrice(xs[i]))
  }

  /** The alerts of all kept passes so far. */
  function Drops(w: World): seq<Entry> {
    Pick(w.log, KeptDrop)
  }

  function FloorOf(e: Env, w: World): real {
    DropFloor(e.cfg, w.job.terms.originalPrice)
  }

  /** The price an alert has to undercut: the booking's for the first, then the
      last alert as stored. */
  function ToBeat(e: Env, original: real, ps: seq<real>): real {
    if ps == [] then original else Rounded(e, ps[|ps| - 1])
  }

  /** Each alert undercuts what it had to by more than the floor. */
  predicate Deepening(e: Env, original: real, floor: real, ps: seq<real>) {
    ps == []
    || (Deepening(e, original, floor, ps[..|ps| - 1])
        && ps[|ps| - 1] < ToBeat(e, original, ps[..|ps| - 1]) - floor)
  }

  /** The alert marks of the row tell exactly the last alert that went out. */
  predicate Marks(e: Env, j: Job, drops: seq<Entry>) {
    if drops == [] then j.dropAlertSentAt.None? && j.lowestAlertedPrice.None?
    else
      var last := drops[|drops| - 1];
      && last.Mailed?
      && j.dropAlertSentAt == Some(last.at)
      && j.lowestAlertedPrice == Some(Rounded(e, AlertPrice(last)))
  }

  predicate AlertInv(e: Env, w: World) {
    && AtPrecision(e, w.job)
    && Marks(e, w.job, Drops(w))
    && Deepening(e, w.job.terms.originalPrice, FloorOf(e, w), AlertPrices(Drops(w)))
  }

  /** The visit delivers a drop alert, and its pass is kept. */
  predicate Tells(e: Env, j: Job, o: Oracle, now: int, commits: bool) {
    commits && KindOf(e.cfg, j, o, now).Alert? && o.delivery.drop
  }

  /** The alert entry of such a visit. */
  function Telling(e: Env, j: Job, o: Oracle, now: int): seq<Entry> {
    MailByKind(e, j, o, now, true)
  }

  lemma {:induction false} VisitDrops(e: Env, w: World, now: int, o: Oracle, commits: bool)
    requires Due(w, now)
    ensures Drops(Apply(e, w, Pass(now, o, commits)))
         == Drops(w) + if Tells(e, w.job, o, now, commits) then Telling(e, w.job, o, now) else []
  {
    hide Apply, BestLikeForLike, Pick, KindOf, Recorded, VerdictOf, CheckByKind, Due, AfterRetry, SawMovement;
    var checks, mails := CheckByKind(e, w.job, o, now, commits), MailByKind(e, w.job, o, now, commits);
    VisitPick(e, w, now, o, commits, KeptDrop);
    OnlyMail(e, w.job, o, now, commits);
    assert Only(checks, KeptDrop) == [] by { assert checks != [] ==> checks[0] in checks; }
    if Tells(e, w.job, o, now, commits) {
      assert Only(mails, KeptDrop) == Telling(e, w.job, o, now);
    } else {
      assert Only(mails, KeptDrop) == [];
    }
  }

  lemma TellingIsDeep(e: Env, j: Job, o: Oracle, now: int)
    requires Tells(e, j, o, now, true)
    ensures var xs, best := Telling(e, j, o, now), BestOf(j, o);
            && |xs| == 1 && xs[0].Mailed? && xs[0].at == now
            && best.Some? && AlertPrice(xs[0]) == best.value.price
            && best.value.price < j.terms.originalPrice - DropFloor(e.cfg, j.terms.originalPrice)
            && (j.dropAlertSentAt.Some? ==>
                  j.lowestAlertedPrice.Some?
                  && best.value.price < j.lowestAlertedPrice.value - DropFloor(e.cfg, j.terms.originalPrice))
  {
    hide BestLikeForLike, DropFloor, WarningEvent, EndedEvent;
  }

  /** The alert marks after a visit whose pass is kept. */
  lemma {:induction false} VisitAlertMarks(e: Env, w: World, now: int, o: Oracle, commits: bool)
    requires ValidEnv(e) && AtPrecision(e, w.job) && Due(w, now)
    ensures var k, told := Apply(e, w, Pass(now, o, commits)).job, Tells(e, w.job, o, now, commits);
            && k.dropAlertSentAt == (if told then Some(now) else w.job.dropAlertSentAt)
            && k.lowestAlertedPrice == (if told then Some(Rounded(e, BestOf(w.job, o).value.price))
                                        else w.job.lowestAlertedPrice)
  {
    hide BestLikeForLike, KindOf, DropFloor, ByKind, AfterRetry, InPass, CheckByKind, MailByKind;
    PassByKind(e, w, now, o, commits);
    VisitMarks(e.cfg, w.job, o, now);
    RoundTwice(e, w.job.lowestAlertedPrice);
    hide Apply;
  }

  lemma {:induction false} VisitKeepsAlertInv(e: Env, w: World, now: int, o: Oracle, commits: bool)
    requires ValidEnv(e) && AlertInv(e, w) && Due(w, now)
    ensures AlertInv(e, Apply(e, w, Pass(now, o, commits)))
  {
    hide Apply, BestLikeForLike, Telling, KindOf, DropFloor, AfterRetry, Drops, AtPrecision, BestOf, Tells;
    var w' := Apply(e, w, Pass(now, o, commits));
    var drops, ps := Drops(w), AlertPrices(Drops(w));
    StepKeepsPrecision(e, w, Pass(now, o, commits));
    VisitAlertMarks(e, w, now, o, commits);
    VisitDrops(e, w, now, o, commits);
    if Tells(e, w.job, o, now, commits) {
      TellsIfKept(e, w.job, o, now, commits);
      TellingIsDeep(e, w.job, o, now);
      var x := Telling(e, w.job, o, now)[0];
      assert Drops(w') == drops + [x];
      assert AlertPrices(drops + [x]) == ps + [AlertPrice(x)];
      assert (ps + [AlertPrice(x)])[..|ps|] == ps;
    } else {
      assert Drops(w') == drops;
    }
  }

  lemma TellsIfKept(e: Env, j: Job, o: Oracle, now: int, commits: bool)
    requires Tells(e, j, o, now, commits)
    ensures Tells(e, j, o, now, true)
  {
  }

  lemma {:induction false} StepKeepsAlertInv(e: Env, w: World, s: Step)
    requires ValidEnv(e) && AlertInv(e, w)
    ensures AlertInv(e, Apply(e, w, s))
  {
    if s.Pass? {
      if Due(w, s.now) {
        VisitKeepsAlertInv(e, w, s.now, s.o, s.commits);
      } else {
        PassNotDue(e, w, s.now, s.o, s.commits);
      }
    } else {
      OtherStep(e, w, s);
      OtherStepPick(e, w, s, KeptDrop);
      StepKeepsPrecision(e, w, s);
    }
    hide Apply, DropFloor, AtPrecision, AlertPrices;
  }

  lemma {:induction false} AlertInvHolds(e: Env, c: Creation, plan: PlanStatus, accepted: bool, steps: seq<Step>)
    requires ValidEnv(e) && Create(c).Some?
    ensures AlertInv(e, Exec(e, Start(e, c, plan, accepted), steps))
    decreases |steps|
  {
    var w := Start(e, c, plan, accepted);
    if steps == [] {
      StoredIsAtPrecision(e, Create(c).value);
      PickOne(w.log, KeptDrop);
      hide AtPrecision;
    } else {
      AlertInvHolds(e, c, plan, accepted, steps[..|steps| - 1]);
      StepKeepsAlertInv(e, Exec(e, w, steps[..|steps| - 1]), steps[|steps| - 1]);
      hide Apply, AlertInv;
    }
  }

  // ---------------------------------------------------------------- the spam bound

  lemma OneMore(n: int, x: real)
    ensures (n + 1) as real * x == n as real * x + x
  {
    assert (n + 1) as real == n as real + 1.0;
  }

  /** What n alerts cost: n floors, less what rounding may give back. */
  function Cost(n: nat, floor: real, eps: real): real {
    if n == 0 then 0.0 else if n == 1 then floor else Cost(n - 1, floor, eps) + (floor - eps)
  }

  lemma {:induction false} CostIsLinear(n: nat, floor: real, eps: real)
    requires n >= 1
    ensures Cost(n, floor, eps) == n as real * floor - (n - 1) as real * eps
  {
    if n > 1 {
      CostIsLinear(n - 1, floor, eps);
      OneMore(n - 1, floor);
      OneMore(n - 2, eps);
    }
  }

  lemma {:induction false} DeepeningCost(e: Env, original: real, floor: real, ps: seq<real>)
    requires ValidEnv(e) && Deepening(e, original, floor, ps) && ps != []
    ensures ps[|ps| - 1] < original - Cost(|ps|, floor, e.eps)
    decreases |ps|
  {
    var n := |ps| - 1;
    if n > 0 {
      DeepeningCost(e, original, floor, ps[..n]);
      assert Rounded(e, ps[n - 1]) <= ps[n - 1] + e.eps;
    }
  }

  lemma {:induction false} AlertCost(e: Env, w: World)
    requires ValidEnv(e) && AlertInv(e, w)
    ensures var ps := AlertPrices(Drops(w));
            ps != [] ==>
              |ps| as real * FloorOf(e, w) - (|ps| - 1) as real * e.eps
                < w.job.terms.originalPrice - ps[|ps| - 1]
  {
    hide Drops, FloorOf, AtPrecision, Marks, Deepening, Cost;
    var ps := AlertPrices(Drops(w));
    if ps != [] {
      DeepeningCost(e, w.job.terms.originalPrice, FloorOf(e, w), ps);
      CostIsLinear(|ps|, FloorOf(e, w), e.eps);
    }
  }

  /** In every run, whatever is patched, delivered, aborted or quoted: n alerts
      kept on record have used up n floors of the original price, up to the
      precision of the price column. */
  lemma {:induction false} AlertsUseUpThePrice(e: Env, c: Creation, plan: PlanStatus, accepted: bool, steps: seq<Step>)
    requires ValidEnv(e) && Create(c).Some?
    ensures var w := Exec(e, Start(e, c, plan, accepted), steps);
            var ps := AlertPrices(Drops(w));
            ps != [] ==>
              |ps| as real * FloorOf(e, w) - (|ps| - 1) as real * e.eps
                < w.job.terms.originalPrice - ps[|ps| - 1]
  {
    hide Exec, Start, Create, Drops, FloorOf, AlertInv;
    AlertInvHolds(e, c, plan, accepted, steps);
    AlertCost(e, Exec(e, Start(e, c, plan, accepted), steps));
  }

  /** The settings the program ships with, and columns of two decimals. */
  predicate Shipped(e: Env) {
    e.cfg.floorAbs == DEFAULT_SETTINGS.floorAbs && e.cfg.floorPct == DEFAULT_SETTINGS.floorPct && e.eps <= 0.005
  }

  lemma {:induction false} CostOf34(n: nat, floor: real, eps: real)
    requires n >= 34 && eps <= floor
    ensures Cost(n, floor, eps) >= 34.0 * floor - 33.0 * eps
  {
    if n == 34 {
      CostIsLinear(n, floor, eps);
    } else {
      CostOf34(n - 1, floor, eps);
    }
  }

  lemma {:induction false} ThirtyFourFloors(original: real, floor: real, eps: real, n: nat, last: real)
    requires floor >= 10.0 && floor >= original * 0.03 && 0.0 <= eps <= 0.005
    requires n >= 1 && last >= 0.0
    requires n as real * floor - (n - 1) as real * eps < original - last
    ensures n <= 33
  {
    CostIsLinear(n, floor, eps);
    if n >= 34 { CostOf34(n, floor, eps); }
  }

  lemma {:induction false} AtMost33(e: Env, w: World)
    requires ValidEnv(e) && AlertInv(e, w) && Shipped(e)
    requires forall i :: 0 <= i < |Drops(w)| ==> AlertPrice(Drops(w)[i]) >= 0.0
    ensures |Drops(w)| <= 33
  {
    assert FloorOf(e, w) >= 10.0 && FloorOf(e, w) >= w.job.terms.originalPrice * 0.03;
    hide FloorOf, AlertInv;
    AlertCost(e, w);
    hide Drops;
    var ps := AlertPrices(Drops(w));
    if ps != [] {
      ThirtyFourFloors(w.job.terms.originalPrice, FloorOf(e, w), e.eps, |ps|, ps[|ps| - 1]);
    }
  }

  /** With the shipped settings no booking ever brings more than 33 alerts. */
  lemma {:induction false} AtMost33Alerts(e: Env, c: Creation, plan: PlanStatus, accepted: bool, steps: seq<Step>)
    requires ValidEnv(e) && Create(c).Some? && Shipped(e)
    requires var w := Exec(e, Start(e, c, plan, accepted), steps);
             forall i :: 0 <= i < |Drops(w)| ==> AlertPrice(Drops(w)[i]) >= 0.0
    ensures |Drops(Exec(e, Start(e, c, plan, accepted), steps))| <= 33
  {
    hide Exec, Start, Create, Drops, AlertInv;
    AlertInvHolds(e, c, plan, accepted, steps);
    AtMost33(e, Exec(e, Start(e, c, plan, accepted), steps));
  }

  lemma {:induction false} DeepeningDescends(e: Env, original: real, floor: real, ps: seq<real>, i: nat, k: nat)
    requires ValidEnv(e) && Deepening(e, original, floor, ps) && i < k < |ps| && e.eps <= floor
    ensures ps[k] < Rounded(e, ps[i]) - floor
    ensures Rounded(e, ps[k]) <= Rounded(e, ps[i])
    decreases |ps|
  {
    var n := |ps| - 1;
    if k < n {
      DeepeningDescends(e, original, floor, ps[..n], i, k);
    } else {
      if i < n - 1 { DeepeningDescends(e, original, floor, ps[..n], i, n - 1); }
      assert ps[n] < Rounded(e, ps[n - 1]) - floor <= Rounded(e, ps[n - 1]);
      assert Rounded(e, ps[n]) <= Rounded(e, Rounded(e, ps[n - 1]));
    }
  }

  /** Any later alert is deeper than any earlier one, as stored, by more than
      the floor; and the price on record is the last and the least of them. */
  lemma {:induction false} AlertsOnlyDeepen(e: Env, c: Creation, plan: PlanStatus, accepted: bool, steps: seq<Step>)
    requires ValidEnv(e) && Create(c).Some?
    requires e.eps <= FloorOf(e, Exec(e, Start(e, c, plan, accepted), steps))
    ensures var w := Exec(e, Start(e, c, plan, accepted), steps);
            var ps := AlertPrices(Drops(w));
            && (forall i, k :: 0 <= i < k < |ps| ==> ps[k] < Rounded(e, ps[i]) - FloorOf(e, w))
            && (w.job.lowestAlertedPrice.Some? <==> ps != [])
            && (ps != [] ==> w.job.lowestAlertedPrice == Some(Rounded(e, ps[|ps| - 1])))
            && (forall i :: 0 <= i < |ps| ==> w.job.lowestAlertedPrice.value <= Rounded(e, ps[i]))
  {
    var w := Exec(e, Start(e, c, plan, accepted), steps);
    AlertInvHolds(e, c, plan, accepted, steps);
    var ps, original, floor := AlertPrices(Drops(w)), w.job.terms.originalPrice, FloorOf(e, w);
    forall i, k | 0 <= i < k < |ps|
      ensures ps[k] < Rounded(e, ps[i]) - floor && Rounded(e, ps[k]) <= Rounded(e, ps[i])
    {
      DeepeningDescends(e, original, floor, ps, i, k);
    }
    hide Exec, Drops, FloorOf;
  }
}
