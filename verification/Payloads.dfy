/** What the events say is true: every alert names a real, comparable, cheaper
    and timely offer, and the warning and the wrap-up report the whole history. */
module Payloads {
  import opened Models
  import opened Matching
  import opened MatchingLaws
  import opened Worker
  import opened VisitLaws
  import opened Protocol
  import opened ProtocolLaws
  import opened Alerts
  import opened History
  import LiteApi
  import LiteApiLaws

  // ---------------------------------------------------------------- price drops

  predicate IsDropMail(x: Entry) {
    x.Mailed? && x.event.PriceDropFound?
  }

  /** The alert speaks of this rate. */
  predicate Names(x: Event, c: Candidate)
    requires x.PriceDropFound?
  {
    x.newPrice == c.price && x.foundRoom == c.room && x.foundOn == c.ota && x.rebookUrl == c.link
  }

  /** Everything an alert claims. */
  ghost predicate SoundAlert(cfg: Settings, x: Entry)
    requires IsDropMail(x)
  {
    var j, v := x.job, x.event;
    && j.hotelId.Some? && j.hotelId.value != ""
    && (exists i: nat :: Offer(cfg, x.rates, j, i) && Names(v, x.rates[i]))
    && v.hotel == j.terms.hotelName && v.oldPrice == j.terms.originalPrice && v.deadline == j.terms.deadline
    && v.savings == v.oldPrice - v.newPrice && v.savings > cfg.floorAbs && v.savings > v.oldPrice * cfg.floorPct
    && v.oldPrice != 0.0 && v.savingsPct * v.oldPrice == v.savings * 100.0
    && (v.hasRebookUrl <==> v.rebookUrl.Some? && v.rebookUrl.value != "") && (cfg.requireLink ==> v.hasRebookUrl)
    && !StayIsOver(j, x.at)
  }

  predicate IsWarningMail(x: Entry) {
    x.Mailed? && x.event.DeadlineApproaching?
  }

  /** When a warning goes out: inside the window, before the deadline and the day of
      check-out, for the first time, and only if that very check found nothing the
      user could be sent to. */
  ghost predicate SoundWarning(cfg: Settings, x: Entry)
    requires IsWarningMail(x)
  {
    var j, v := x.job, x.event;
    && j.hotelId.Some? && j.hotelId.value != ""
    && j.terms.deadline.Some? && 0 < j.terms.deadline.value.at - x.at <= cfg.alertHours * HOUR
    && x.at < j.terms.checkOut * DAY
    && j.deadlineAlertSentAt.None?
    && (forall i: nat :: FirstCheapest(x.rates, j, i) ==>
          || !Undercuts(cfg, j.terms.originalPrice, j.terms.originalPrice, x.rates[i].price)
          || (cfg.requireLink && (x.rates[i].link.None? || x.rates[i].link.value == "")))
    && v.hotel == j.terms.hotelName && v.deadline == j.terms.deadline
    && (v.hasCheckUrl <==> v.checkUrl.Some? && v.checkUrl.value != "")
  }

  predicate IsWrapUpMail(x: Entry) {
    x.Mailed? && x.event.MonitoringEnded?
  }

  /** When a wrap-up goes out: at or after the deadline, or on the day of check-out
      or later; without a deadline, only then. */
  predicate SoundWrapUp(x: Entry)
    requires IsWrapUpMail(x)
  {
    StayIsOver(x.job, x.at) && x.event.hotel == x.job.terms.hotelName
  }

  /** What a welcome tells is what the row holds. */
  predicate SoundWelcome(x: Entry)
    requires IsWelcome(x)
  {
    x.event == BookingMonitored(x.job.terms.hotelName, x.job.terms.originalPrice, x.job.terms.deadline)
  }

  ghost predicate SoundMail(cfg: Settings, x: Entry) {
    && (IsDropMail(x) ==> SoundAlert(cfg, x))
    && (IsWarningMail(x) ==> SoundWarning(cfg, x))
    && (IsWrapUpMail(x) ==> SoundWrapUp(x))
    && (IsWelcome(x) ==> SoundWelcome(x))
  }

  lemma PercentOf(savings: real, original: real)
    requires original != 0.0
    ensures savings / original * 100.0 * original == savings * 100.0
  {
    assert savings / original * original == savings;
  }

  /** What the sender had in hand. */
  lemma MailInHand(e: Env, j: Job, o: Oracle, now: int, commits: bool, x: Entry)
    requires x in MailByKind(e, j, o, now, commits)
    ensures x.Mailed? && x.at == now && x.job == AfterRetry(j, o) && x.rates == RatesOf(o)
    ensures var kind, k, best := KindOf(e.cfg, j, o, now), AfterRetry(j, o), BestOf(j, o);
            var recorded := Recorded(k, best, now);
            && (x.event.PriceDropFound? ==> kind.Alert? && x.event == DropEvent(recorded, best.value))
            && (x.event.DeadlineApproaching? ==>
                  kind.Warning? && x.event == WarningEvent(e.cfg, recorded, o.checkUrl))
  {
    hide BestLikeForLike, KindOf, Recorded, SawMovement;
  }

  lemma SameTerms(j: Job, o: Oracle)
    ensures AfterRetry(j, o) == j.(hotelId := HotelAfter(j, o))
  {
  }

  lemma {:induction false} VisitAlertsSoundly(e: Env, j: Job, o: Oracle, now: int, commits: bool, x: Entry)
    requires x in MailByKind(e, j, o, now, commits) && IsDropMail(x)
    ensures SoundAlert(e.cfg, x)
  {
    hide MailByKind, KindOf, AfterRetry, HotelAfter, StayIsOver, BestLikeForLike, DropFloor, OfferIsNews, OfferStands,
         ReachableDrop, Offer;
    MailInHand(e, j, o, now, commits, x);
    KindsFromOutside(e.cfg, j, o, now);
    SameTerms(j, o);
    StayOfRow(j, x.job, now);
    var i := AlertedOffer(e, j, o, now);
    FloorsAreBoth(e.cfg, j.terms.originalPrice, j.terms.originalPrice, x.rates[i].price);
    PercentOf(j.terms.originalPrice - x.rates[i].price, j.terms.originalPrice);
    assert Names(x.event, x.rates[i]);
    OfferUndercuts(e.cfg, x.rates, x.job, i);
  }

  lemma StayOfRow(j: Job, k: Job, now: int)
    requires k.terms == j.terms
    ensures StayIsOver(k, now) <==> StayIsOver(j, now)
  {
  }

  lemma OfferUndercuts(cfg: Settings, cs: seq<Candidate>, j: Job, i: nat)
    requires Offer(cfg, cs, j, i)
    ensures Undercuts(cfg, j.terms.originalPrice, j.terms.originalPrice, cs[i].price)
    ensures cfg.requireLink ==> cs[i].link.Some? && cs[i].link.value != ""
  {
  }

  lemma {:induction false} AlertedOffer(e: Env, j: Job, o: Oracle, now: int) returns (i: nat)
    requires KindOf(e.cfg, j, o, now).Alert?
    ensures i < |RatesOf(o)| && Offer(e.cfg, RatesOf(o), AfterRetry(j, o), i)
    ensures BestOf(j, o) == Some(RatesOf(o)[i]) && j.terms.originalPrice != 0.0
  {
    var k := AfterRetry(j, o);
    ReachableMeansOffer(e.cfg, RatesOf(o), k);
    hide BestLikeForLike, DropFloor, Agrees;
    i :| Offer(e.cfg, RatesOf(o), k, i);
  }

  lemma {:induction false} VisitWarnsSoundly(e: Env, j: Job, o: Oracle, now: int, commits: bool, x: Entry)
    requires x in MailByKind(e, j, o, now, commits) && IsWarningMail(x)
    ensures SoundWarning(e.cfg, x)
  {
    hide MailByKind, KindOf, AfterRetry, BestLikeForLike, DropFloor, OfferIsNews, Offer, FirstCheapest, SawMovement,
         RatesOf;
    MailInHand(e, j, o, now, commits, x);
    KindsFromOutside(e.cfg, j, o, now);
    SameTerms(j, o);
    AgreementDependsOnTerms(e.cfg, j, x.job, o);
    assert forall i: nat :: !Offer(e.cfg, x.rates, x.job, i);
    forall i: nat | FirstCheapest(x.rates, x.job, i)
      ensures i < |x.rates|
      ensures || !Undercuts(e.cfg, j.terms.originalPrice, j.terms.originalPrice, x.rates[i].price)
              || (e.cfg.requireLink && (x.rates[i].link.None? || x.rates[i].link.value == ""))
    {
      NoOffer(e.cfg, x.rates, x.job, i);
    }
  }

  lemma NoOffer(cfg: Settings, cs: seq<Candidate>, j: Job, i: nat)
    requires FirstCheapest(cs, j, i) && !Offer(cfg, cs, j, i)
    ensures i < |cs|
    ensures || !Undercuts(cfg, j.terms.originalPrice, j.terms.originalPrice, cs[i].price)
            || (cfg.requireLink && (cs[i].link.None? || cs[i].link.value == ""))
  {
  }

  lemma {:induction false} VisitClosesSoundly(e: Env, j: Job, o: Oracle, now: int, commits: bool, x: Entry)
    requires x in MailByKind(e, j, o, now, commits) && IsWrapUpMail(x)
    ensures SoundWrapUp(x)
  {
    assert KindOf(e.cfg, j, o, now).Closing?;
    KindsFromOutside(e.cfg, j, o, now);
    hide BestLikeForLike, OfferIsNews, OfferStands, Priceable;
  }

  lemma {:induction false} VisitMailsSoundly(e: Env, j: Job, o: Oracle, now: int, commits: bool)
    ensures forall x :: x in MailByKind(e, j, o, now, commits) ==> SoundMail(e.cfg, x)
  {
    hide MailByKind, SoundAlert, SoundWarning, SoundWrapUp;
    forall x | x in MailByKind(e, j, o, now, commits)
      ensures SoundMail(e.cfg, x)
    {
      NoVisitWelcomes(e, j, o, now, commits);
      if IsDropMail(x) { VisitAlertsSoundly(e, j, o, now, commits, x); }
      if IsWarningMail(x) { VisitWarnsSoundly(e, j, o, now, commits, x); }
      if IsWrapUpMail(x) { VisitClosesSoundly(e, j, o, now, commits, x); }
    }
  }

  lemma NoVisitWelcomes(e: Env, j: Job, o: Oracle, now: int, commits: bool)
    ensures forall x :: x in MailByKind(e, j, o, now, commits) ==> !IsWelcome(x)
  {
    hide BestLikeForLike, KindOf, AfterRetry, SawMovement;
  }

  lemma {:induction false} StepMailsSoundly(e: Env, w: World, s: Step)
    ensures forall x :: x in Logged(e, w, s) ==> SoundMail(e.cfg, x)
  {
    hide MailByKind, CheckByKind, SoundAlert, SoundWarning, Due;
    if s.Pass? {
      OnlyMail(e, w.job, s.o, s.now, s.commits);
      VisitMailsSoundly(e, w.job, s.o, s.now, s.commits);
    }
  }

  /** Every event ever handed over, kept or lost, delivered or refused, tells the
      truth about its own visit, and is in time. */
  lemma {:induction false} EveryMailIsSound(e: Env, c: Creation, plan: PlanStatus, accepted: bool, steps: seq<Step>)
    requires Create(c).Some?
    ensures forall x :: x in Exec(e, Start(e, c, plan, accepted), steps).log ==> SoundMail(e.cfg, x)
    decreases |steps|
  {
    var start := Start(e, c, plan, accepted);
    if steps != [] {
      var w, s := Exec(e, start, steps[..|steps| - 1]), steps[|steps| - 1];
      EveryMailIsSound(e, c, plan, accepted, steps[..|steps| - 1]);
      StepMailsSoundly(e, w, s);
      LogGrows(e, w, s);
      hide Apply, SoundMail, Logged;
    }
  }

  /** A Price Drop Found names the first cheapest rate of that very check that
      agrees with the booking, which undercuts it by more than both floors, is
      reachable if links are required, and is in time. */
  lemma {:induction false} EveryAlertIsSound(e: Env, c: Creation, plan: PlanStatus, accepted: bool, steps: seq<Step>)
    requires Create(c).Some?
    ensures forall x :: x in Exec(e, Start(e, c, plan, accepted), steps).log && IsDropMail(x) ==> SoundAlert(e.cfg, x)
  {
    EveryMailIsSound(e, c, plan, accepted, steps);
    hide Exec, Start, SoundAlert, SoundWarning;
  }

  /** A Deadline Approaching goes out inside the window, once, and only if that very
      check found nothing the user could be sent to. */
  lemma {:induction false} EveryWarningIsSound(e: Env, c: Creation, plan: PlanStatus, accepted: bool, steps: seq<Step>)
    requires Create(c).Some?
    ensures forall x :: x in Exec(e, Start(e, c, plan, accepted), steps).log && IsWarningMail(x) ==>
              SoundWarning(e.cfg, x)
  {
    EveryMailIsSound(e, c, plan, accepted, steps);
    hide Exec, Start, SoundAlert, SoundWarning;
  }

  /** A Monitoring Ended goes out only when the stay, or the free window, is over;
      and a Booking Monitored tells what the row holds. */
  lemma {:induction false} EveryWrapUpAndWelcomeIsSound(e: Env, c: Creation, plan: PlanStatus, accepted: bool,
                                                        steps: seq<Step>)
    requires Create(c).Some?
    ensures forall x :: x in Exec(e, Start(e, c, plan, accepted), steps).log ==>
              (IsWrapUpMail(x) ==> SoundWrapUp(x)) && (IsWelcome(x) ==> SoundWelcome(x))
  {
    EveryMailIsSound(e, c, plan, accepted, steps);
    hide Exec, Start, SoundAlert, SoundWarning;
  }

  lemma PositiveProduct(a: real, b: real)
    requires b > 0.0
    ensures a > 0.0 <==> a * b > 0.0
    ensures a >= 0.0 <==> a * b >= 0.0
  {
  }

  lemma {:induction false} PercentageRange(pct: real, savings: real, original: real, price: real, floor: real)
    requires pct * original == savings * 100.0 && savings == original - price && price >= 0.0
    requires savings > floor >= 10.0 && floor >= original * 0.03
    ensures original > 10.0 && 3.0 < pct <= 100.0
  {
    assert (pct - 3.0) * original == savings * 100.0 - 3.0 * original;
    assert (100.0 - pct) * original == 100.0 * original - savings * 100.0;
    PositiveProduct(pct - 3.0, original);
    PositiveProduct(100.0 - pct, original);
  }

  /** With the shipped floors and prices that are not negative, the percentage
      divides by more than 10 and lies above 3 and at most at 100. */
  lemma {:induction false} PercentageIsPlausible(cfg: Settings, x: Entry)
    requires IsDropMail(x) && SoundAlert(cfg, x)
    requires cfg.floorAbs == DEFAULT_SETTINGS.floorAbs && cfg.floorPct == DEFAULT_SETTINGS.floorPct
    requires x.event.newPrice >= 0.0
    ensures x.event.oldPrice > 10.0 && 3.0 < x.event.savingsPct <= 100.0
  {
    var v := x.event;
    var floor := if 10.0 < v.oldPrice * 0.03 then v.oldPrice * 0.03 else 10.0;
    hide Offer, Names;
    PercentageRange(v.savingsPct, v.savings, v.oldPrice, v.newPrice, floor);
  }

  lemma OnlyAlertsMailDrops(e: Env, j: Job, o: Oracle, now: int, commits: bool)
    requires !KindOf(e.cfg, j, o, now).Alert?
    ensures forall x :: x in MailByKind(e, j, o, now, commits) ==> !IsDropMail(x)
  {
    hide BestLikeForLike, KindOf, AfterRetry, SawMovement;
  }

  lemma {:induction false} FeedNeverAlerts(cfg: Settings, j: Job, now: int, o: Oracle, vs: seq<LiteApi.Visit>,
                                           parse: string -> Option<Stamp>)
    requires LiteApi.AllOrderable(vs, parse) && o.rates == Rates(LiteApi.CandidatesOf(vs, parse))
    requires cfg.requireLink
    ensures !KindOf(cfg, j, o, now).Alert?
  {
    LiteApiLaws.FeedDropsAreHeld(vs, parse, cfg, AfterRetry(j, o));
    hide BestLikeForLike, LiteApi.CandidatesOf, LiteApi.AllOrderable, ReachableDrop, AlertDue, WarningDue,
         AfterRetry, Over;
  }

  /** A pass that reads the LiteAPI feed with the link gate on mails no drop at
      all, whatever the feed shows. */
  lemma {:induction false} GatedFeedMailsNoDrop(e: Env, w: World, now: int, o: Oracle, commits: bool,
                                                vs: seq<LiteApi.Visit>, parse: string -> Option<Stamp>)
    requires LiteApi.AllOrderable(vs, parse) && o.rates == Rates(LiteApi.CandidatesOf(vs, parse))
    requires e.cfg.requireLink
    ensures forall x :: x in Apply(e, w, Pass(now, o, commits)).log && x !in w.log ==> !IsDropMail(x)
  {
    hide LiteApi.CandidatesOf, LiteApi.AllOrderable, BestLikeForLike, CheckByKind, MailByKind, ByKind, KindOf;
    if Due(w, now) {
      FeedNeverAlerts(e.cfg, w.job, now, o, vs, parse);
      PassByKind(e, w, now, o, commits);
      OnlyMail(e, w.job, o, now, commits);
      OnlyAlertsMailDrops(e, w.job, o, now, commits);
    } else {
      PassNotDue(e, w, now, o, commits);
    }
    hide Apply;
  }

  /** With the gate off, a drop mailed from what the LiteAPI feed answers for the
      booking's hotel is a refundable rate which the answer lists under that very
      hotel, at its all-in price; and none of the rate's readable cancellation
      tiers comes before the deadline the user holds. */
  lemma {:induction false} FeedAlertIsARealRate(cfg: Settings, x: Entry, hotels: seq<LiteApi.Hotel>,
                                                parse: string -> Option<Stamp>)
    returns (h: nat, r: nat, k: nat)
    requires IsDropMail(x) && SoundAlert(cfg, x)
    requires var vs := LiteApi.Visits(hotels, x.job.hotelId.value);
             LiteApi.AllOrderable(vs, parse) && x.rates == LiteApi.CandidatesOf(vs, parse)
    ensures LiteApi.Listed(hotels, x.job.hotelId.value, h, r, k)
    ensures var room := hotels[h].roomTypes[r];
            var rate := room.rates[k];
            && hotels[h].hotelId == x.job.hotelId.value
            && LiteApi.AllIn(rate) == Some(x.event.newPrice)
            && x.event.foundRoom == LiteApi.Or(rate.name, room.name)
            && rate.refundableTag == Some("RFN")
            && (x.job.terms.board.Some? ==> rate.board == x.job.terms.board)
            && (x.job.terms.adults.Some? && LiteApi.Occupancy(rate).Some? ==>
                  x.job.terms.adults == LiteApi.Occupancy(rate))
            && (x.job.terms.deadline.Some? ==>
                  var tiers := LiteApi.Tiers(rate.infos);
                  forall t :: LiteApiLaws.Readable(tiers, parse, t) ==>
                    x.job.terms.deadline.value.at <= LiteApi.Recognised(tiers[t], parse).value.at)
  {
    hide LiteApi.CandidatesOf, LiteApi.AllOrderable, DropFloor, LiteApi.Recognised, LiteApi.AllIn, LiteApi.Visits,
         LiteApi.Turn;
    var vs := LiteApi.Visits(hotels, x.job.hotelId.value);
    var n: nat :| Offer(cfg, x.rates, x.job, n) && Names(x.event, x.rates[n]);
    MatchingIsAgreement(x.rates[n], x.job);
    var i := LiteApiLaws.CandidateHasARate(vs, parse, n);
    h, r, k := LiteApiLaws.VisitedRateIsListed(hotels, x.job.hotelId.value, i);
    if x.job.terms.deadline.Some? {
      var i' := LiteApiLaws.NoHiddenShorterWindow(vs, parse, x.job, n);
      LiteApiLaws.SameRate(vs, parse, n, i, i');
    }
  }

  // ---------------------------------------------------------------- verdicts

  /** A recorded check is called flat exactly when its best rate is no drop, and
      held back exactly when it is one without a link while links are required. */
  predicate HonestVerdict(cfg: Settings, original: real, x: Entry)
    requires x.Checked?
  {
    var drop := x.best.Some? && x.best.value.price < original - cfg.floorAbs
                && x.best.value.price < original - original * cfg.floorPct;
    && (x.verdict.Flat? <==> !drop)
    && (x.verdict.HeldBack? <==>
          drop && cfg.requireLink && (x.best.value.link.None? || x.best.value.link.value == ""))
  }

  lemma {:induction false} VisitJudgesHonestly(e: Env, j: Job, o: Oracle, now: int, commits: bool)
    ensures forall x :: x in CheckByKind(e, j, o, now, commits) ==>
              x.Checked? && HonestVerdict(e.cfg, j.terms.originalPrice, x)
  {
    if BestOf(j, o).Some? {
      FloorsAreBoth(e.cfg, j.terms.originalPrice, j.terms.originalPrice, BestOf(j, o).value.price);
    }
    hide BestLikeForLike, DropFloor, KindOf;
  }

  /** So with the gate off no drop is ever kept back. */
  lemma {:induction false} VerdictsAreHonest(e: Env, c: Creation, plan: PlanStatus, accepted: bool, steps: seq<Step>)
    requires ValidEnv(e) && Create(c).Some?
    ensures var w := Exec(e, Start(e, c, plan, accepted), steps);
            && AtPrecision(e, w.job)
            && forall x :: x in w.log && x.Checked? ==> HonestVerdict(e.cfg, w.job.terms.originalPrice, x)
    decreases |steps|
  {
    var start := Start(e, c, plan, accepted);
    if steps == [] {
      StoredIsAtPrecision(e, Create(c).value);
    } else {
      var w, s := Exec(e, start, steps[..|steps| - 1]), steps[|steps| - 1];
      VerdictsAreHonest(e, c, plan, accepted, steps[..|steps| - 1]);
      StepKeepsPrecision(e, w, s);
      NewChecks(e, w, s);
      if s.Pass? { VisitJudgesHonestly(e, w.job, s.o, s.now, s.commits); }
      hide Apply, HonestVerdict, MailByKind, CheckByKind, ByKind, AtPrecision;
    }
  }

  // ---------------------------------------------------------------- warnings

  /** Some committed check found a price below the booking by more than the floor. */
  ghost predicate Moved(e: Env, w: World) {
    exists x :: x in Checks(w) && PriceOf(x).Some?
                && Undercuts(e.cfg, w.job.terms.originalPrice, w.job.terms.originalPrice, PriceOf(x).value)
  }

  lemma {:induction false} MovedMeansLowest(e: Env, w: World)
    requires HistoryInv(e, w)
    ensures Moved(e, w) <==> SawMovement(e.cfg, w.job)
  {
    MinPriceIsLeast(Checks(w));
    FloorsAlways(e.cfg, w.job.terms.originalPrice);
    hide Checks, MinPrice, AtPrecision, DropFloor, Undercuts;
    var xs, lowest := Checks(w), w.job.lowestSeenPrice;
    if lowest.Some? {
      var i :| 0 <= i < |xs| && PriceOf(xs[i]) == lowest;
      assert xs[i] in xs;
    }
  }

  lemma FloorsAlways(cfg: Settings, original: real)
    ensures forall price :: Undercuts(cfg, original, original, price) <==> price < original - DropFloor(cfg, original)
  {
  }

  /** What a warning is made of. */
  lemma {:induction false} WarningMail(e: Env, j: Job, o: Oracle, now: int, commits: bool, x: Entry)
    requires x in MailByKind(e, j, o, now, commits) && x.event.DeadlineApproaching?
    ensures x.event.checksDone == j.checkCount + 1
    ensures x.event.sawMovement <==> SawMovement(e.cfg, j) || IsActionableDrop(e.cfg, BestOf(j, o), j)
    ensures x.event.deadline == j.terms.deadline && x.event.deadline.Some?
    ensures var best := BestOf(j, o);
            x.event.lowestSeen == LessOf(j.lowestSeenPrice, if best.Some? then Some(best.value.price) else None)
  {
    hide BestLikeForLike, DropFloor;
    assert KindOf(e.cfg, j, o, now).Warning?;
    var recorded := Recorded(AfterRetry(j, o), BestOf(j, o), now);
    assert x.event == WarningEvent(e.cfg, recorded, o.checkUrl);
  }

  /** A deadline warning sent in any run counts every check, this one included,
      gives the least price of them all, and speaks of movement exactly when a
      recorded check or this one found an actionable drop. */
  lemma {:induction false} WarningTellsTheHistory(e: Env, c: Creation, plan: PlanStatus, accepted: bool,
                                                  steps: seq<Step>, now: int, o: Oracle, commits: bool, x: Entry)
    requires ValidEnv(e) && Create(c).Some?
    requires var w := Exec(e, Start(e, c, plan, accepted), steps);
             Due(w, now) && x in MailByKind(e, w.job, o, now, commits) && x.event.DeadlineApproaching?
    ensures var w := Exec(e, Start(e, c, plan, accepted), steps);
            && x.event.checksDone == |Checks(w)| + 1
            && (x.event.sawMovement <==> Moved(e, w) || IsActionableDrop(e.cfg, BestOf(w.job, o), w.job))
            && x.event.deadline == w.job.terms.deadline && x.event.deadline.Some?
            && x.event.lowestSeen == LessOf(MinPrice(Checks(w)),
                                            if BestOf(w.job, o).Some? then Some(BestOf(w.job, o).value.price) else None)
  {
    var w := Exec(e, Start(e, c, plan, accepted), steps);
    hide Exec, Start, Create, Moved, SawMovement, IsActionableDrop, AtPrecision, MinPrice, LastFound;
    CachesRefineHistory(e, c, plan, accepted, steps);
    MovedMeansLowest(e, w);
    WarningMail(e, w.job, o, now, commits, x);
  }

  // ---------------------------------------------------------------- wrap-ups

  /** The wrap-up sent from a reachable state gives the saving of the least
      price on record, and says a drop was found exactly when an alert is on
      record. */
  lemma {:induction false} WrapUpTellsTheHistory(e: Env, w: World, now: int, o: Oracle, commits: bool, x: Entry)
    requires HistoryInv(e, w) && AlertInv(e, w) && Due(w, now)
    requires x in MailByKind(e, w.job, o, now, commits) && x.event.MonitoringEnded?
    ensures x.event.bestSavingsSeen ==
              if MinPrice(Checks(w)).Some? then w.job.terms.originalPrice - MinPrice(Checks(w)).value else 0.0
    ensures x.event.outcome.DropWasFound? <==> Drops(w) != []
  {
    hide BestLikeForLike, DropFloor;
    assert KindOf(e.cfg, w.job, o, now).Closing?;
    assert x.event == EndedEvent(w.job);
    hide KindOf, MailByKind, Checks, MinPrice, AtPrecision, AlertPrices, Drops, Pick, LastFound;
  }

  /** If the wrap-up says a drop was found, the saving it reports is at least
      every saving ever alerted, as stored, and exceeds the floor up to the
      precision of the price column. */
  lemma {:induction false} WrapUpCoversEveryAlert(e: Env, c: Creation, plan: PlanStatus, accepted: bool,
                                                  steps: seq<Step>, now: int, o: Oracle, commits: bool, x: Entry)
    requires ValidEnv(e) && Create(c).Some?
    requires var w := Exec(e, Start(e, c, plan, accepted), steps);
             && Due(w, now) && x in MailByKind(e, w.job, o, now, commits)
             && x.event.MonitoringEnded? && x.event.outcome.DropWasFound?
             && e.eps <= FloorOf(e, w)
    ensures var w := Exec(e, Start(e, c, plan, accepted), steps);
            var ps := AlertPrices(Drops(w));
            && ps != []
            && (forall i :: 0 <= i < |ps| ==> w.job.terms.originalPrice - Rounded(e, ps[i]) <= x.event.bestSavingsSeen)
            && FloorOf(e, w) - e.eps < x.event.bestSavingsSeen
  {
    var w := Exec(e, Start(e, c, plan, accepted), steps);
    hide Exec, Start, Create, DropFloor, ByKind;
    CachesRefineHistory(e, c, plan, accepted, steps);
    AlertInvHolds(e, c, plan, accepted, steps);
    WrapUpTellsTheHistory(e, w, now, o, commits, x);
    AlertsOnlyDeepen(e, c, plan, accepted, steps);
    LowestSeenIsBelowEveryAlert(e, c, plan, accepted, steps);
    hide MailByKind, Checks, Drops, AtPrecision;
    var ps := AlertPrices(Drops(w));
    FirstAlert(e, w.job.terms.originalPrice, FloorOf(e, w), ps);
    assert Rounded(e, ps[0]) <= ps[0] + e.eps;
  }

  lemma {:induction false} FirstAlert(e: Env, original: real, floor: real, ps: seq<real>)
    requires Deepening(e, original, floor, ps) && ps != []
    ensures ps[0] < original - floor
  {
    if |ps| > 1 { FirstAlert(e, original, floor, ps[..|ps| - 1]); }
  }
}
