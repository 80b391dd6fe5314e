/** What one visit does, and does not do, told in columns, clock readings and
    answers alone: when exactly it closes, records, alerts, warns and raises, what
    the events say, and where it puts the next check. And what a pass adds up to. */
module VisitLaws {
  import opened Models
  import opened Matching
  import opened MatchingLaws
  import opened Worker
  import opened ProtocolLaws
  import opened Protocol

  /** The hotel of a job once a missing one has been looked up: only a single match
      at 0.9 or better is taken. */
  function HotelAfter(j: Job, o: Oracle): Option<string> {
    if j.hotelId.Some? && j.hotelId.value != "" then j.hotelId
    else if o.resolution.Matches? && |o.resolution.matches| == 1 && o.resolution.matches[0].confidence >= 0.9
    then Some(o.resolution.matches[0].hotelId)
    else j.hotelId
  }

  /** The free window has closed, or the day of check-out has begun. */
  predicate StayIsOver(j: Job, now: int) {
    (j.terms.deadline.Some? && j.terms.deadline.value.at <= now) || j.terms.checkOut * DAY <= now
  }

  /** The visit reaches the price source, and gets an answer. */
  predicate Priceable(j: Job, o: Oracle, now: int) {
    !StayIsOver(j, now) && HotelAfter(j, o).Some? && HotelAfter(j, o).value != "" && o.rates.Rates?
  }

  /** The answer holds a drop the user may be sent to. */
  ghost predicate OfferStands(cfg: Settings, j: Job, o: Oracle) {
    exists i: nat :: Offer(cfg, RatesOf(o), j, i)
  }

  /** And it is the first, or undercuts the last alert by more than both floors. */
  ghost predicate OfferIsNews(cfg: Settings, j: Job, o: Oracle) {
    exists i: nat :: Offer(cfg, RatesOf(o), j, i)
      && (|| j.dropAlertSentAt.None?
          || (j.lowestAlertedPrice.Some?
              && Undercuts(cfg, j.terms.originalPrice, j.lowestAlertedPrice.value, RatesOf(o)[i].price)))
  }

  lemma AgreementDependsOnTerms(cfg: Settings, j: Job, k: Job, o: Oracle)
    requires j.terms == k.terms
    ensures forall i: nat :: Offer(cfg, RatesOf(o), j, i) <==> Offer(cfg, RatesOf(o), k, i)
  {
    forall c
      ensures Agrees(c, j) <==> Agrees(c, k)
    {
    }
    hide Agrees;
  }

  /** The kinds of visit, told from outside. */
  lemma {:induction false} KindsFromOutside(cfg: Settings, j: Job, o: Oracle, now: int)
    ensures var kind := KindOf(cfg, j, o, now);
            && (kind.Closing? <==> StayIsOver(j, now))
            && (RecordsRow(kind) <==> Priceable(j, o, now))
            && (kind.Alert? <==> Priceable(j, o, now) && OfferIsNews(cfg, j, o) && j.terms.originalPrice != 0.0)
            && (kind.ZeroPrice? <==> Priceable(j, o, now) && OfferIsNews(cfg, j, o) && j.terms.originalPrice == 0.0)
            && (kind.Warning? <==>
                  && Priceable(j, o, now) && !OfferStands(cfg, j, o)
                  && j.terms.deadline.Some? && j.terms.deadline.value.at - now <= cfg.alertHours * HOUR
                  && j.deadlineAlertSentAt.None?)
            && (kind.Unresolved? <==>
                  !StayIsOver(j, now) && (HotelAfter(j, o).None? || HotelAfter(j, o).value == ""))
  {
    var k := AfterRetry(j, o);
    var best := BestOf(j, o);
    AgreementDependsOnTerms(cfg, j, k, o);
    ReachableMeansOffer(cfg, RatesOf(o), k);
    if k.lowestAlertedPrice.Some? && best.Some? {
      FloorsAreBoth(cfg, k.terms.originalPrice, k.lowestAlertedPrice.value, best.value.price);
    }
    hide BestLikeForLike, DropFloor, Offer, Undercuts, ReachableDrop;
  }

  /** A visit hands over a wrap-up exactly if the stay is over; then it does
      nothing else, and tries again in an hour if the mail was refused. */
  lemma {:induction false} ClosesExactly(cfg: Settings, j: Job, o: Oracle, now: int)
    ensures var out := Processed(cfg, j, o, now);
            && ((exists m :: m in out.mail && m.event.MonitoringEnded?) <==> StayIsOver(j, now))
            && (StayIsOver(j, now) ==>
                  && out.rows == [] && !out.raised && |out.mail| == 1 && out.mail[0].delivered == o.delivery.ended
                  && out.mail[0].event.hotel == j.terms.hotelName
                  && out.job == if o.delivery.ended then j.(status := Expired, nextCheckAt := None)
                                else j.(nextCheckAt := Some(now + 3_600_000_000)))
  {
    VisitByKind(cfg, j, o, now);
    KindsFromOutside(cfg, j, o, now);
    hide Processed, BestLikeForLike, KindOf, StayIsOver, Priceable, OfferIsNews, OfferStands, AfterRetry;
  }

  /** A visit records a row exactly if the job can be priced: one row, with the key
      of the job, the time, and price and source of the first cheapest agreeing
      rate. The hotel is as looked up. */
  lemma {:induction false} RecordsExactly(cfg: Settings, j: Job, o: Oracle, now: int)
    ensures var out := Processed(cfg, j, o, now);
            && (out.rows != [] <==> Priceable(j, o, now))
            && (out.rows != [] ==>
                  && |out.rows| == 1 && out.rows[0].jobId == j.id && out.rows[0].checkedAt == now
                  && (out.rows[0].price.Some? <==> exists i: nat :: FirstCheapest(RatesOf(o), j, i))
                  && (out.rows[0].ota.Some? <==> out.rows[0].price.Some?)
                  && (forall i: nat :: FirstCheapest(RatesOf(o), j, i) ==>
                        out.rows[0].price == Some(RatesOf(o)[i].price) && out.rows[0].ota == Some(RatesOf(o)[i].ota)))
            && (!StayIsOver(j, now) ==> out.job.hotelId == HotelAfter(j, o))
  {
    var k, best := AfterRetry(j, o), BestOf(j, o);
    VisitByKind(cfg, j, o, now);
    KindsFromOutside(cfg, j, o, now);
    HotelOfVisit(cfg, j, o, now);
    BestDependsOnTerms(RatesOf(o), j, k);
    BestIsArgmin(RatesOf(o), j);
    if best.Some? {
      var n := TiesGoToTheFirst(RatesOf(o), j);
      hide Agrees;
      assert FirstCheapest(RatesOf(o), j, n);
    }
    forall i: nat | FirstCheapest(RatesOf(o), j, i)
      ensures best == Some(RatesOf(o)[i])
    {
      BestIsFirstCheapest(RatesOf(o), j, i);
    }
    hide Processed, BestLikeForLike, KindOf, StayIsOver, Priceable, FirstCheapest, AfterRetry;
  }

  lemma HotelOfVisit(cfg: Settings, j: Job, o: Oracle, now: int)
    ensures AfterRetry(j, o).hotelId == HotelAfter(j, o)
    ensures ByKind(cfg, j, o, now).job.hotelId
         == if KindOf(cfg, j, o, now).Closing? then j.hotelId else AfterRetry(j, o).hotelId
  {
    hide BestLikeForLike, DropFloor, KindOf, DropEvent, WarningEvent, CadenceHours;
  }

  /** A visit hands over a drop alert exactly for a new offer on a priced booking. */
  lemma {:induction false} AlertsExactly(cfg: Settings, j: Job, o: Oracle, now: int)
    ensures var out := Processed(cfg, j, o, now);
            (exists m :: m in out.mail && m.event.PriceDropFound?) <==>
              Priceable(j, o, now) && OfferIsNews(cfg, j, o) && j.terms.originalPrice != 0.0
    ensures forall m :: m in Processed(cfg, j, o, now).mail && m.event.PriceDropFound? ==>
              m.delivered == o.delivery.drop
  {
    VisitByKind(cfg, j, o, now);
    KindsFromOutside(cfg, j, o, now);
    hide Processed, BestLikeForLike, KindOf, StayIsOver, Priceable, OfferIsNews, OfferStands, AfterRetry;
  }

  /** A visit hands over a warning exactly if the deadline is near, none is out,
      and no offer stands, whether or not the user has been alerted of one. */
  lemma {:induction false} WarnsExactly(cfg: Settings, j: Job, o: Oracle, now: int)
    ensures var out := Processed(cfg, j, o, now);
            (exists m :: m in out.mail && m.event.DeadlineApproaching?) <==>
              && Priceable(j, o, now) && !OfferStands(cfg, j, o)
              && j.terms.deadline.Some? && j.terms.deadline.value.at - now <= cfg.alertHours * HOUR
              && j.deadlineAlertSentAt.None?
    ensures forall m :: m in Processed(cfg, j, o, now).mail && m.event.DeadlineApproaching? ==>
              && m.delivered == o.delivery.deadline
              && m.event.hotel == j.terms.hotelName && m.event.checkUrl == o.checkUrl
  {
    VisitByKind(cfg, j, o, now);
    KindsFromOutside(cfg, j, o, now);
    hide Processed, BestLikeForLike, KindOf, StayIsOver, Priceable, OfferIsNews, OfferStands, SawMovement;
  }

  /** An exception leaves the visit exactly if the source fails, or there is a new
      offer on a booking priced at zero; and the job is then due as before. */
  lemma {:induction false} RaisesExactly(cfg: Settings, j: Job, o: Oracle, now: int)
    ensures var out := Processed(cfg, j, o, now);
            && (out.raised <==>
                  || (Priceable(j, o, now) && OfferIsNews(cfg, j, o) && j.terms.originalPrice == 0.0)
                  || (!StayIsOver(j, now) && HotelAfter(j, o).Some? && HotelAfter(j, o).value != ""
                      && o.rates.CheckRaised?))
            && (out.raised ==> out.job.nextCheckAt == j.nextCheckAt && out.job.status == j.status && out.mail == [])
  {
    VisitByKind(cfg, j, o, now);
    KindsFromOutside(cfg, j, o, now);
    hide Processed, BestLikeForLike, StayIsOver, OfferIsNews, OfferStands, ReachableDrop, AlertDue, WarningDue;
  }

  /** The next check, in microseconds: a day later, half a day in the last
      fortnight, six hours in the last 72; a day without a deadline; and a jitter of
      up to half an hour, except for a job still without a hotel. */
  lemma {:induction false} NextCheckByTheTable(cfg: Settings, j: Job, o: Oracle, now: int)
    requires !StayIsOver(j, now) && !Processed(cfg, j, o, now).raised
    ensures var next := Processed(cfg, j, o, now).job.nextCheckAt;
            var wait := if j.terms.deadline.None? then 86_400_000_000
                        else if 14 * 86_400_000_000 < j.terms.deadline.value.at - now then 86_400_000_000
                        else if 3 * 86_400_000_000 < j.terms.deadline.value.at - now then 43_200_000_000
                        else 21_600_000_000;
            next == Some(now + wait + if Priceable(j, o, now) then o.jitter * 1_000_000 else 0)
            && 0 <= o.jitter <= 1_800
  {
    VisitByKind(cfg, j, o, now);
    KindsFromOutside(cfg, j, o, now);
    VisitSchedule(cfg, j, o, now);
    hide Processed, BestLikeForLike, OfferIsNews, OfferStands, ReachableDrop, AlertDue, WarningDue;
  }

  // ---------------------------------------------------------------- a pass

  /** The k-th due job has a running plan, and this is its visit. */
  predicate Visited(cfg: Settings, js: seq<Job>, plans: seq<bool>, os: seq<Oracle>, now: int, k: nat, out: Outcome)
    requires |js| == |plans| == |os|
  {
    k < |js| && plans[k] && out == Processed(cfg, js[k], os[k], now)
  }

  /** The visits of a pass are those of the due jobs with a running plan. */
  lemma {:induction false} PassIsItsVisits(cfg: Settings, js: seq<Job>, plans: seq<bool>, os: seq<Oracle>, now: int,
                                           out: Outcome)
    requires |js| == |plans| == |os|
    ensures out in Visits(cfg, js, plans, os, now) <==> exists k: nat :: Visited(cfg, js, plans, os, now, k, out)
  {
    hide Processed;
    if js != [] {
      var n := |js| - 1;
      var js', plans', os' := js[..n], plans[..n], os[..n];
      PassIsItsVisits(cfg, js', plans', os', now, out);
      forall k: nat
        ensures Visited(cfg, js, plans, os, now, k, out) <==>
                  Visited(cfg, js', plans', os', now, k, out)
                  || (k == n && out in Visit(cfg, js[n], plans[n], os[n], now))
      {
      }
      if out in Visit(cfg, js[n], plans[n], os[n], now) { assert Visited(cfg, js, plans, os, now, n, out); }
      hide Visited, Visit;
    }
  }

  /** Its mail is the mail of these, and its rows are theirs. */
  lemma {:induction false} MailAndRowsBelong(outs: seq<Outcome>)
    ensures forall m :: m in MailOf(outs) <==> exists out :: out in outs && m in out.mail
    ensures forall row :: row in RowsOf(outs) <==> exists out :: out in outs && row in out.rows
  {
    if outs != [] {
      MailAndRowsBelong(outs[..|outs| - 1]);
      assert forall out :: out in outs <==> out in outs[..|outs| - 1] || out == outs[|outs| - 1];
    }
  }

  /** The plan is running, and the visit does not raise. */
  predicate Completes(cfg: Settings, j: Job, running: bool, o: Oracle, now: int) {
    running && !Processed(cfg, j, o, now).raised
  }

  lemma LastVisitCounts(cfg: Settings, outs: seq<Outcome>, j: Job, running: bool, o: Oracle, now: int)
    ensures Finished(outs + Visit(cfg, j, running, o, now))
         == Finished(outs) + if Completes(cfg, j, running, o, now) then 1 else 0
  {
    hide Processed;
    var more := Visit(cfg, j, running, o, now);
    OutcomesAppend(outs, more);
    if running { assert more[..0] == []; }
  }

  function Completed(cfg: Settings, js: seq<Job>, plans: seq<bool>, os: seq<Oracle>, now: int): set<int>
    requires |js| == |plans| == |os|
  {
    set k | 0 <= k < |js| && Completes(cfg, js[k], plans[k], os[k], now)
  }

  lemma LastCompletes(cfg: Settings, js: seq<Job>, plans: seq<bool>, os: seq<Oracle>, now: int)
    requires |js| == |plans| == |os| && js != []
    ensures var n := |js| - 1;
            var before := Completed(cfg, js[..n], plans[..n], os[..n], now);
            && n !in before
            && Completed(cfg, js, plans, os, now)
               == before + if Completes(cfg, js[n], plans[n], os[n], now) then {n} else {}
  {
    hide Completes;
  }

  /** The processed count is the number of due jobs of a running plan whose visit
      does not raise. */
  lemma {:induction false} FinishedCounts(cfg: Settings, js: seq<Job>, plans: seq<bool>, os: seq<Oracle>, now: int)
    requires |js| == |plans| == |os|
    ensures Finished(Visits(cfg, js, plans, os, now)) == |Completed(cfg, js, plans, os, now)|
  {
    hide Completes, Visit;
    if js == [] {
      assert Completed(cfg, js, plans, os, now) == {};
    } else {
      hide Finished, Completed;
      var n := |js| - 1;
      var js', plans', os' := js[..n], plans[..n], os[..n];
      FinishedCounts(cfg, js', plans', os', now);
      LastVisitCounts(cfg, Visits(cfg, js', plans', os', now), js[n], plans[n], os[n], now);
      LastCompletes(cfg, js, plans, os, now);
    }
  }
}
