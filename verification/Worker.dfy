/** The deadline-clocked scheduler. Each method assigns the attributes of live
    objects; the function beside it says what the assignment amounts to on the
    row. Everything the outside decides during a pass is in an `Oracle`. */
module Worker {
  import opened Models
  import opened Matching

  /** What the price source answers: an exception or a list of rates. */
  datatype Rates = CheckRaised | Rates(candidates: seq<Candidate>)

  /** Which events the mail service would accept during a pass. */
  datatype Delivery = Delivery(drop: bool, deadline: bool, ended: bool)

  /** Random delay added to a schedule, in seconds. */
  type Jitter = s: int | 0 <= s <= 30 * 60

  /** The answers one job meets in one pass. */
  datatype Oracle = Oracle(resolution: Resolution, rates: Rates, delivery: Delivery, jitter: Jitter,
                           checkUrl: Option<string>)

  /** The effect of working on one job: its row, the history rows inserted, the
      events handed over, and whether an exception cut the work short. */
  datatype Outcome = Outcome(job: Job, rows: seq<PriceCheck>, mail: seq<Mail>, raised: bool)

  // ---------------------------------------------------------------- schedule arithmetic

  function TimeUntil(deadline: Option<Stamp>, now: int): Option<int> {
    if deadline.None? then None else Some(deadline.value.at - now)
  }

  /** Hours between checks, by time left to the deadline. */
  function CadenceHours(left: Option<int>): int {
    if left.None? then 24
    else if left.value > 14 * DAY then 24
    else if left.value > 3 * DAY then 12
    else 6
  }

  // ---------------------------------------------------------------- one job, on the row

  /** The free-cancellation window has closed or the stay is over. */
  predicate Over(j: Job, now: int) {
    (j.terms.deadline.Some? && j.terms.deadline.value.at - now <= 0) || j.terms.checkOut <= DayOf(now)
  }

  function EndedEvent(j: Job): Event {
    MonitoringEnded(j.terms.hotelName,
                    if j.lowestSeenPrice.Some? then j.terms.originalPrice - j.lowestSeenPrice.value else 0.0,
                    if j.dropAlertSentAt.Some? then DropWasFound else NoDrop)
  }

  function Closed(j: Job, accepted: bool, now: int): Outcome {
    Outcome(if accepted then j.(status := Expired, nextCheckAt := None) else j.(nextCheckAt := Some(now + HOUR)),
            [], [Mail(EndedEvent(j), accepted)], false)
  }

  function Resolved(j: Job, r: Resolution): Job {
    if Confident(r) then j.(hotelId := Some(r.matches[0].hotelId)) else j
  }

  function CheckRow(jobId: int, best: Option<Candidate>, now: int): PriceCheck {
    if best.Some? then PriceCheck(jobId, now, Some(best.value.price), Some(best.value.ota))
    else PriceCheck(jobId, now, None, None)
  }

  function WithBest(j: Job, c: Candidate): Job {
    j.(currentBestPrice := Some(c.price), currentBestOta := Some(c.ota), currentBestUrl := c.link,
       lowestSeenPrice := if j.lowestSeenPrice.None? || c.price < j.lowestSeenPrice.value
                          then Some(c.price) else j.lowestSeenPrice)
  }

  function Recorded(j: Job, best: Option<Candidate>, now: int): Job {
    var k := j.(lastCheckedAt := Some(now), checkCount := j.checkCount + 1);
    if best.Some? then WithBest(k, best.value) else k
  }

  /** A reachable drop at this price calls for an alert: the first one, or one
      deeper than the last alert by more than the floor. */
  predicate AlertDue(cfg: Settings, j: Job, price: real) {
    || j.dropAlertSentAt.None?
    || (j.lowestAlertedPrice.Some? && price < j.lowestAlertedPrice.value - DropFloor(cfg, j.terms.originalPrice))
  }

  function DropEvent(j: Job, c: Candidate): Event
    requires j.terms.originalPrice != 0.0
  {
    var savings := j.terms.originalPrice - c.price;
    PriceDropFound(j.terms.hotelName, c.room, c.ota, j.terms.originalPrice, c.price, savings,
                   savings / j.terms.originalPrice * 100.0, c.link, Truthy(c.link), j.terms.deadline)
  }

  function Alerted(j: Job, c: Candidate, accepted: bool, now: int): Job {
    if accepted then j.(status := DropFound, dropAlertSentAt := Some(now), lowestAlertedPrice := Some(c.price)) else j
  }

  /** The deadline is near, no warning has gone out, and no reachable drop stands. */
  predicate WarningDue(cfg: Settings, j: Job, reachable: bool, now: int) {
    && j.terms.deadline.Some? && j.terms.deadline.value.at - now <= cfg.alertHours * HOUR
    && j.deadlineAlertSentAt.None?
    && !reachable
  }

  predicate SawMovement(cfg: Settings, j: Job) {
    j.lowestSeenPrice.Some? && j.lowestSeenPrice.value < j.terms.originalPrice - DropFloor(cfg, j.terms.originalPrice)
  }

  function WarningEvent(cfg: Settings, j: Job, checkUrl: Option<string>): Event {
    DeadlineApproaching(j.terms.hotelName, j.terms.deadline, j.checkCount, j.lowestSeenPrice, SawMovement(cfg, j),
                        checkUrl, Truthy(checkUrl))
  }

  function Warned(j: Job, accepted: bool, now: int): Job {
    if accepted then j.(status := DeadlineSoon, deadlineAlertSentAt := Some(now)) else j
  }

  function Rescheduled(j: Job, jitter: Jitter, now: int): Job {
    j.(nextCheckAt := Some(now + CadenceHours(TimeUntil(j.terms.deadline, now)) * HOUR + jitter * SECOND))
  }

  /** Warn if a warning is due, then schedule the next check. */
  function Guarded(cfg: Settings, j: Job, reachable: bool, o: Oracle, now: int): Job {
    Rescheduled(if WarningDue(cfg, j, reachable, now) then Warned(j, o.delivery.deadline, now) else j, o.jitter, now)
  }

  function WarningMail(cfg: Settings, j: Job, reachable: bool, o: Oracle, now: int): seq<Mail> {
    if WarningDue(cfg, j, reachable, now) then [Mail(WarningEvent(cfg, j, o.checkUrl), o.delivery.deadline)] else []
  }

  /** Pricing, drop alert, deadline warning and rescheduling of a resolved job.
      The percentage in the alert divides by the original price, so an alert on
      a booking priced at nothing raises after the history row is in place. */
  function Priced(cfg: Settings, j: Job, cs: seq<Candidate>, o: Oracle, now: int): Outcome {
    var best := BestLikeForLike(cs, j);
    var recorded := Recorded(j, best, now);
    var reachable := ReachableDrop(cfg, best, j);
    var alerting := reachable && AlertDue(cfg, j, best.value.price);
    if alerting && j.terms.originalPrice == 0.0 then
      Outcome(recorded, [CheckRow(j.id, best, now)], [], true)
    else
      var afterDrop := if alerting then Alerted(recorded, best.value, o.delivery.drop, now) else recorded;
      var dropMail := if alerting then [Mail(DropEvent(recorded, best.value), o.delivery.drop)] else [];
      Outcome(Guarded(cfg, afterDrop, reachable, o, now), [CheckRow(j.id, best, now)],
              dropMail + WarningMail(cfg, afterDrop, reachable, o, now), false)
  }

  /** The job once a missing hotel has been looked up again. */
  function AfterRetry(j: Job, o: Oracle): Job {
    if Truthy(j.hotelId) then j else Resolved(j, o.resolution)
  }

  /** What one visit of the scheduler does to a job. */
  function Processed(cfg: Settings, j: Job, o: Oracle, now: int): Outcome {
    if Over(j, now) then Closed(j, o.delivery.ended, now)
    else
      var k := AfterRetry(j, o);
      if !Truthy(k.hotelId) then
        Outcome(k.(nextCheckAt := Some(now + CadenceHours(TimeUntil(j.terms.deadline, now)) * HOUR)), [], [], false)
      else if o.rates.CheckRaised? then Outcome(k, [], [], true)
      else Priced(cfg, k, o.rates.candidates, o, now)
  }

  // ---------------------------------------------------------------- one job, on the object

  method Close(job: MonitoringJob, accepted: bool, klaviyo: Klaviyo, now: int)
    modifies job`status, job`nextCheckAt, klaviyo
    ensures job.Row() == Closed(old(job.Row()), accepted, now).job
    ensures klaviyo.sent == old(klaviyo.sent) + Closed(old(job.Row()), accepted, now).mail
  {
    var delivered := klaviyo.Emit(EndedEvent(job.Row()), accepted);
    if delivered {
      job.status := Expired;
      job.nextCheckAt := None;
    } else {
      job.nextCheckAt := Some(now + HOUR);
    }
  }

  method RetryResolution(job: MonitoringJob, resolution: Resolution)
    modifies job`hotelId
    ensures job.Row() == Resolved(old(job.Row()), resolution)
    ensures var found := resolution.Matches? && |resolution.matches| == 1 && resolution.matches[0].confidence >= 0.9;
            job.hotelId == if found then Some(resolution.matches[0].hotelId) else old(job.hotelId)
  {
    if resolution.LookupRaised? { return; }
    var matches := resolution.matches;
    if |matches| == 1 && matches[0].confidence >= 0.9 {
      job.hotelId := Some(matches[0].hotelId);
    }
  }

  method RecordBest(job: MonitoringJob, c: Candidate)
    modifies job`currentBestPrice, job`currentBestOta, job`currentBestUrl, job`lowestSeenPrice
    ensures job.Row() == WithBest(old(job.Row()), c)
  {
    job.currentBestPrice := Some(c.price);
    job.currentBestOta := Some(c.ota);
    job.currentBestUrl := c.link;
    if job.lowestSeenPrice.None? || c.price < job.lowestSeenPrice.value {
      job.lowestSeenPrice := Some(c.price);
    }
  }

  method Record(job: MonitoringJob, best: Option<Candidate>, db: Session, now: int)
    modifies job`lastCheckedAt, job`checkCount, job`currentBestPrice, job`currentBestOta, job`currentBestUrl,
             job`lowestSeenPrice, db`pending
    ensures job.Row() == Recorded(old(job.Row()), best, now)
    ensures db.pending == old(db.pending) + [CheckRow(job.id, best, now)]
  {
    db.Add(CheckRow(job.id, best, now));
    job.lastCheckedAt := Some(now);
    job.checkCount := job.checkCount + 1;
    if best.Some? {
      RecordBest(job, best.value);
    }
  }

  method SendDropAlert(job: MonitoringJob, c: Candidate, accepted: bool, klaviyo: Klaviyo, now: int)
    requires job.originalPrice != 0.0
    modifies job`status, job`dropAlertSentAt, job`lowestAlertedPrice, klaviyo
    ensures job.Row() == Alerted(old(job.Row()), c, accepted, now)
    ensures klaviyo.sent == old(klaviyo.sent) + [Mail(DropEvent(old(job.Row()), c), accepted)]
  {
    var delivered := klaviyo.Emit(DropEvent(job.Row(), c), accepted);
    if delivered {
      job.status := DropFound;
      job.dropAlertSentAt := Some(now);
      job.lowestAlertedPrice := Some(c.price);
    }
  }

  method SendDeadlineWarning(cfg: Settings, job: MonitoringJob, checkUrl: Option<string>, accepted: bool,
                             klaviyo: Klaviyo, now: int)
    modifies job`status, job`deadlineAlertSentAt, klaviyo
    ensures job.Row() == Warned(old(job.Row()), accepted, now)
    ensures klaviyo.sent == old(klaviyo.sent) + [Mail(WarningEvent(cfg, old(job.Row()), checkUrl), accepted)]
  {
    var delivered := klaviyo.Emit(WarningEvent(cfg, job.Row(), checkUrl), accepted);
    if delivered {
      job.status := DeadlineSoon;
      job.deadlineAlertSentAt := Some(now);
    }
  }

  method GuardDeadline(cfg: Settings, job: MonitoringJob, reachable: bool, o: Oracle, klaviyo: Klaviyo, now: int)
    modifies job`status, job`deadlineAlertSentAt, job`nextCheckAt, klaviyo
    ensures job.Row() == Guarded(cfg, old(job.Row()), reachable, o, now)
    ensures klaviyo.sent == old(klaviyo.sent) + WarningMail(cfg, old(job.Row()), reachable, o, now)
  {
    if WarningDue(cfg, job.Row(), reachable, now) {
      SendDeadlineWarning(cfg, job, o.checkUrl, o.delivery.deadline, klaviyo, now);
    }
    job.nextCheckAt := Some(now + CadenceHours(TimeUntil(job.deadline, now)) * HOUR + o.jitter * SECOND);
  }

  /** The part of a visit that prices a resolved job. */
  method PriceJob(cfg: Settings, job: MonitoringJob, cs: seq<Candidate>, o: Oracle, db: Session, klaviyo: Klaviyo,
                  now: int)
    returns (raised: bool)
    modifies job, db`pending, klaviyo
    ensures var out := Priced(cfg, old(job.Row()), cs, o, now);
            && job.Row() == out.job && raised == out.raised
            && db.pending == old(db.pending) + out.rows
            && klaviyo.sent == old(klaviyo.sent) + out.mail
  {
    ghost var j := job.Row();
    var best := BestLikeForLike(cs, job.Row());
    Record(job, best, db, now);
    var foundDrop := IsActionableDrop(cfg, best, job.Row());
    var held := foundDrop && cfg.requireLink && !Truthy(best.value.link);
    assert (foundDrop && !held) == ReachableDrop(cfg, best, j);
    if foundDrop && !held && AlertDue(cfg, job.Row(), best.value.price) {
      if job.originalPrice == 0.0 { return true; }
      SendDropAlert(job, best.value, o.delivery.drop, klaviyo, now);
    }
    GuardDeadline(cfg, job, foundDrop && !held, o, klaviyo, now);
    raised := false;
  }

  method ProcessJob(cfg: Settings, job: MonitoringJob, o: Oracle, db: Session, klaviyo: Klaviyo, now: int)
    returns (raised: bool)
    modifies job, db`pending, klaviyo
    ensures var out := Processed(cfg, old(job.Row()), o, now);
            && job.Row() == out.job && raised == out.raised
            && db.pending == old(db.pending) + out.rows
            && klaviyo.sent == old(klaviyo.sent) + out.mail
  {
    if Over(job.Row(), now) {
      Close(job, o.delivery.ended, klaviyo, now);
      return false;
    }
    if !Truthy(job.hotelId) {
      RetryResolution(job, o.resolution);
    }
    if !Truthy(job.hotelId) {
      job.nextCheckAt := Some(now + CadenceHours(TimeUntil(job.deadline, now)) * HOUR);
      return false;
    }
    if o.rates.CheckRaised? { return true; }
    raised := PriceJob(cfg, job, o.rates.candidates, o, db, klaviyo, now);
  }

  // ---------------------------------------------------------------- one pass

  /** The rows the scheduler's query returns. */
  predicate Selected(j: Job, now: int) {
    Monitored(j.status) && j.nextCheckAt.Some? && j.nextCheckAt.value <= now
  }

  /** What a whole pass means for one job: nothing unless it is due and its
      user's plan is running; otherwise a visit, kept at column precision if the
      final commit succeeds and undone, but for the mail, if it fails. */
  function InPass(cfg: Settings, round: real -> real, j: Job, canMonitor: bool, o: Oracle, now: int, commits: bool)
    : Outcome
  {
    if !Selected(j, now) || !canMonitor then Outcome(j, [], [], false)
    else
      var out := Processed(cfg, j, o, now);
      if commits then out.(job := Stored(round, out.job), rows := StoredRows(round, out.rows))
      else out.(job := j, rows := [])
  }

  function Rows(jobs: seq<MonitoringJob>): (rs: seq<Job>)
    reads jobs
    ensures |rs| == |jobs| && forall i :: 0 <= i < |jobs| ==> rs[i] == jobs[i].Row()
  {
    if jobs == [] then [] else Rows(jobs[..|jobs| - 1]) + [jobs[|jobs| - 1].Row()]
  }

  function Plans(jobs: seq<MonitoringJob>): (ps: seq<bool>)
    reads set job | job in jobs :: job.user
    ensures |ps| == |jobs| && forall i :: 0 <= i < |jobs| ==> ps[i] == (jobs[i].user.plan in {Trialing, Paying})
  {
    if jobs == [] then [] else Plans(jobs[..|jobs| - 1]) + [jobs[|jobs| - 1].user.CanMonitor()]
  }

  /** The visit of one selected job: none if the plan is paused. */
  function Visit(cfg: Settings, j: Job, canMonitor: bool, o: Oracle, now: int): seq<Outcome> {
    if canMonitor then [Processed(cfg, j, o, now)] else []
  }

  /** The visits of a pass, in query order, as one sequence of outcomes. */
  function Visits(cfg: Settings, js: seq<Job>, plans: seq<bool>, os: seq<Oracle>, now: int): seq<Outcome>
    requires |js| == |plans| == |os|
  {
    if js == [] then []
    else
      var n := |js| - 1;
      Visits(cfg, js[..n], plans[..n], os[..n], now) + Visit(cfg, js[n], plans[n], os[n], now)
  }

  function MailOf(outs: seq<Outcome>): seq<Mail> {
    if outs == [] then [] else MailOf(outs[..|outs| - 1]) + outs[|outs| - 1].mail
  }

  function RowsOf(outs: seq<Outcome>): seq<PriceCheck> {
    if outs == [] then [] else RowsOf(outs[..|outs| - 1]) + outs[|outs| - 1].rows
  }

  function Finished(outs: seq<Outcome>): nat {
    if outs == [] then 0 else Finished(outs[..|outs| - 1]) + if outs[|outs| - 1].raised then 0 else 1
  }

  function Answers(jobs: seq<MonitoringJob>, oracles: map<MonitoringJob, Oracle>): (os: seq<Oracle>)
    requires forall job :: job in jobs ==> job in oracles
    ensures |os| == |jobs| && forall i :: 0 <= i < |jobs| ==> os[i] == oracles[jobs[i]]
  {
    seq(|jobs|, i requires 0 <= i < |jobs| => oracles[jobs[i]])
  }

  predicate Distinct(jobs: seq<MonitoringJob>) {
    forall i, k :: 0 <= i < k < |jobs| ==> jobs[i] != jobs[k]
  }

  /** The row a visited job has before the transaction ends. */
  function AfterVisit(cfg: Settings, j: Job, canMonitor: bool, o: Oracle, now: int): Job {
    if canMonitor then Processed(cfg, j, o, now).job else j
  }

  lemma {:induction false} VisitsStep(cfg: Settings, js: seq<Job>, plans: seq<bool>, os: seq<Oracle>, now: int, i: nat)
    requires |js| == |plans| == |os| && i < |js|
    ensures Visits(cfg, js[..i + 1], plans[..i + 1], os[..i + 1], now)
         == Visits(cfg, js[..i], plans[..i], os[..i], now) + Visit(cfg, js[i], plans[i], os[i], now)
  {
    assert js[..i + 1][..i] == js[..i] && plans[..i + 1][..i] == plans[..i] && os[..i + 1][..i] == os[..i];
  }

  lemma NoVisits(cfg: Settings, js: seq<Job>, plans: seq<bool>, os: seq<Oracle>, now: int)
    requires |js| == |plans| == |os|
    ensures Visits(cfg, js[..0], plans[..0], os[..0], now) == []
    ensures MailOf([]) == [] && RowsOf([]) == [] && Finished([]) == 0
  {
  }

  lemma {:induction false} OutcomesAppend(outs: seq<Outcome>, more: seq<Outcome>)
    requires |more| <= 1
    ensures MailOf(outs + more) == MailOf(outs) + MailOf(more)
    ensures RowsOf(outs + more) == RowsOf(outs) + RowsOf(more)
    ensures Finished(outs + more) == Finished(outs) + Finished(more)
  {
    if more == [] {
      assert outs + more == outs;
    } else {
      assert (outs + more)[..|outs|] == outs && more[..0] == [];
    }
  }

  /** One turn of the loop over the due jobs. An exception is logged, and the
      visit is then not counted. */
  method VisitOne(cfg: Settings, job: MonitoringJob, o: Oracle, db: Session, klaviyo: Klaviyo, now: int)
    returns (counted: nat)
    modifies job, db`pending, klaviyo
    ensures job.Row() == AfterVisit(cfg, old(job.Row()), job.user.CanMonitor(), o, now)
    ensures var outs := Visit(cfg, old(job.Row()), job.user.CanMonitor(), o, now);
            && counted == Finished(outs)
            && klaviyo.sent == old(klaviyo.sent) + MailOf(outs)
            && db.pending == old(db.pending) + RowsOf(outs)
  {
    hide MonitoringJob.Row, Processed;
    ghost var outs := Visit(cfg, job.Row(), job.user.CanMonitor(), o, now);
    OutcomesAppend([], outs);
    counted := 0;
    if job.user.CanMonitor() {
      assert outs[..0] == [];
      var raised := ProcessJob(cfg, job, o, db, klaviyo, now);
      if !raised { counted := 1; }
    }
  }

  /** The loop over the due jobs. */
  method VisitAll(cfg: Settings, due: seq<MonitoringJob>, os: seq<Oracle>, db: Session, klaviyo: Klaviyo, now: int)
    returns (processed: nat)
    requires Distinct(due) && |os| == |due|
    modifies due, db`pending, klaviyo
    ensures forall k :: 0 <= k < |due| ==>
              due[k].Row() == AfterVisit(cfg, old(due[k].Row()), due[k].user.CanMonitor(), os[k], now)
    ensures var outs := Visits(cfg, old(Rows(due)), Plans(due), os, now);
            && processed == Finished(outs)
            && klaviyo.sent == old(klaviyo.sent) + MailOf(outs)
            && db.pending == old(db.pending) + RowsOf(outs)
  {
    hide MonitoringJob.Row, AfterVisit, Visit, Visits, MailOf, RowsOf, Finished, User.CanMonitor, Rows, Plans;
    ghost var js, plans := Rows(due), Plans(due);
    ghost var outs: seq<Outcome> := [];
    NoVisits(cfg, js, plans, os, now);
    processed := 0;
    var i := 0;
    while i < |due|
      invariant 0 <= i <= |due|
      invariant forall k :: 0 <= k < i ==> due[k].Row() == AfterVisit(cfg, js[k], plans[k], os[k], now)
      invariant forall k :: i <= k < |due| ==> due[k].Row() == js[k]
      invariant outs == Visits(cfg, js[..i], plans[..i], os[..i], now)
      invariant processed == Finished(outs)
      invariant klaviyo.sent == old(klaviyo.sent) + MailOf(outs)
      invariant db.pending == old(db.pending) + RowsOf(outs)
    {
      VisitsStep(cfg, js, plans, os, now, i);
      ghost var more := Visit(cfg, js[i], plans[i], os[i], now);
      VisitIsShort(cfg, js[i], plans[i], os[i], now);
      OutcomesAppend(outs, more);
      var counted := VisitOne(cfg, due[i], os[i], db, klaviyo, now);
      processed := processed + counted;
      outs := outs + more;
      i := i + 1;
    }
    assert js[..i] == js && plans[..i] == plans && os[..i] == os;
  }

  lemma VisitIsShort(cfg: Settings, j: Job, canMonitor: bool, o: Oracle, now: int)
    ensures |Visit(cfg, j, canMonitor, o, now)| <= 1
  {
  }

  method ReloadRow(job: MonitoringJob, round: real -> real)
    modifies job
    ensures job.Row() == Stored(round, old(job.Row()))
  {
    job.Reload(round);
  }

  method RollbackRow(job: MonitoringJob, saved: Job)
    modifies job
    ensures SchedulerColumns(job.Row(), saved, old(job.Row()))
  {
    job.Rollback(saved);
  }

  method CommitAll(round: real -> real, due: seq<MonitoringJob>, db: Session)
    requires Distinct(due)
    modifies due, db
    ensures forall k :: 0 <= k < |due| ==>
              due[k].Row() == if due[k].user.CanMonitor() then Stored(round, old(due[k].Row())) else old(due[k].Row())
    ensures db.rows == old(db.rows) + StoredRows(round, old(db.pending)) && db.pending == []
  {
    hide MonitoringJob.Row;
    db.Commit(round);
    for i := 0 to |due|
      invariant db.rows == old(db.rows) + StoredRows(round, old(db.pending)) && db.pending == []
      invariant forall k :: 0 <= k < i ==>
        due[k].Row() == if due[k].user.CanMonitor() then Stored(round, old(due[k].Row())) else old(due[k].Row())
      invariant forall k :: i <= k < |due| ==> due[k].Row() == old(due[k].Row())
    {
      if due[i].user.CanMonitor() { ReloadRow(due[i], round); }
    }
  }

  method RollbackAll(due: seq<MonitoringJob>, saved: seq<Job>, db: Session)
    requires Distinct(due) && |saved| == |due|
    modifies due, db`pending
    ensures forall k :: 0 <= k < |due| ==> SchedulerColumns(due[k].Row(), saved[k], old(due[k].Row()))
    ensures db.pending == []
  {
    hide MonitoringJob.Row, SchedulerColumns;
    db.Rollback();
    for i := 0 to |due|
      invariant db.pending == []
      invariant forall k :: 0 <= k < i ==> SchedulerColumns(due[k].Row(), saved[k], old(due[k].Row()))
      invariant forall k :: i <= k < |due| ==> due[k].Row() == old(due[k].Row())
    {
      RollbackRow(due[i], saved[i]);
    }
  }

  /** Row `r` has the columns the scheduler writes from `saved`, the others
      from `j`. */
  predicate SchedulerColumns(r: Job, saved: Job, j: Job) {
    r == j.(status := saved.status, hotelId := saved.hotelId, lastCheckedAt := saved.lastCheckedAt,
            nextCheckAt := saved.nextCheckAt, checkCount := saved.checkCount,
            currentBestPrice := saved.currentBestPrice, currentBestOta := saved.currentBestOta,
            currentBestUrl := saved.currentBestUrl, lowestSeenPrice := saved.lowestSeenPrice,
            dropAlertSentAt := saved.dropAlertSentAt, lowestAlertedPrice := saved.lowestAlertedPrice,
            deadlineAlertSentAt := saved.deadlineAlertSentAt)
  }

  /** A visit writes no other columns. */
  lemma PricingWritesSchedulerColumns(cfg: Settings, j: Job, cs: seq<Candidate>, o: Oracle, now: int)
    ensures SchedulerColumns(j, j, Priced(cfg, j, cs, o, now).job)
  {
    hide ReachableDrop, BestLikeForLike, WarningDue, AlertDue, CheckRow, WarningMail, DropEvent, CadenceHours;
  }

  lemma VisitWritesSchedulerColumns(cfg: Settings, j: Job, canMonitor: bool, o: Oracle, now: int)
    ensures SchedulerColumns(j, j, AfterVisit(cfg, j, canMonitor, o, now))
  {
    hide Priced, CadenceHours;
    var k := AfterRetry(j, o);
    if o.rates.Rates? { PricingWritesSchedulerColumns(cfg, k, o.rates.candidates, o, now); }
  }

  lemma VisitedOrNot(cfg: Settings, j: Job, canMonitor: bool, o: Oracle, now: int)
    ensures AfterVisit(cfg, j, canMonitor, o, now) == if canMonitor then Processed(cfg, j, o, now).job else j
  {
  }

  lemma SameSchedulerColumns(r: Job, saved: Job, j: Job)
    requires SchedulerColumns(r, saved, j) && SchedulerColumns(saved, saved, j)
    ensures r == saved
  {
  }

  /** The rows the scheduler's query returns, in the columns it names. */
  predicate IsDue(job: MonitoringJob, now: int)
    reads job
  {
    && job.status in {Active, DropFound, DeadlineSoon}
    && job.nextCheckAt.Some? && job.nextCheckAt.value <= now
  }

  /** One pass over the table. `due` is the result of the query, in whatever
      order the database gives it; `now` is read once. What each job ends up as
      depends on its own row, plan and oracle alone, so the order does not
      matter. If the final commit fails, only the mail remains. */
  method RunOnce(cfg: Settings, round: real -> real, table: set<MonitoringJob>, due: seq<MonitoringJob>,
                 oracles: map<MonitoringJob, Oracle>, db: Session, klaviyo: Klaviyo, now: int, commits: bool)
    returns (processed: nat, raised: bool)
    requires Distinct(due)
    requires forall job :: job in due <==> job in table && IsDue(job, now)
    requires forall job :: job in table ==> job in oracles
    requires db.pending == []
    modifies table, db, klaviyo
    ensures raised == !commits
    ensures forall job :: job in table ==>
              job.Row() == if commits && job in due && job.user.plan in {Trialing, Paying}
                           then Stored(round, Processed(cfg, old(job.Row()), oracles[job], now).job)
                           else old(job.Row())
    ensures var outs := Visits(cfg, old(Rows(due)), Plans(due), Answers(due, oracles), now);
            && (!raised ==> processed == Finished(outs))
            && klaviyo.sent == old(klaviyo.sent) + MailOf(outs)
            && db.rows == old(db.rows) + (if commits then StoredRows(round, RowsOf(outs)) else [])
            && db.pending == []
  {
    hide MonitoringJob.Row, Processed, Stored, SchedulerColumns, AfterVisit, IsDue, Visit, Visits, MailOf, RowsOf,
         Finished, User.CanMonitor, Rows, Plans, StoredRows;
    assert forall job :: job in due ==> job in table;
    var os := Answers(due, oracles);
    var saved := Rows(due);
    ghost var outs := Visits(cfg, saved, Plans(due), os, now);
    processed := VisitAll(cfg, due, os, db, klaviyo, now);
    assert db.pending == RowsOf(outs);
    if commits {
      CommitAll(round, due, db);
      raised := false;
    } else {
      RollbackAll(due, saved, db);
      raised := true;
      forall k | 0 <= k < |due|
        ensures due[k].Row() == saved[k]
      {
        VisitWritesSchedulerColumns(cfg, saved[k], due[k].user.CanMonitor(), os[k], now);
        SameSchedulerColumns(due[k].Row(), saved[k], AfterVisit(cfg, saved[k], due[k].user.CanMonitor(), os[k], now));
      }
    }
    forall job | job in table
      ensures job.Row() == if commits && job in due && job.user.plan in {Trialing, Paying}
                           then Stored(round, Processed(cfg, old(job.Row()), oracles[job], now).job)
                           else old(job.Row())
    {
      if job in due {
        var k :| 0 <= k < |due| && due[k] == job;
        VisitedOrNot(cfg, saved[k], due[k].user.CanMonitor(), os[k], now);
      }
    }
  }
}
