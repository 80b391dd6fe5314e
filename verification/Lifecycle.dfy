/** From a parsed but incomplete booking to a monitored one. */
module Lifecycle {
  import opened Models

  /** Refundable, with a deadline to clock against, and resolved to a hotel. */
  predicate ReadyToMonitor(j: Job) {
    j.terms.refundable && j.terms.deadline.Some? && j.hotelId.Some?
  }

  function MonitoredEvent(j: Job): Event {
    BookingMonitored(j.terms.hotelName, j.terms.originalPrice, j.terms.deadline)
  }

  function Activated(j: Job, now: int): Job {
    j.(status := Active, nextCheckAt := Some(now))
  }

  /** A pending booking that has become complete is activated. */
  predicate Activates(j: Job) {
    Pending(j.status) && ReadyToMonitor(j)
  }

  function ActivatedIfReady(j: Job, now: int): Job {
    if Activates(j) then Activated(j, now) else j
  }

  method Activate(job: MonitoringJob, klaviyo: Klaviyo, accepted: bool, now: int)
    modifies job`status, job`nextCheckAt, klaviyo
    ensures job.Row() == Activated(old(job.Row()), now)
    ensures klaviyo.sent == old(klaviyo.sent) + [Mail(MonitoredEvent(old(job.Row())), accepted)]
  {
    job.status := Active;
    job.nextCheckAt := Some(now);
    var _ := klaviyo.Emit(MonitoredEvent(job.Row()), accepted);
  }

  method ActivateIfReady(job: MonitoringJob, klaviyo: Klaviyo, accepted: bool, now: int) returns (activated: bool)
    modifies job`status, job`nextCheckAt, klaviyo
    ensures activated == Activates(old(job.Row()))
    ensures job.Row() == ActivatedIfReady(old(job.Row()), now)
    ensures klaviyo.sent == old(klaviyo.sent)
                            + if activated then [Mail(MonitoredEvent(old(job.Row())), accepted)] else []
  {
    if Pending(job.status) && ReadyToMonitor(job.Row()) {
      Activate(job, klaviyo, accepted, now);
      return true;
    }
    activated := false;
  }
}
