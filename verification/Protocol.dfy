/** The monitoring protocol of one booking as a transition system. A `World` is
    the stored row, the plan, and a chronological log of what was recorded and
    what was mailed; the steps are the scheduler's passes, whose last act may
    fail, and the user's and the billing system's actions. By the contract of
    `Worker.RunOnce` a pass treats every booking independently, so the runs of
    the whole system are the runs of its bookings side by side. */
module Protocol {
  import opened Models
  import opened Matching
  import opened Worker
  import opened Lifecycle
  import opened Jobs
  import opened Ingestion

  // ---------------------------------------------------------------- environment

  /** Configuration, and what the money columns do to a price. */
  datatype Env = Env(cfg: Settings, round: real -> real, eps: real)

  /** A price at column precision. */
  function Rounded(e: Env, x: real): real {
    e.round(x)
  }

  /** Column precision: monotone, idempotent, off by at most `eps`. */
  ghost predicate ValidEnv(e: Env) {
    && 0.0 <= e.eps
    && (forall x: real :: Rounded(e, Rounded(e, x)) == Rounded(e, x))
    && (forall x: real, y: real :: x <= y ==> Rounded(e, x) <= Rounded(e, y))
    && (forall x: real :: x - e.eps <= Rounded(e, x) <= x + e.eps)
  }

  // ---------------------------------------------------------------- the log

  /** What a check led to: no drop; a drop without a link, kept back; a drop no
      deeper than the last alert; an alert that went out; an alert that was
      refused; an alert that could not even be composed. */
  datatype Verdict = Flat | HeldBack | Standing | Told | Refused | Unpriceable

  /** `Checked` is a committed history row, with the rate it came from and what
      followed. `Mailed` is an event handed to the mail service; `committed`
      tells whether the pass that sent it was kept, `job` and `rates` are what
      the sender had in hand. */
  datatype Entry =
    | Checked(row: PriceCheck, best: Option<Candidate>, verdict: Verdict)
    | Mailed(at: int, event: Event, delivered: bool, committed: bool, job: Job, rates: seq<Candidate>)

  predicate IsCheck(x: Entry) { x.Checked? }
  predicate IsDrop(x: Entry) { x.Mailed? && x.event.PriceDropFound? && x.delivered }
  predicate IsWarning(x: Entry) { x.Mailed? && x.event.DeadlineApproaching? && x.delivered }
  predicate IsEnding(x: Entry) { x.Mailed? && x.event.MonitoringEnded? && x.delivered }
  predicate KeptDrop(x: Entry) { IsDrop(x) && x.committed }
  predicate KeptWarning(x: Entry) { IsWarning(x) && x.committed }
  predicate KeptEnding(x: Entry) { IsEnding(x) && x.committed }
  predicate LostDrop(x: Entry) { IsDrop(x) && !x.committed }
  predicate LostWarning(x: Entry) { IsWarning(x) && !x.committed }
  predicate LostEnding(x: Entry) { IsEnding(x) && !x.committed }
  predicate IsWelcome(x: Entry) { x.Mailed? && x.event.BookingMonitored? }

  /** The entries of the log that satisfy `p`, in order. */
  function Pick(log: seq<Entry>, p: Entry -> bool): seq<Entry> {
    if log == [] then []
    else
      var x := log[|log| - 1];
      Pick(log[..|log| - 1], p) + if p(x) then [x] else []
  }

  // ---------------------------------------------------------------- steps

  datatype World = World(job: Job, plan: PlanStatus, lastPass: int, log: seq<Entry>, aborts: nat)

  datatype Step =
    | Pass(now: int, o: Oracle, commits: bool)
    | Patch(patch: seq<Assign>, accepted: bool, when: int)
    | Cancel
    | Plan(plan: PlanStatus)

  function RatesOf(o: Oracle): seq<Candidate> {
    if o.rates.Rates? then o.rates.candidates else []
  }

  function VerdictOf(cfg: Settings, j: Job, best: Option<Candidate>, o: Oracle): Verdict {
    if !IsActionableDrop(cfg, best, j) then Flat
    else if Held(cfg, best, j) then HeldBack
    else if !AlertDue(cfg, j, best.value.price) then Standing
    else if j.terms.originalPrice == 0.0 then Unpriceable
    else if o.delivery.drop then Told
    else Refused
  }

  /** The history entry of a visit, if its row was inserted and kept. */
  function CheckEntries(e: Env, j: Job, o: Oracle, now: int, commits: bool): seq<Entry> {
    var out := Processed(e.cfg, j, o, now);
    if out.rows == [] || !commits then []
    else
      var k := AfterRetry(j, o);
      var best := BestLikeForLike(RatesOf(o), k);
      [Checked(StoredRow(e.round, out.rows[0]), best, VerdictOf(e.cfg, k, best, o))]
  }

  /** The mail of a visit, kept or not. */
  function MailEntries(e: Env, j: Job, o: Oracle, now: int, commits: bool): seq<Entry> {
    var mail := Processed(e.cfg, j, o, now).mail;
    seq(|mail|, i requires 0 <= i < |mail| =>
      Mailed(now, mail[i].event, mail[i].delivered, commits, AfterRetry(j, o), RatesOf(o)))
  }

  predicate Due(w: World, now: int) {
    Selected(w.job, now) && Running(w.plan)
  }

  function Apply(e: Env, w: World, s: Step): World {
    match s
    case Pass(now, o, commits) =>
      var entries :=
        if Due(w, now) then CheckEntries(e, w.job, o, now, commits) + MailEntries(e, w.job, o, now, commits) else [];
      w.(job := InPass(e.cfg, e.round, w.job, Running(w.plan), o, now, commits).job,
         lastPass := now,
         log := w.log + entries,
         aborts := w.aborts + if commits then 0 else 1)
    case Patch(patch, accepted, when) =>
      w.(job := Updated(w.job, patch, when),
         log := w.log + if PatchActivates(w.job, patch)
                        then [Mailed(when, MonitoredEvent(Patched(w.job, patch)), accepted, true,
                                     Patched(w.job, patch), [])]
                        else [])
    case Cancel => w.(job := CancelledJob(w.job))
    case Plan(plan) => w.(plan := plan)
  }

  function Exec(e: Env, w: World, steps: seq<Step>): World {
    if steps == [] then w else Apply(e, Exec(e, w, steps[..|steps| - 1]), steps[|steps| - 1])
  }

  // ---------------------------------------------------------------- beginnings

  datatype Creation =
    | FromPost(id: int, post: JobCreate, resolution: Resolution, when: int)
    | FromEmail(id: int, booking: ParsedBooking, resolution: Resolution, when: int)

  /** The job a creation makes; none if the request is turned down. */
  function Create(c: Creation): Option<Job> {
    match c
    case FromPost(id, post, resolution, when) => Posted(id, post, resolution, when)
    case FromEmail(id, booking, resolution, when) =>
      if booking.refundable == Some(true) then Some(Ingested(id, booking, resolution, when)) else None
  }

  function Start(e: Env, c: Creation, plan: PlanStatus, accepted: bool): World
    requires Create(c).Some?
  {
    var j := Stored(e.round, Create(c).value);
    var event := if c.FromPost? then MonitoredEvent(j) else Announcement(j);
    World(j, plan, c.when, [Mailed(c.when, event, accepted, true, j, [])], 0)
  }

  // ---------------------------------------------------------------- kinds of run

  /** The step assigns no status by hand. */
  predicate NoStatusPatch(s: Step) {
    s.Patch? ==> forall i :: 0 <= i < |s.patch| ==> !s.patch[i].SetStatus?
  }

  predicate NoStatusPatches(steps: seq<Step>) {
    forall i :: 0 <= i < |steps| ==> NoStatusPatch(steps[i])
  }
}
