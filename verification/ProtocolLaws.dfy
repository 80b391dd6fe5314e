/** Working knowledge about the protocol: how the log grows, what a visit can
    look like, and what no step ever changes. */
module ProtocolLaws {
  import opened Models
  import opened Matching
  import opened Worker
  import opened Lifecycle
  import opened Jobs
  import opened Protocol

  // ---------------------------------------------------------------- the log

  lemma {:induction false} PickAppend(log: seq<Entry>, more: seq<Entry>, p: Entry -> bool)
    ensures Pick(log + more, p) == Pick(log, p) + Pick(more, p)
  {
    if more == [] {
      assert log + more == log;
    } else {
      assert (log + more)[..|log + more| - 1] == log + more[..|more| - 1];
      PickAppend(log, more[..|more| - 1], p);
    }
  }

  lemma PickOne(xs: seq<Entry>, p: Entry -> bool)
    requires |xs| <= 1
    ensures Pick(xs, p) == if xs != [] && p(xs[0]) then xs else []
  {
    if xs != [] { assert xs[..0] == []; }
  }

  /** The log after a step that adds at most a check and an event. */
  lemma {:induction false} PickStep(log: seq<Entry>, checks: seq<Entry>, mails: seq<Entry>, p: Entry -> bool)
    requires |checks| <= 1 && |mails| <= 1
    ensures Pick(log + (checks + mails), p)
         == Pick(log, p) + (if checks != [] && p(checks[0]) then checks else [])
                         + (if mails != [] && p(mails[0]) then mails else [])
  {
    hide Pick;
    PickAppend(log, checks + mails, p);
    PickAppend(checks, mails, p);
    PickOne(checks, p);
    PickOne(mails, p);
  }

  lemma {:induction false} PickedBelong(log: seq<Entry>, p: Entry -> bool)
    ensures forall x :: x in Pick(log, p) <==> x in log && p(x)
  {
    if log != [] {
      PickedBelong(log[..|log| - 1], p);
      assert log == log[..|log| - 1] + [log[|log| - 1]];
    }
  }

  // ---------------------------------------------------------------- visits

  /** The ways a visit can go. */
  datatype Kind = Closing | Unresolved | SourceRaised | ZeroPrice | Quiet | Alert | Warning

  function KindOf(cfg: Settings, j: Job, o: Oracle, now: int): Kind {
    var k := AfterRetry(j, o);
    var best := BestLikeForLike(RatesOf(o), k);
    var reachable := ReachableDrop(cfg, best, k);
    if Over(j, now) then Closing
    else if !Truthy(k.hotelId) then Unresolved
    else if o.rates.CheckRaised? then SourceRaised
    else if reachable && AlertDue(cfg, k, best.value.price) then
      if k.terms.originalPrice == 0.0 then ZeroPrice else Alert
    else if WarningDue(cfg, k, reachable, now) then Warning
    else Quiet
  }

  /** A visit told by its kind. Each kind hands over at most one event. */
  function ByKind(cfg: Settings, j: Job, o: Oracle, now: int): Outcome {
    var k := AfterRetry(j, o);
    var best := BestLikeForLike(RatesOf(o), k);
    var recorded := Recorded(k, best, now);
    var rows := [CheckRow(j.id, best, now)];
    match KindOf(cfg, j, o, now)
    case Closing => Closed(j, o.delivery.ended, now)
    case Unresolved =>
      Outcome(k.(nextCheckAt := Some(now + CadenceHours(TimeUntil(j.terms.deadline, now)) * HOUR)), [], [], false)
    case SourceRaised => Outcome(k, [], [], true)
    case ZeroPrice => Outcome(recorded, rows, [], true)
    case Quiet => Outcome(Rescheduled(recorded, o.jitter, now), rows, [], false)
    case Alert =>
      Outcome(Rescheduled(Alerted(recorded, best.value, o.delivery.drop, now), o.jitter, now), rows,
              [Mail(DropEvent(recorded, best.value), o.delivery.drop)], false)
    case Warning =>
      Outcome(Rescheduled(Warned(recorded, o.delivery.deadline, now), o.jitter, now), rows,
              [Mail(WarningEvent(cfg, recorded, o.checkUrl), o.delivery.deadline)], false)
  }

  lemma VisitByKind(cfg: Settings, j: Job, o: Oracle, now: int)
    ensures Processed(cfg, j, o, now) == ByKind(cfg, j, o, now)
  {
    hide BestLikeForLike, DropFloor, DropEvent, WarningEvent, CadenceHours, Closed;
  }

  /** A visit hands over at most one event and inserts at most one row, which
      bears the key of its job and the time of the visit. */
  lemma AtMostOneEvent(cfg: Settings, j: Job, o: Oracle, now: int)
    ensures |Processed(cfg, j, o, now).mail| <= 1 && |Processed(cfg, j, o, now).rows| <= 1
    ensures forall row :: row in Processed(cfg, j, o, now).rows ==> row.jobId == j.id && row.checkedAt == now
  {
    VisitByKind(cfg, j, o, now);
  }

  lemma VisitKeepsTerms(cfg: Settings, j: Job, o: Oracle, now: int)
    ensures Processed(cfg, j, o, now).job.terms == j.terms
    ensures ByKind(cfg, j, o, now).job.id == j.id
  {
    VisitByKind(cfg, j, o, now);
    hide Processed, BestLikeForLike, DropEvent, WarningEvent, CadenceHours, KindOf;
  }

  /** A PATCH never reaches the scheduler's own columns, nor the price, the
      dates or the name. */
  lemma {:induction false} PatchKeepsMonitoring(j: Job, patch: seq<Assign>)
    ensures var k := Patched(j, patch);
            && k == j.(hotelId := k.hotelId, terms := k.terms, status := k.status)
            && k.terms.originalPrice == j.terms.originalPrice
            && k.terms.checkOut == j.terms.checkOut
  {
    PatchWritesPatchColumns(j, patch);
  }

  // ---------------------------------------------------------------- steps

  function CheckByKind(e: Env, j: Job, o: Oracle, now: int, commits: bool): seq<Entry> {
    var k := AfterRetry(j, o);
    var best := BestLikeForLike(RatesOf(o), k);
    match KindOf(e.cfg, j, o, now)
    case ZeroPrice | Quiet | Alert | Warning =>
      if commits
      then [Checked(StoredRow(e.round, CheckRow(j.id, best, now)), best, VerdictOf(e.cfg, k, best, o))] else []
    case _ => []
  }

  function MailByKind(e: Env, j: Job, o: Oracle, now: int, commits: bool): seq<Entry> {
    var k := AfterRetry(j, o);
    var best := BestLikeForLike(RatesOf(o), k);
    var recorded := Recorded(k, best, now);
    match KindOf(e.cfg, j, o, now)
    case Closing => [Mailed(now, EndedEvent(j), o.delivery.ended, commits, k, RatesOf(o))]
    case Alert => [Mailed(now, DropEvent(recorded, best.value), o.delivery.drop, commits, k, RatesOf(o))]
    case Warning =>
      [Mailed(now, WarningEvent(e.cfg, recorded, o.checkUrl), o.delivery.deadline, commits, k, RatesOf(o))]
    case _ => []
  }

  /** A pass over a due job, told by the kind of visit. */
  lemma PassByKind(e: Env, w: World, now: int, o: Oracle, commits: bool)
    requires Due(w, now)
    ensures Apply(e, w, Pass(now, o, commits)) ==
              World(if commits then Stored(e.round, ByKind(e.cfg, w.job, o, now).job) else w.job,
                    w.plan, now,
                    w.log + (CheckByKind(e, w.job, o, now, commits) + MailByKind(e, w.job, o, now, commits)),
                    w.aborts + if commits then 0 else 1)
  {
    VisitByKind(e.cfg, w.job, o, now);
    ChecksByKind(e, w.job, o, now, commits);
    MailsByKind(e, w.job, o, now, commits);
    hide Processed, ByKind, CheckEntries, CheckByKind, MailEntries, MailByKind, Stored, BestLikeForLike;
  }

  lemma ChecksByKind(e: Env, j: Job, o: Oracle, now: int, commits: bool)
    ensures CheckEntries(e, j, o, now, commits) == CheckByKind(e, j, o, now, commits)
    ensures |CheckByKind(e, j, o, now, commits)| <= 1
  {
    VisitByKind(e.cfg, j, o, now);
    hide Processed, BestLikeForLike, VerdictOf, Recorded, Rescheduled, Alerted, Warned, DropEvent, WarningEvent, KindOf;
  }

  lemma MailsByKind(e: Env, j: Job, o: Oracle, now: int, commits: bool)
    ensures MailEntries(e, j, o, now, commits) == MailByKind(e, j, o, now, commits)
    ensures |MailByKind(e, j, o, now, commits)| <= 1
  {
    VisitByKind(e.cfg, j, o, now);
    hide Processed, BestLikeForLike, VerdictOf, Recorded, Rescheduled, Alerted, Warned, DropEvent, WarningEvent, KindOf;
  }

  /** A pass over a job that is not due only moves the clock. */
  lemma PassNotDue(e: Env, w: World, now: int, o: Oracle, commits: bool)
    requires !Due(w, now)
    ensures Apply(e, w, Pass(now, o, commits)) ==
              w.(lastPass := now, aborts := w.aborts + if commits then 0 else 1)
  {
  }

  /** The other steps leave the scheduler's columns, the price and the dates
      alone, and log nothing but a welcome. */
  lemma OtherStep(e: Env, w: World, s: Step)
    requires !s.Pass?
    ensures var w' := Apply(e, w, s);
            && w'.job == w.job.(status := w'.job.status, hotelId := w'.job.hotelId, terms := w'.job.terms,
                                nextCheckAt := w'.job.nextCheckAt)
            && w'.job.terms.originalPrice == w.job.terms.originalPrice
            && w'.job.terms.checkOut == w.job.terms.checkOut
            && w'.aborts == w.aborts && w'.lastPass == w.lastPass
            && (w'.log == w.log || exists x :: IsWelcome(x) && w'.log == w.log + [x])
  {
    if s.Patch? {
      PatchKeepsMonitoring(w.job, s.patch);
      if PatchActivates(w.job, s.patch) {
        var x := Mailed(s.when, MonitoredEvent(Patched(w.job, s.patch)), s.accepted, true, Patched(w.job, s.patch), []);
        assert IsWelcome(x) && Apply(e, w, s).log == w.log + [x];
      }
    }
  }

  lemma {:induction false} OtherStepPick(e: Env, w: World, s: Step, p: Entry -> bool)
    requires !s.Pass? && forall x :: IsWelcome(x) ==> !p(x)
    ensures Pick(Apply(e, w, s).log, p) == Pick(w.log, p)
  {
    OtherStep(e, w, s);
    if Apply(e, w, s).log != w.log {
      var x :| IsWelcome(x) && Apply(e, w, s).log == w.log + [x];
      PickAppend(w.log, [x], p);
      PickOne([x], p);
    }
  }

  lemma OnlyMail(e: Env, j: Job, o: Oracle, now: int, commits: bool)
    ensures forall x :: x in MailByKind(e, j, o, now, commits) ==> x.Mailed?
    ensures forall x :: x in CheckByKind(e, j, o, now, commits) ==> x.Checked? && commits
  {
    hide BestLikeForLike, KindOf;
  }

  // ---------------------------------------------------------------- what is added

  /** What a step adds to the log. */
  function Logged(e: Env, w: World, s: Step): seq<Entry> {
    match s
    case Pass(now, o, commits) =>
      if Due(w, now) then CheckByKind(e, w.job, o, now, commits) + MailByKind(e, w.job, o, now, commits) else []
    case Patch(patch, accepted, when) =>
      if PatchActivates(w.job, patch)
      then [Mailed(when, MonitoredEvent(Patched(w.job, patch)), accepted, true, Patched(w.job, patch), [])] else []
    case _ => []
  }

  lemma LogGrows(e: Env, w: World, s: Step)
    ensures Apply(e, w, s).log == w.log + Logged(e, w, s)
  {
    hide CheckByKind, MailByKind, ByKind, InPass, Updated;
    if s.Pass? && Due(w, s.now) { PassByKind(e, w, s.now, s.o, s.commits); }
  }

  /** What a run adds to the log. */
  function Added(e: Env, w: World, steps: seq<Step>): seq<Entry> {
    if steps == [] then []
    else
      var front := steps[..|steps| - 1];
      Added(e, w, front) + Logged(e, Exec(e, w, front), steps[|steps| - 1])
  }

  lemma {:induction false} RunAdds(e: Env, w: World, steps: seq<Step>)
    ensures Exec(e, w, steps).log == w.log + Added(e, w, steps)
  {
    if steps != [] {
      RunAdds(e, w, steps[..|steps| - 1]);
      LogGrows(e, Exec(e, w, steps[..|steps| - 1]), steps[|steps| - 1]);
      hide Apply, Logged;
    }
  }

  lemma {:induction false} AddedGrows(e: Env, w: World, steps: seq<Step>, i: nat)
    requires i <= |steps|
    ensures Added(e, w, steps[..i]) <= Added(e, w, steps)
    decreases |steps|
  {
    if i < |steps| {
      var front := steps[..|steps| - 1];
      AddedGrows(e, w, front, i);
      assert front[..i] == steps[..i];
    } else {
      assert steps[..i] == steps;
    }
  }

  lemma {:induction false} PickNothing(log: seq<Entry>, p: Entry -> bool)
    requires forall x :: x in log ==> !p(x)
    ensures Pick(log, p) == []
  {
    if log != [] { PickNothing(log[..|log| - 1], p); }
  }

  /** A check is logged only by a visit whose pass is kept. */
  lemma {:induction false} NewChecks(e: Env, w: World, s: Step)
    ensures forall x :: x in Apply(e, w, s).log && x.Checked? && x !in w.log ==>
              s.Pass? && Due(w, s.now) && s.commits && x in CheckByKind(e, w.job, s.o, s.now, s.commits)
  {
    hide CheckByKind, MailByKind, ByKind, BestLikeForLike;
    if s.Pass? {
      if Due(w, s.now) {
        PassByKind(e, w, s.now, s.o, s.commits);
        OnlyMail(e, w.job, s.o, s.now, s.commits);
      } else {
        PassNotDue(e, w, s.now, s.o, s.commits);
      }
    } else {
      OtherStep(e, w, s);
    }
    hide Apply;
  }

  /** Keep a single entry if it satisfies `p`. */
  function Only(xs: seq<Entry>, p: Entry -> bool): seq<Entry> {
    if xs != [] && p(xs[0]) then [xs[0]] else []
  }

  /** What a visit adds to any selection from the log. */
  lemma {:induction false} VisitPick(e: Env, w: World, now: int, o: Oracle, commits: bool, p: Entry -> bool)
    requires Due(w, now)
    ensures Pick(Apply(e, w, Pass(now, o, commits)).log, p)
         == Pick(w.log, p) + Only(CheckByKind(e, w.job, o, now, commits), p)
                           + Only(MailByKind(e, w.job, o, now, commits), p)
  {
    hide BestLikeForLike, MailByKind, CheckByKind, Pick, KindOf, Stored, ByKind, Apply, Due;
    LogGrows(e, w, Pass(now, o, commits));
    var checks, mails := CheckByKind(e, w.job, o, now, commits), MailByKind(e, w.job, o, now, commits);
    ChecksByKind(e, w.job, o, now, commits);
    MailsByKind(e, w.job, o, now, commits);
    PickStep(w.log, checks, mails, p);
  }

  lemma {:induction false} PickNarrower(log: seq<Entry>, p: Entry -> bool, q: Entry -> bool)
    requires forall x :: p(x) ==> q(x)
    ensures |Pick(log, p)| <= |Pick(log, q)|
  {
    if log != [] { PickNarrower(log[..|log| - 1], p, q); }
  }

  /** Does this kind of visit insert a history row? */
  predicate RecordsRow(kind: Kind) {
    kind.ZeroPrice? || kind.Quiet? || kind.Alert? || kind.Warning?
  }

  /** The rate a visit finds best. */
  function BestOf(j: Job, o: Oracle): Option<Candidate> {
    BestLikeForLike(RatesOf(o), AfterRetry(j, o))
  }

  /** Column by column, what a visit leaves behind. */
  lemma VisitMarks(cfg: Settings, j: Job, o: Oracle, now: int)
    ensures var kind, k := KindOf(cfg, j, o, now), ByKind(cfg, j, o, now).job;
            var alerted := kind.Alert? && o.delivery.drop;
            var warned := kind.Warning? && o.delivery.deadline;
            && k.dropAlertSentAt == (if alerted then Some(now) else j.dropAlertSentAt)
            && k.lowestAlertedPrice == (if alerted then Some(BestOf(j, o).value.price) else j.lowestAlertedPrice)
            && k.deadlineAlertSentAt == (if warned then Some(now) else j.deadlineAlertSentAt)
            && k.status == (if kind.Closing? && o.delivery.ended then Expired
                            else if alerted then DropFound
                            else if warned then DeadlineSoon
                            else j.status)
            && k.terms == j.terms
  {
    hide BestLikeForLike, DropFloor, DropEvent, WarningEvent, CadenceHours;
  }

  lemma VisitHistory(cfg: Settings, j: Job, o: Oracle, now: int)
    ensures var kind, k, best := KindOf(cfg, j, o, now), ByKind(cfg, j, o, now).job, BestOf(j, o);
            && k.checkCount == j.checkCount + (if RecordsRow(kind) then 1 else 0)
            && k.lastCheckedAt == (if RecordsRow(kind) then Some(now) else j.lastCheckedAt)
            && k.currentBestPrice == (if RecordsRow(kind) && best.Some?
                                      then Some(best.value.price) else j.currentBestPrice)
            && k.currentBestOta == (if RecordsRow(kind) && best.Some? then Some(best.value.ota) else j.currentBestOta)
            && k.currentBestUrl == (if RecordsRow(kind) && best.Some? then best.value.link else j.currentBestUrl)
            && k.lowestSeenPrice == (if RecordsRow(kind) && best.Some?
                                        && (j.lowestSeenPrice.None? || best.value.price < j.lowestSeenPrice.value)
                                     then Some(best.value.price) else j.lowestSeenPrice)
  {
    hide BestLikeForLike, DropFloor, DropEvent, WarningEvent, CadenceHours;
  }

  lemma VisitSchedule(cfg: Settings, j: Job, o: Oracle, now: int)
    ensures var kind, k := KindOf(cfg, j, o, now), ByKind(cfg, j, o, now).job;
            var cadence := CadenceHours(TimeUntil(j.terms.deadline, now)) * HOUR;
            k.nextCheckAt == match kind
                             case Closing => if o.delivery.ended then None else Some(now + HOUR)
                             case Unresolved => Some(now + cadence)
                             case SourceRaised | ZeroPrice => j.nextCheckAt
                             case _ => Some(now + cadence + o.jitter * SECOND)
  {
    hide BestLikeForLike, DropFloor, DropEvent, WarningEvent, CadenceHours;
  }

  // ---------------------------------------------------------------- column precision

  /** The row is as the database keeps it. */
  predicate AtPrecision(e: Env, j: Job) {
    j == Stored(e.round, j)
  }

  /** Two decimals, halves rounded up. */
  function HalfUp(x: real): real {
    (x * 100.0 + 0.5).Floor as real / 100.0
  }

  lemma HalfUpTwice(x: real)
    ensures HalfUp(HalfUp(x)) == HalfUp(x)
  {
    var n := (x * 100.0 + 0.5).Floor;
    assert HalfUp(x) * 100.0 == n as real;
    assert (n as real + 0.5).Floor == n;
  }

  /** The assumptions on the money columns are met by two-decimal rounding, and
      by columns that keep every digit. */
  lemma {:induction false} ColumnsExist(cfg: Settings)
    ensures ValidEnv(Env(cfg, HalfUp, 0.005))
    ensures ValidEnv(Env(cfg, (x: real) => x, 0.0))
  {
    var e := Env(cfg, HalfUp, 0.005);
    forall x: real
      ensures Rounded(e, Rounded(e, x)) == Rounded(e, x)
      ensures x - 0.005 <= Rounded(e, x) <= x + 0.005
    {
      HalfUpTwice(x);
    }
    forall x: real, y: real | x <= y
      ensures Rounded(e, x) <= Rounded(e, y)
    {
      assert (x * 100.0 + 0.5).Floor <= (y * 100.0 + 0.5).Floor;
    }
  }

  lemma RoundTwice(e: Env, p: Option<real>)
    requires ValidEnv(e)
    ensures RoundOption(e.round, RoundOption(e.round, p)) == RoundOption(e.round, p)
  {
    if p.Some? { assert Rounded(e, Rounded(e, p.value)) == Rounded(e, p.value); }
  }

  lemma StoredIsAtPrecision(e: Env, j: Job)
    requires ValidEnv(e)
    ensures AtPrecision(e, Stored(e.round, j))
  {
    RoundTwice(e, Some(j.terms.originalPrice));
    RoundTwice(e, j.currentBestPrice);
    RoundTwice(e, j.lowestSeenPrice);
    RoundTwice(e, j.lowestAlertedPrice);
  }

  lemma StepKeepsPrecision(e: Env, w: World, s: Step)
    requires ValidEnv(e) && AtPrecision(e, w.job)
    ensures AtPrecision(e, Apply(e, w, s).job)
    ensures Apply(e, w, s).job.terms.originalPrice == w.job.terms.originalPrice
    ensures Apply(e, w, s).job.terms.checkOut == w.job.terms.checkOut
  {
    if s.Pass? {
      if Due(w, s.now) {
        PassByKind(e, w, s.now, s.o, s.commits);
        VisitByKind(e.cfg, w.job, s.o, s.now);
        VisitKeepsTerms(e.cfg, w.job, s.o, s.now);
        StoredIsAtPrecision(e, ByKind(e.cfg, w.job, s.o, s.now).job);
        hide Processed, ByKind, InPass, Apply, CheckByKind, MailByKind;
      } else {
        PassNotDue(e, w, s.now, s.o, s.commits);
      }
    } else {
      OtherStep(e, w, s);
      hide Apply;
    }
  }

  // ---------------------------------------------------------------- patches that leave the clock alone

  /** The step sets neither status nor deadline by hand. */
  predicate LeavesClock(s: Step) {
    s.Patch? ==> forall i :: 0 <= i < |s.patch| ==> !s.patch[i].SetStatus? && !s.patch[i].SetDeadline?
  }

  lemma {:induction false} ClockIsLeft(j: Job, patch: seq<Assign>)
    requires forall i :: 0 <= i < |patch| ==> !patch[i].SetStatus? && !patch[i].SetDeadline?
    ensures Patched(j, patch).status == j.status && Patched(j, patch).terms.deadline == j.terms.deadline
    ensures (forall i :: 0 <= i < |patch| ==> !patch[i].SetHotelId?) ==> Patched(j, patch).hotelId == j.hotelId
  {
    if patch != [] { ClockIsLeft(j, patch[..|patch| - 1]); }
  }

  /** Such a PATCH on a job that is not pending leaves status, schedule, deadline
      and log alone. */
  lemma {:induction false} ClockStep(e: Env, w: World, s: Step)
    requires s.Patch? && LeavesClock(s) && !Pending(w.job.status)
    ensures var w' := Apply(e, w, s);
            && w'.job == w.job.(hotelId := w'.job.hotelId, terms := w'.job.terms)
            && w'.job.terms.deadline == w.job.terms.deadline
            && w'.job.terms.originalPrice == w.job.terms.originalPrice
            && w'.job.terms.checkOut == w.job.terms.checkOut
            && w'.log == w.log && w'.plan == w.plan && w'.lastPass == w.lastPass
            && ((forall i :: 0 <= i < |s.patch| ==> !s.patch[i].SetHotelId?) ==> w'.job.hotelId == w.job.hotelId)
  {
    ClockIsLeft(w.job, s.patch);
    PatchKeepsMonitoring(w.job, s.patch);
    hide Patched;
    assert w.log + [] == w.log;
  }
}
