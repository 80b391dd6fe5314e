/** A booking on watch: one step of a run in which the scheduler gets through
    often enough. What a look inside the warning window does, and that nothing
    else matters, failed passes included. */
module Watch {
  import opened Models
  import opened Matching
  import opened Worker
  import opened Protocol
  import opened ProtocolLaws
  import opened History
  import opened Closing
  import PassOrder

  // ---------------------------------------------------------------- the window

  function WindowLength(e: Env): int { e.cfg.alertHours * HOUR }

  /** The cadence that matters for a window: the one inside it, or the longer one
      before it, if the window begins within that much of a cadence boundary. */
  function Slot(window: int): int {
    if window + 6 * HOUR <= 3 * DAY then 6 * HOUR
    else if window + 12 * HOUR <= 14 * DAY then 12 * HOUR
    else 24 * HOUR
  }

  /** What one check may use up of the window. */
  function Stride(e: Env, gap: int): int { Slot(WindowLength(e)) + JITTER + gap }

  /** A check with the window or less left to the deadline. */
  function InWindow(deadline: int, window: int): Entry -> bool {
    (x: Entry) => x.Checked? && deadline - window <= x.row.checkedAt < deadline
  }

  /** A warning, or a warning or a drop alert, refused by the mail service inside
      the window, in a kept pass. */
  function RefusedWarning(deadline: int, window: int): Entry -> bool {
    (x: Entry) => x.Mailed? && x.event.DeadlineApproaching? && !x.delivered && x.committed
                  && deadline - window <= x.at < deadline
  }

  function RefusedNews(deadline: int, window: int): Entry -> bool {
    (x: Entry) => x.Mailed? && (x.event.DeadlineApproaching? || x.event.PriceDropFound?) && !x.delivered && x.committed
                  && deadline - window <= x.at < deadline
  }

  function WindowChecks(e: Env, log: seq<Entry>, deadline: int): seq<Entry> {
    Pick(log, InWindow(deadline, WindowLength(e)))
  }

  function Refusals(e: Env, log: seq<Entry>, deadline: int): seq<Entry> {
    Pick(log, RefusedWarning(deadline, WindowLength(e)))
  }

  function RefusedMail(e: Env, log: seq<Entry>, deadline: int): seq<Entry> {
    Pick(log, RefusedNews(deadline, WindowLength(e)))
  }

  /** No check in the window found a drop the user could be sent to. */
  predicate NothingReachable(e: Env, log: seq<Entry>, deadline: int) {
    forall x :: x in log && InWindow(deadline, WindowLength(e))(x) ==> x.verdict.Flat? || x.verdict.HeldBack?
  }

  /** None found a drop it could not even compose an alert for. */
  predicate NothingUnpriceable(e: Env, log: seq<Entry>, deadline: int) {
    forall x :: x in log && InWindow(deadline, WindowLength(e))(x) ==> !x.verdict.Unpriceable?
  }

  // ---------------------------------------------------------------- attended runs

  /** A pass that serves the booking: unless it finds nothing to do, the price
      source answers, and the pass is kept. */
  predicate Serves(w: World, s: Step) {
    s.Pass? && (Due(w, s.now) ==> s.commits && s.o.rates.Rates?)
  }

  /** When the booking was last served. */
  function LastServed(e: Env, w: World, steps: seq<Step>): int {
    if steps == [] then w.lastPass
    else
      var front, s := steps[..|steps| - 1], steps[|steps| - 1];
      if Serves(Exec(e, w, front), s) then s.now else LastServed(e, w, front)
  }

  /** A step of a run in which every pass comes at most `gap` after the last one
      that served the booking, whatever fails in between, the plan keeps running,
      and nobody cancels, re-labels, or moves deadline or hotel. */
  predicate Attended(w: World, s: Step, served: int, gap: int) {
    match s
    case Pass(now, _, _) => w.lastPass <= now <= served + gap
    case Patch(patch, _, _) => LeavesClock(s) && forall i :: 0 <= i < |patch| ==> !patch[i].SetHotelId?
    case Cancel => false
    case Plan(plan) => plan in {Trialing, Paying}
  }

  predicate AttendedRun(e: Env, w: World, steps: seq<Step>, gap: int) {
    forall i :: 0 <= i < |steps| ==> Attended(Exec(e, w, steps[..i]), steps[i], LastServed(e, w, steps[..i]), gap)
  }

  lemma {:induction false} AttendedUpTo(e: Env, w: World, steps: seq<Step>, gap: int, i: nat)
    requires AttendedRun(e, w, steps, gap) && i < |steps|
    ensures AttendedRun(e, w, steps[..i], gap)
    ensures Attended(Exec(e, w, steps[..i]), steps[i], LastServed(e, w, steps[..i]), gap)
  {
    hide Attended, Exec, LastServed;
    assert Attended(Exec(e, w, steps[..i]), steps[i], LastServed(e, w, steps[..i]), gap);
    forall k | 0 <= k < i
      ensures Attended(Exec(e, w, steps[..i][..k]), steps[..i][k], LastServed(e, w, steps[..i][..k]), gap)
    {
      assert steps[..i][..k] == steps[..k];
      assert Attended(Exec(e, w, steps[..k]), steps[k], LastServed(e, w, steps[..k]), gap);
    }
  }

  // ---------------------------------------------------------------- the watch

  predicate DeadlineIs(w: World, deadline: int) {
    w.job.terms.deadline.Some? && w.job.terms.deadline.value.at == deadline
  }

  /** A resolved, monitored and scheduled booking, whose deadline is not after
      the day of check-out begins. */
  predicate Watched(w: World, deadline: int) {
    && w.plan in {Trialing, Paying} && Monitored(w.job.status) && Truthy(w.job.hotelId) && w.job.nextCheckAt.Some?
    && DeadlineIs(w, deadline) && deadline <= w.job.terms.checkOut * DAY
  }

  /** The last instant at which a pass can come, or has come, without a look, if
      the booking was served last at `served`. */
  function LastUnseen(w: World, served: int): int
    requires w.job.nextCheckAt.Some?
  {
    if served < w.job.nextCheckAt.value then w.job.nextCheckAt.value - 1 else served
  }

  /** The latest instant of the next look. */
  function NextLook(w: World, served: int, gap: int): int
    requires w.job.nextCheckAt.Some?
  {
    LastUnseen(w, served) + gap
  }

  /** How much of the window is sure to be left to the checks: all but a stride,
      or what is left at the latest instant of the next look. */
  function RoomFor(e: Env, deadline: int, gap: int, look: int): int {
    var full := WindowLength(e) - Stride(e, gap) + 1;
    if deadline - look < full then deadline - look else full
  }

  function Room(e: Env, w: World, deadline: int, gap: int): int
    requires w.job.nextCheckAt.Some?
  {
    RoomFor(e, deadline, gap, NextLook(w, w.lastPass, gap))
  }

  /** Before the deadline on watch, and each check has used up a stride at most;
      after it, they have used up all the room. `log` is what has been added. */
  predicate GuardInv(e: Env, w: World, log: seq<Entry>, deadline: int, gap: int, room: int, served: int) {
    var xs := WindowChecks(e, log, deadline);
    && !Pending(w.job.status) && DeadlineIs(w, deadline) && served <= w.lastPass
    && (xs != [] ==> room <= deadline - CheckTime(xs[0]))
    && if w.lastPass < deadline
       then Watched(w, deadline) && room - |xs| * Stride(e, gap) <= deadline - NextLook(w, served, gap)
       else room <= |xs| * Stride(e, gap)
  }

  /** The user has been warned in time, or every window check tried. */
  predicate Tried(e: Env, w: World, log: seq<Entry>, deadline: int) {
    if w.job.deadlineAlertSentAt.Some? then exists x :: x in log && KeptWarning(x) && x.at < deadline
    else |WindowChecks(e, log, deadline)| <= |Refusals(e, log, deadline)|
  }

  predicate Untold(j: Job) {
    j.deadlineAlertSentAt.None? && j.dropAlertSentAt.None?
  }

  /** The user has been told in time of the deadline or of a drop, or every window
      check tried. */
  predicate TriedToTell(e: Env, w: World, log: seq<Entry>, deadline: int) {
    if !Untold(w.job) then exists x :: x in log && (KeptWarning(x) || KeptDrop(x)) && x.at < deadline
    else |WindowChecks(e, log, deadline)| <= |RefusedMail(e, log, deadline)|
  }

  // ---------------------------------------------------------------- one look

  /** From one look to the next: inside the window it costs a stride at most, and
      a look before the window leaves all but one. `spent` is used up already. */
  lemma NextLookIsSoon(e: Env, deadline: int, gap: int, room: int, spent: int, now: int, next: int)
    requires 0 <= gap && 0 <= spent && room <= WindowLength(e) - Stride(e, gap) + 1
    requires now < deadline && room - spent <= deadline - now
    requires next <= now + CadenceHours(Some(deadline - now)) * HOUR + JITTER
    ensures var look := (if now < next then next - 1 else now) + gap;
            if deadline - now <= WindowLength(e) then room - (spent + Stride(e, gap)) <= deadline - look
            else room - spent <= deadline - look
  {
  }

  /** Before the deadline every visit that has a hotel and gets an answer checks,
      and leaves the next check within the cadence and a jitter. */
  lemma {:induction false} AnsweredVisit(e: Env, w: World, now: int, o: Oracle, deadline: int)
    requires Due(w, now) && Truthy(AfterRetry(w.job, o).hotelId) && o.rates.Rates?
    requires DeadlineIs(w, deadline) && deadline <= w.job.terms.checkOut * DAY && now < deadline
    ensures RecordsRow(KindOf(e.cfg, w.job, o, now))
    ensures var k := ByKind(e.cfg, w.job, o, now).job;
            && Truthy(k.hotelId) && Monitored(k.status)
            && k.nextCheckAt.Some?
            && k.nextCheckAt.value <= now + CadenceHours(Some(deadline - now)) * HOUR + JITTER
  {
    hide BestLikeForLike, DropFloor, ByKind, AfterRetry;
    assert !Over(w.job, now) by { assert DayOf(now) < w.job.terms.checkOut; }
    VisitSchedule(e.cfg, w.job, o, now);
    VisitMarks(e.cfg, w.job, o, now);
    KeepsHotel(e.cfg, w.job, o, now);
  }

  lemma KeepsHotel(cfg: Settings, j: Job, o: Oracle, now: int)
    ensures ByKind(cfg, j, o, now).job.hotelId
         == if KindOf(cfg, j, o, now).Closing? then j.hotelId else AfterRetry(j, o).hotelId
  {
    hide BestLikeForLike, DropFloor, KindOf, DropEvent, WarningEvent, CadenceHours, AfterRetry;
  }

  /** If it is kept, the row it leaves is on watch. */
  lemma {:induction false} LookSetsWatch(e: Env, w: World, now: int, o: Oracle, deadline: int)
    requires ValidEnv(e) && AtPrecision(e, w.job)
    requires Due(w, now) && Truthy(AfterRetry(w.job, o).hotelId) && o.rates.Rates?
    requires DeadlineIs(w, deadline) && deadline <= w.job.terms.checkOut * DAY && now < deadline
    ensures var w' := Apply(e, w, Pass(now, o, true));
            && Watched(w', deadline) && AtPrecision(e, w'.job) && w'.lastPass == now
            && w'.job.nextCheckAt.value <= now + CadenceHours(Some(deadline - now)) * HOUR + JITTER
  {
    hide BestLikeForLike, DropFloor, ByKind, KindOf, CheckByKind, MailByKind, AfterRetry, CadenceHours, InPass;
    AnsweredVisit(e, w, now, o, deadline);
    StepKeepsPrecision(e, w, Pass(now, o, true));
    PassByKind(e, w, now, o, true);
    VisitMarks(e.cfg, w.job, o, now);
    hide Apply, AtPrecision;
  }

  /** What a served look adds to the window's checks and refusals. */
  lemma {:induction false} LookInWindow(e: Env, w: World, log: seq<Entry>, now: int, o: Oracle, deadline: int)
    requires Watched(w, deadline) && Due(w, now) && now < deadline && o.rates.Rates?
    ensures var log', checks := log + Logged(e, w, Pass(now, o, true)), CheckByKind(e, w.job, o, now, true);
            var kind, within := KindOf(e.cfg, w.job, o, now), deadline - now <= WindowLength(e);
            var warning := kind.Warning? && !o.delivery.deadline;
            var alert := kind.Alert? && !o.delivery.drop;
            && |checks| == 1 && CheckTime(checks[0]) == now && checks[0] in log'
            && (within ==> InWindow(deadline, WindowLength(e))(checks[0]))
            && WindowChecks(e, log', deadline) == WindowChecks(e, log, deadline) + (if within then checks else [])
            && |Refusals(e, log', deadline)| == |Refusals(e, log, deadline)| + (if within && warning then 1 else 0)
            && |RefusedMail(e, log', deadline)|
               == |RefusedMail(e, log, deadline)| + (if within && (warning || alert) then 1 else 0)
  {
    hide BestLikeForLike, Pick, KindOf, Recorded, VerdictOf, Due, SawMovement, WindowLength, CheckByKind;
    var checks, mails := CheckByKind(e, w.job, o, now, true), MailByKind(e, w.job, o, now, true);
    AnsweredVisit(e, w, now, o, deadline);
    hide Watched;
    CheckRecordsBest(e, w.job, o, now, true);
    OnlyMail(e, w.job, o, now, true);
    PickStep(log, checks, mails, InWindow(deadline, WindowLength(e)));
    PickStep(log, checks, mails, RefusedWarning(deadline, WindowLength(e)));
    PickStep(log, checks, mails, RefusedNews(deadline, WindowLength(e)));
    assert checks[0] in checks && checks == [checks[0]];
    assert mails != [] ==> mails[0] in mails && mails == [mails[0]];
  }

  /** In the window, with no reachable drop and no warning out yet, a look warns. */
  lemma {:induction false} LookWarns(e: Env, w: World, now: int, o: Oracle, deadline: int)
    requires Watched(w, deadline) && now < deadline && o.rates.Rates?
    requires deadline - now <= WindowLength(e) && w.job.deadlineAlertSentAt.None?
    requires var xs := CheckByKind(e, w.job, o, now, true);
             xs != [] && xs[0].Checked? && (xs[0].verdict.Flat? || xs[0].verdict.HeldBack?)
    ensures KindOf(e.cfg, w.job, o, now).Warning?
  {
    hide BestLikeForLike, DropFloor;
    assert AfterRetry(w.job, o) == w.job;
    assert !Over(w.job, now) by { assert DayOf(now) < w.job.terms.checkOut; }
  }

  /** In the window, with the user told of nothing yet, a look alerts or warns. */
  lemma {:induction false} LookSpeaks(e: Env, w: World, now: int, o: Oracle, deadline: int)
    requires Watched(w, deadline) && now < deadline && o.rates.Rates?
    requires deadline - now <= WindowLength(e) && Untold(w.job)
    requires var xs := CheckByKind(e, w.job, o, now, true); xs != [] && xs[0].Checked? && !xs[0].verdict.Unpriceable?
    ensures KindOf(e.cfg, w.job, o, now).Warning? || KindOf(e.cfg, w.job, o, now).Alert?
  {
    hide BestLikeForLike, DropFloor;
    assert AfterRetry(w.job, o) == w.job;
    assert !Over(w.job, now) by { assert DayOf(now) < w.job.terms.checkOut; }
  }

  // ---------------------------------------------------------------- everything else

  /** A pass that looks at the booking before its deadline, and gets through. */
  predicate Looks(w: World, s: Step, deadline: int) {
    s.Pass? && s.now < deadline && Due(w, s.now) && s.commits && s.o.rates.Rates?
  }

  /** Nothing in there concerns the window. */
  predicate Irrelevant(e: Env, log: seq<Entry>, deadline: int) {
    forall x :: x in log ==> !InWindow(deadline, WindowLength(e))(x) && !RefusedNews(deadline, WindowLength(e))(x)
  }

  lemma {:induction false} AddsNothing(e: Env, log: seq<Entry>, more: seq<Entry>, deadline: int)
    requires Irrelevant(e, more, deadline)
    ensures WindowChecks(e, log + more, deadline) == WindowChecks(e, log, deadline)
    ensures Refusals(e, log + more, deadline) == Refusals(e, log, deadline)
    ensures RefusedMail(e, log + more, deadline) == RefusedMail(e, log, deadline)
  {
    var window := WindowLength(e);
    PickAppend(log, more, InWindow(deadline, window));
    PickAppend(log, more, RefusedWarning(deadline, window));
    PickAppend(log, more, RefusedNews(deadline, window));
    PickNothing(more, InWindow(deadline, window));
    PickNothing(more, RefusedWarning(deadline, window));
    PickNothing(more, RefusedNews(deadline, window));
    hide Pick;
  }

  /** A failed look leaves the row as it was and nothing on record. */
  lemma {:induction false} FailedLook(e: Env, w: World, now: int, o: Oracle, commits: bool, deadline: int)
    requires AtPrecision(e, w.job) && Watched(w, deadline) && Due(w, now) && now < deadline
    requires !(commits && o.rates.Rates?)
    ensures Apply(e, w, Pass(now, o, commits)).job == w.job
    ensures forall x :: x in Logged(e, w, Pass(now, o, commits)) ==> x.Mailed? && !x.committed
  {
    hide BestLikeForLike, KindOf, ByKind, Processed, AfterRetry, Recorded;
    PassByKind(e, w, now, o, commits);
    OnlyMail(e, w.job, o, now, commits);
    MailIsOfItsPass(e, w.job, o, now, commits);
    if commits {
      assert !Over(w.job, now) by { assert DayOf(now) < w.job.terms.checkOut; }
      SourceRaises(e, w.job, o, now);
      VisitByKind(e.cfg, w.job, o, now);
      PassOrder.FailedSourceLeavesJobDue(e.cfg, e.round, w.job, o, now);
      KeepsHotel(e.cfg, w.job, o, now);
    }
    hide Apply, CheckByKind, MailByKind;
  }

  lemma SourceRaises(e: Env, j: Job, o: Oracle, now: int)
    requires !Over(j, now) && Truthy(j.hotelId) && o.rates.CheckRaised?
    ensures AfterRetry(j, o) == j
    ensures CheckByKind(e, j, o, now, true) == [] && MailByKind(e, j, o, now, true) == []
  {
    hide BestLikeForLike;
  }

  lemma MailIsOfItsPass(e: Env, j: Job, o: Oracle, now: int, commits: bool)
    ensures forall x :: x in MailByKind(e, j, o, now, commits) ==> x.Mailed? && x.at == now && x.committed == commits
  {
    hide BestLikeForLike, KindOf, AfterRetry, SawMovement;
  }

  /** A pass that comes too late keeps the marks and concerns the window no more. */
  lemma {:induction false} LatePass(e: Env, w: World, now: int, o: Oracle, commits: bool, deadline: int)
    requires DeadlineIs(w, deadline) && deadline <= now && !Pending(w.job.status)
    ensures var w' := Apply(e, w, Pass(now, o, commits));
            && DeadlineIs(w', deadline) && !Pending(w'.job.status)
            && w'.job.deadlineAlertSentAt == w.job.deadlineAlertSentAt
            && w'.job.dropAlertSentAt == w.job.dropAlertSentAt
    ensures Irrelevant(e, Logged(e, w, Pass(now, o, commits)), deadline)
  {
    hide BestLikeForLike, AfterRetry, ByKind, CheckByKind, MailByKind, WindowLength, InPass;
    if Due(w, now) {
      PassByKind(e, w, now, o, commits);
      VisitMarks(e.cfg, w.job, o, now);
      OnlyMail(e, w.job, o, now, commits);
      MailIsOfItsPass(e, w.job, o, now, commits);
      CheckRecordsBest(e, w.job, o, now, commits);
      assert KindOf(e.cfg, w.job, o, now).Closing?;
    } else {
      PassNotDue(e, w, now, o, commits);
    }
    hide Apply, KindOf;
  }

  /** What every step but a look leaves alone. */
  lemma {:induction false} OtherwiseNothing(e: Env, w: World, s: Step, deadline: int, served: int, gap: int)
    requires AtPrecision(e, w.job) && !Pending(w.job.status) && DeadlineIs(w, deadline)
    requires w.lastPass < deadline ==> Watched(w, deadline)
    requires Attended(w, s, served, gap) && !Looks(w, s, deadline)
    ensures var w' := Apply(e, w, s);
            && !Pending(w'.job.status) && DeadlineIs(w', deadline)
            && w'.lastPass == (if s.Pass? then s.now else w.lastPass)
            && w'.job.deadlineAlertSentAt == w.job.deadlineAlertSentAt
            && w'.job.dropAlertSentAt == w.job.dropAlertSentAt
            && (w'.lastPass < deadline ==> Watched(w', deadline) && w'.job.nextCheckAt == w.job.nextCheckAt)
    ensures Irrelevant(e, Logged(e, w, s), deadline)
  {
    LogGrows(e, w, s);
    match s
    case Pass(now, o, commits) =>
      if deadline <= now {
        LatePass(e, w, now, o, commits, deadline);
        hide Logged;
        PassMovesClock(e, w, now, o, commits);
      } else if Due(w, now) {
        FailedLook(e, w, now, o, commits, deadline);
        hide Logged;
        PassMovesClock(e, w, now, o, commits);
      } else {
        PassNotDue(e, w, now, o, commits);
        hide CheckByKind, MailByKind;
      }
      hide Apply;
    case Patch(_, _, _) =>
      ClockStep(e, w, s);
      assert Logged(e, w, s) == [] by { assert |w.log + Logged(e, w, s)| == |w.log|; }
      hide Apply, Logged;
    case Plan(_) =>
  }

  lemma PassMovesClock(e: Env, w: World, now: int, o: Oracle, commits: bool)
    ensures var w' := Apply(e, w, Pass(now, o, commits)); w'.lastPass == now && w'.plan == w.plan
  {
    hide InPass, CheckEntries, MailEntries;
  }

  // ---------------------------------------------------------------- one step

  lemma {:induction false} LookKeepsGuard(e: Env, w: World, log: seq<Entry>, s: Step, deadline: int, gap: int,
                                          room: int, served: int)
    requires ValidEnv(e) && AtPrecision(e, w.job) && 0 <= gap && room <= WindowLength(e) - Stride(e, gap) + 1
    requires GuardInv(e, w, log, deadline, gap, room, served) && Attended(w, s, served, gap) && Looks(w, s, deadline)
    ensures GuardInv(e, Apply(e, w, s), log + Logged(e, w, s), deadline, gap, room, s.now)
  {
    hide WindowChecks, Refusals, RefusedMail, WindowLength, Stride, CadenceHours, Logged, Apply, KindOf,
         InWindow, ValidEnv, CheckByKind;
    var now, o, xs := s.now, s.o, WindowChecks(e, log, deadline);
    var w', log' := Apply(e, w, s), log + Logged(e, w, s);
    LookSetsWatch(e, w, now, o, deadline);
    LookInWindow(e, w, log, now, o, deadline);
    var n, stride := |xs|, Stride(e, gap);
    StrideIsPositive(e, gap, n);
    NextLookIsSoon(e, deadline, gap, room, n * stride, now, w'.job.nextCheckAt.value);
    hide AtPrecision, Due, CheckByKind;
    if deadline - now <= WindowLength(e) {
      var x := CheckByKind(e, w.job, o, now, true)[0];
      assert WindowChecks(e, log', deadline) == xs + [x];
      assert (n + 1) * stride == n * stride + stride;
    }
  }

  lemma StrideIsPositive(e: Env, gap: int, n: nat)
    requires 0 <= gap
    ensures 0 < Stride(e, gap) && 0 <= n * Stride(e, gap)
  {
  }

  lemma {:induction false} StepKeepsGuard(e: Env, w: World, log: seq<Entry>, s: Step, deadline: int, gap: int,
                                          room: int, served: int)
    requires ValidEnv(e) && AtPrecision(e, w.job) && 0 <= gap && room <= WindowLength(e) - Stride(e, gap) + 1
    requires GuardInv(e, w, log, deadline, gap, room, served) && Attended(w, s, served, gap)
    ensures GuardInv(e, Apply(e, w, s), log + Logged(e, w, s), deadline, gap, room,
                     if Serves(w, s) then s.now else served)
  {
    hide WindowChecks, WindowLength, Stride, CadenceHours, Logged, Apply, LeavesClock;
    if Looks(w, s, deadline) {
      LookKeepsGuard(e, w, log, s, deadline, gap, room, served);
    } else {
      OtherwiseNothing(e, w, s, deadline, served, gap);
      AddsNothing(e, log, Logged(e, w, s), deadline);
      hide AtPrecision, Irrelevant;
    }
  }

  lemma {:induction false} StepTries(e: Env, w: World, log: seq<Entry>, s: Step, deadline: int, gap: int, room: int,
                                     served: int)
    requires AtPrecision(e, w.job) && GuardInv(e, w, log, deadline, gap, room, served) && Attended(w, s, served, gap)
    requires Tried(e, w, log, deadline) && NothingReachable(e, log + Logged(e, w, s), deadline)
    ensures Tried(e, Apply(e, w, s), log + Logged(e, w, s), deadline)
  {
    hide WindowChecks, Refusals, RefusedMail, WindowLength, Stride, CadenceHours, Apply, LeavesClock;
    if Looks(w, s, deadline) {
      LookTries(e, w, log, s.now, s.o, deadline);
    } else {
      OtherwiseNothing(e, w, s, deadline, served, gap);
      AddsNothing(e, log, Logged(e, w, s), deadline);
    }
    hide AtPrecision, Irrelevant, GuardInv, Logged;
  }

  lemma {:induction false} LookTries(e: Env, w: World, log: seq<Entry>, now: int, o: Oracle, deadline: int)
    requires Watched(w, deadline) && Due(w, now) && now < deadline && o.rates.Rates?
    requires Tried(e, w, log, deadline)
    requires NothingReachable(e, log + Logged(e, w, Pass(now, o, true)), deadline)
    ensures Tried(e, Apply(e, w, Pass(now, o, true)), log + Logged(e, w, Pass(now, o, true)), deadline)
  {
    hide BestLikeForLike, ByKind, KindOf, CheckByKind, MailByKind, AfterRetry, WindowChecks, CadenceHours, Refusals,
         RefusedMail, WindowLength, InPass;
    LookInWindow(e, w, log, now, o, deadline);
    if deadline - now <= WindowLength(e) && w.job.deadlineAlertSentAt.None? { LookWarns(e, w, now, o, deadline); }
    PassByKind(e, w, now, o, true);
    VisitMarks(e.cfg, w.job, o, now);
    DeliveredNews(e, w, now, o);
    hide Apply, Watched, InWindow;
  }

  /** A visit that is kept and whose mail is taken is on record. */
  lemma DeliveredNews(e: Env, w: World, now: int, o: Oracle)
    requires Due(w, now)
    ensures var more, kind := Logged(e, w, Pass(now, o, true)), KindOf(e.cfg, w.job, o, now);
            && (kind.Warning? && o.delivery.deadline ==> exists x :: x in more && KeptWarning(x) && x.at == now)
            && (kind.Alert? && o.delivery.drop ==> exists x :: x in more && KeptDrop(x) && x.at == now)
  {
    hide BestLikeForLike, AfterRetry, SawMovement, CheckByKind, KindOf, Due;
    var checks, mails := CheckByKind(e, w.job, o, now, true), MailByKind(e, w.job, o, now, true);
    if mails != [] { assert mails[0] in checks + mails; }
  }

  lemma {:induction false} StepTells(e: Env, w: World, log: seq<Entry>, s: Step, deadline: int, gap: int, room: int,
                                     served: int)
    requires AtPrecision(e, w.job) && GuardInv(e, w, log, deadline, gap, room, served) && Attended(w, s, served, gap)
    requires TriedToTell(e, w, log, deadline) && NothingUnpriceable(e, log + Logged(e, w, s), deadline)
    ensures TriedToTell(e, Apply(e, w, s), log + Logged(e, w, s), deadline)
  {
    hide WindowChecks, Refusals, RefusedMail, WindowLength, Stride, CadenceHours, Apply, LeavesClock;
    if Looks(w, s, deadline) {
      LookTells(e, w, log, s.now, s.o, deadline);
    } else {
      OtherwiseNothing(e, w, s, deadline, served, gap);
      AddsNothing(e, log, Logged(e, w, s), deadline);
    }
    hide AtPrecision, Irrelevant, GuardInv, Logged;
  }

  lemma {:induction false} LookTells(e: Env, w: World, log: seq<Entry>, now: int, o: Oracle, deadline: int)
    requires Watched(w, deadline) && Due(w, now) && now < deadline && o.rates.Rates?
    requires TriedToTell(e, w, log, deadline)
    requires NothingUnpriceable(e, log + Logged(e, w, Pass(now, o, true)), deadline)
    ensures TriedToTell(e, Apply(e, w, Pass(now, o, true)), log + Logged(e, w, Pass(now, o, true)), deadline)
  {
    hide BestLikeForLike, ByKind, KindOf, CheckByKind, MailByKind, AfterRetry, WindowChecks, CadenceHours, Refusals,
         RefusedMail, WindowLength, InPass;
    LookInWindow(e, w, log, now, o, deadline);
    if deadline - now <= WindowLength(e) && Untold(w.job) { LookSpeaks(e, w, now, o, deadline); }
    PassByKind(e, w, now, o, true);
    VisitMarks(e.cfg, w.job, o, now);
    DeliveredNews(e, w, now, o);
    hide Apply, Watched, InWindow;
  }
}
