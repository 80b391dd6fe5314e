/** The deadline warning cannot be scheduled past. However the jitter falls, and
    whatever passes fail in between, a scheduler that gets through often enough
    checks the booking inside the warning window, and each such check warns the
    user, unless it finds a drop the user can be sent to, or a warning is out. */
module DeadlineGuard {
  import opened Models
  import opened Worker
  import opened Jobs
  import opened Protocol
  import opened ProtocolLaws
  import opened History
  import opened CheckBudget
  import opened Watch

  // ---------------------------------------------------------------- runs

  lemma NoSteps(e: Env, w: World)
    ensures Exec(e, w, []) == w && Added(e, w, []) == [] && LastServed(e, w, []) == w.lastPass
  {
  }

  lemma {:induction false} OneMoreStep(e: Env, w: World, steps: seq<Step>)
    requires steps != []
    ensures var front, s := steps[..|steps| - 1], steps[|steps| - 1];
            var v := Exec(e, w, front);
            && Exec(e, w, steps) == Apply(e, v, s)
            && Added(e, w, steps) == Added(e, w, front) + Logged(e, v, s)
            && LastServed(e, w, steps) == (if Serves(v, s) then s.now else LastServed(e, w, front))
  {
    hide Apply, Logged, Serves;
  }

  lemma {:induction false} AttendedFront(e: Env, w: World, steps: seq<Step>, gap: int)
    requires AttendedRun(e, w, steps, gap) && steps != []
    ensures var front, s := steps[..|steps| - 1], steps[|steps| - 1];
            AttendedRun(e, w, front, gap) && Attended(Exec(e, w, front), s, LastServed(e, w, front), gap)
  {
    AttendedUpTo(e, w, steps, gap, |steps| - 1);
  }

  /** In an attended run from a watched booking, each window check uses up at
      most a stride of the room, and past the deadline they have used up all. */
  lemma {:induction false} WindowIsVisited(e: Env, w: World, steps: seq<Step>, deadline: int, gap: int)
    requires ValidEnv(e) && AtPrecision(e, w.job) && 0 <= gap && AttendedRun(e, w, steps, gap) && Watched(w, deadline)
    ensures AtPrecision(e, Exec(e, w, steps).job)
    ensures GuardInv(e, Exec(e, w, steps), Added(e, w, steps), deadline, gap, Room(e, w, deadline, gap),
                     LastServed(e, w, steps))
    decreases |steps|
  {
    var room := Room(e, w, deadline, gap);
    RoomIsBounded(e, w, deadline, gap);
    hide Stride, WindowLength, Exec, Added, LastServed, Apply, AtPrecision, Attended, AttendedRun, Serves, Logged,
         GuardInv, Watched, Room, ValidEnv;
    if steps != [] {
      var front, s := steps[..|steps| - 1], steps[|steps| - 1];
      OneMoreStep(e, w, steps);
      AttendedFront(e, w, steps, gap);
      WindowIsVisited(e, w, front, deadline, gap);
      StepKeepsPrecision(e, Exec(e, w, front), s);
      StepKeepsGuard(e, Exec(e, w, front), Added(e, w, front), s, deadline, gap, room, LastServed(e, w, front));
    } else {
      NoSteps(e, w);
      GuardAtTheOutset(e, w, deadline, gap);
    }
  }

  lemma RoomIsBounded(e: Env, w: World, deadline: int, gap: int)
    requires w.job.nextCheckAt.Some?
    ensures Room(e, w, deadline, gap) <= WindowLength(e) - Stride(e, gap) + 1
    ensures 0 <= gap ==> Room(e, w, deadline, gap) <= deadline - NextLook(w, w.lastPass, gap)
  {
  }

  lemma GuardAtTheOutset(e: Env, w: World, deadline: int, gap: int)
    requires Watched(w, deadline) && 0 <= gap
    ensures GuardInv(e, w, [], deadline, gap, Room(e, w, deadline, gap), w.lastPass)
  {
    RoomIsBounded(e, w, deadline, gap);
    hide Stride, WindowLength, Room;
  }

  /** Without a reachable drop, every window check tries to warn until a warning
      is out. */
  lemma {:induction false} WindowIsUsed(e: Env, w: World, steps: seq<Step>, deadline: int, gap: int)
    requires ValidEnv(e) && AtPrecision(e, w.job) && 0 <= gap && AttendedRun(e, w, steps, gap) && Watched(w, deadline)
    requires w.job.deadlineAlertSentAt.None? && NothingReachable(e, Added(e, w, steps), deadline)
    ensures Tried(e, Exec(e, w, steps), Added(e, w, steps), deadline)
    decreases |steps|
  {
    hide Exec, Added, LastServed, Apply, AtPrecision, Attended, AttendedRun, Serves, Logged, InWindow, Room, GuardInv;
    if steps != [] {
      var front, s := steps[..|steps| - 1], steps[|steps| - 1];
      OneMoreStep(e, w, steps);
      AttendedFront(e, w, steps, gap);
      WindowIsVisited(e, w, front, deadline, gap);
      hide Tried, Watched;
      WindowIsUsed(e, w, front, deadline, gap);
      StepTries(e, Exec(e, w, front), Added(e, w, front), s, deadline, gap, Room(e, w, deadline, gap),
                LastServed(e, w, front));
    } else {
      NoSteps(e, w);
    }
  }

  /** Whatever the checks find, as long as an alert can be composed, every window
      check tries to tell the user until the user has been told. */
  lemma {:induction false} WindowIsUsedToTell(e: Env, w: World, steps: seq<Step>, deadline: int, gap: int)
    requires ValidEnv(e) && AtPrecision(e, w.job) && 0 <= gap && AttendedRun(e, w, steps, gap) && Watched(w, deadline)
    requires Untold(w.job) && NothingUnpriceable(e, Added(e, w, steps), deadline)
    ensures TriedToTell(e, Exec(e, w, steps), Added(e, w, steps), deadline)
    decreases |steps|
  {
    hide Exec, Added, LastServed, Apply, AtPrecision, Attended, AttendedRun, Serves, Logged, InWindow, Room, GuardInv;
    if steps != [] {
      var front, s := steps[..|steps| - 1], steps[|steps| - 1];
      OneMoreStep(e, w, steps);
      AttendedFront(e, w, steps, gap);
      WindowIsVisited(e, w, front, deadline, gap);
      hide TriedToTell, Untold, Watched;
      WindowIsUsedToTell(e, w, front, deadline, gap);
      StepTells(e, Exec(e, w, front), Added(e, w, front), s, deadline, gap, Room(e, w, deadline, gap),
                LastServed(e, w, front));
    } else {
      NoSteps(e, w);
    }
  }

  // ---------------------------------------------------------------- the guard

  /** The deadline guard. Take any run from any watched booking that has not been
      warned, in which no pass comes more than `gap` after the last one that
      served it. When the clock has passed the deadline, and no check in the
      window found a reachable drop, then a kept, delivered warning is dated
      before the deadline, or the mail service refused it at every one of the n
      checks in the window, of which there are enough to use up the room, a
      stride each, and of which the first left all of it. */
  lemma {:induction false} DeadlineCannotBeScheduledPast(e: Env, w: World, steps: seq<Step>, deadline: int, gap: int)
    requires ValidEnv(e) && AtPrecision(e, w.job) && 0 <= gap && AttendedRun(e, w, steps, gap) && Watched(w, deadline)
    requires deadline <= Exec(e, w, steps).lastPass
    requires w.job.deadlineAlertSentAt.None? && NothingReachable(e, Added(e, w, steps), deadline)
    ensures var log := Added(e, w, steps);
            var room, xs := Room(e, w, deadline, gap), WindowChecks(e, log, deadline);
            && room <= |xs| * Stride(e, gap)
            && (xs != [] ==> room <= deadline - CheckTime(xs[0]))
            && (|| (exists x :: x in log && KeptWarning(x) && x.at < deadline)
                || |xs| <= |Refusals(e, log, deadline)|)
  {
    WindowIsVisited(e, w, steps, deadline, gap);
    WindowIsUsed(e, w, steps, deadline, gap);
    hide Exec, Added, AtPrecision, Watched, AttendedRun, WindowChecks, Refusals, Stride, Room;
  }

  /** Without a word on what the checks find: if the booking has a price, or no
      rate is below zero, the user has been told, in time, of the deadline or of
      a drop, or the mail of every one of the n window checks was refused. */
  lemma {:induction false} UserIsTold(e: Env, w: World, steps: seq<Step>, deadline: int, gap: int)
    requires ValidEnv(e) && AtPrecision(e, w.job) && 0 <= gap && AttendedRun(e, w, steps, gap) && Watched(w, deadline)
    requires deadline <= Exec(e, w, steps).lastPass
    requires Untold(w.job)
    requires w.job.terms.originalPrice != 0.0 || forall i :: 0 <= i < |steps| ==> OrdinaryRates(steps[i])
    ensures var log := Added(e, w, steps);
            var room, xs := Room(e, w, deadline, gap), WindowChecks(e, log, deadline);
            && room <= |xs| * Stride(e, gap)
            && (xs != [] ==> room <= deadline - CheckTime(xs[0]))
            && (|| (exists x :: x in log && (KeptWarning(x) || KeptDrop(x)) && x.at < deadline)
                || |xs| <= |RefusedMail(e, log, deadline)|)
  {
    RunCompletes(e, w, steps);
    WindowIsVisited(e, w, steps, deadline, gap);
    hide Exec, Added, AtPrecision, Watched, AttendedRun, WindowChecks, RefusedMail, Stride, Room, OrdinaryRates;
    WindowIsUsedToTell(e, w, steps, deadline, gap);
  }

  /** The i-th step looks at the booking inside the window. */
  predicate LooksInWindow(e: Env, w: World, steps: seq<Step>, deadline: int, i: nat) {
    && i < |steps| && Looks(Exec(e, w, steps[..i]), steps[i], deadline)
    && deadline - WindowLength(e) <= steps[i].now
  }

  /** What is on record when a step is due, and with it. */
  lemma {:induction false} UpToStep(e: Env, w: World, steps: seq<Step>, i: nat)
    requires i < |steps|
    ensures var before := Added(e, w, steps[..i]);
            var more := Logged(e, Exec(e, w, steps[..i]), steps[i]);
            forall x :: x in before || x in more || x in before + more ==> x in Added(e, w, steps)
  {
    hide Logged, Exec, Added, LastServed, Serves;
    var upTo := steps[..i + 1];
    assert upTo[..i] == steps[..i];
    OneMoreStep(e, w, upTo);
    AddedGrows(e, w, steps, i + 1);
    assert forall x :: x in Added(e, w, upTo) ==> x in Added(e, w, steps);
  }

  lemma {:induction false} WindowLookWarns(e: Env, w: World, log: seq<Entry>, s: Step, deadline: int)
    requires Watched(w, deadline) && Looks(w, s, deadline) && deadline - s.now <= WindowLength(e)
    requires w.job.deadlineAlertSentAt.None? && s.o.delivery.deadline
    requires NothingReachable(e, log + Logged(e, w, s), deadline)
    ensures exists x :: x in Logged(e, w, s) && KeptWarning(x) && x.at < deadline
  {
    hide Logged, WindowChecks, Refusals, RefusedMail, CheckByKind, KindOf, AfterRetry, Due;
    LookInWindow(e, w, log, s.now, s.o, deadline);
    LookWarns(e, w, s.now, s.o, deadline);
    DeliveredNews(e, w, s.now, s.o);
  }

  lemma {:induction false} WindowLookTells(e: Env, w: World, log: seq<Entry>, s: Step, deadline: int)
    requires Watched(w, deadline) && Looks(w, s, deadline) && deadline - s.now <= WindowLength(e)
    requires Untold(w.job) && s.o.delivery.deadline && s.o.delivery.drop
    requires NothingUnpriceable(e, log + Logged(e, w, s), deadline)
    ensures exists x :: x in Logged(e, w, s) && (KeptWarning(x) || KeptDrop(x)) && x.at < deadline
  {
    hide Logged, WindowChecks, Refusals, RefusedMail, CheckByKind, KindOf, AfterRetry, Due;
    LookInWindow(e, w, log, s.now, s.o, deadline);
    LookSpeaks(e, w, s.now, s.o, deadline);
    DeliveredNews(e, w, s.now, s.o);
  }

  /** The state a look finds is on watch. */
  lemma {:induction false} LookFindsWatch(e: Env, w: World, steps: seq<Step>, deadline: int, gap: int, i: nat)
    requires ValidEnv(e) && AtPrecision(e, w.job) && 0 <= gap && AttendedRun(e, w, steps, gap) && Watched(w, deadline)
    requires LooksInWindow(e, w, steps, deadline, i)
    ensures AttendedRun(e, w, steps[..i], gap) && Watched(Exec(e, w, steps[..i]), deadline)
  {
    AttendedUpTo(e, w, steps, gap, i);
    hide Exec, LastServed, AttendedRun, Watched, AtPrecision, Room, WindowChecks, Stride, LeavesClock;
    WindowIsVisited(e, w, steps[..i], deadline, gap);
  }

  /** If a pass looks at the booking in the window, and the mail service would
      take a warning then, the user has it before the deadline. */
  lemma {:induction false} OneDeliveryWarnsInTime(e: Env, w: World, steps: seq<Step>, deadline: int, gap: int, i: nat)
    requires ValidEnv(e) && AtPrecision(e, w.job) && 0 <= gap && AttendedRun(e, w, steps, gap) && Watched(w, deadline)
    requires w.job.deadlineAlertSentAt.None? && NothingReachable(e, Added(e, w, steps), deadline)
    requires LooksInWindow(e, w, steps, deadline, i) && steps[i].o.delivery.deadline
    ensures exists x :: x in Added(e, w, steps) && KeptWarning(x) && x.at < deadline
  {
    hide Exec, Added, Logged, WindowChecks, Refusals, InWindow, WindowLength, AttendedRun, AtPrecision, Watched, Looks;
    var v, s, log := Exec(e, w, steps[..i]), steps[i], Added(e, w, steps[..i]);
    LookFindsWatch(e, w, steps, deadline, gap, i);
    UpToStep(e, w, steps, i);
    WindowIsUsed(e, w, steps[..i], deadline, gap);
    if v.job.deadlineAlertSentAt.None? {
      WindowLookWarns(e, v, log, s, deadline);
      var x :| x in Logged(e, v, s) && KeptWarning(x) && x.at < deadline;
      assert x in Added(e, w, steps);
    }
  }

  /** And if it would take any mail then, the user is told of something. */
  lemma {:induction false} OneDeliveryTellsInTime(e: Env, w: World, steps: seq<Step>, deadline: int, gap: int, i: nat)
    requires ValidEnv(e) && AtPrecision(e, w.job) && 0 <= gap && AttendedRun(e, w, steps, gap) && Watched(w, deadline)
    requires Untold(w.job)
    requires w.job.terms.originalPrice != 0.0 || forall i :: 0 <= i < |steps| ==> OrdinaryRates(steps[i])
    requires LooksInWindow(e, w, steps, deadline, i) && steps[i].o.delivery.deadline && steps[i].o.delivery.drop
    ensures exists x :: x in Added(e, w, steps) && (KeptWarning(x) || KeptDrop(x)) && x.at < deadline
  {
    hide Exec, Added, Logged, WindowChecks, RefusedMail, WindowLength, AttendedRun, AtPrecision, Watched, Looks,
         OrdinaryRates, Untold;
    RunCompletes(e, w, steps);
    var v, s, log := Exec(e, w, steps[..i]), steps[i], Added(e, w, steps[..i]);
    LookFindsWatch(e, w, steps, deadline, gap, i);
    UpToStep(e, w, steps, i);
    WindowIsUsedToTell(e, w, steps[..i], deadline, gap);
    if Untold(v.job) {
      WindowLookTells(e, v, log, s, deadline);
      var x :| x in Logged(e, v, s) && (KeptWarning(x) || KeptDrop(x)) && x.at < deadline;
      assert x in Added(e, w, steps);
    }
  }

  // ---------------------------------------------------------------- the shipped settings

  /** With the shipped 48-hour window and the shipped 15-minute loop, a booking
      whose next look comes before the last 41 and a quarter hours has at least
      seven checks in the window, the first with more than 41 hours left. */
  lemma {:induction false} SevenChances(e: Env, w: World, steps: seq<Step>, deadline: int)
    requires e.cfg.alertHours == DEFAULT_SETTINGS.alertHours
    requires var gap := 15 * 60 * SECOND;
             && ValidEnv(e) && AtPrecision(e, w.job) && AttendedRun(e, w, steps, gap) && Watched(w, deadline)
             && 41 * HOUR + gap < deadline - NextLook(w, w.lastPass, gap)
    requires deadline <= Exec(e, w, steps).lastPass
    ensures var xs := WindowChecks(e, Added(e, w, steps), deadline);
            |xs| >= 7 && deadline - CheckTime(xs[0]) > 41 * HOUR
  {
    var gap := 15 * 60 * SECOND;
    WindowIsVisited(e, w, steps, deadline, gap);
    hide Exec, Added, WindowChecks, AtPrecision, AttendedRun, CadenceHours, NextLook, Watched;
    SevenStrides(|WindowChecks(e, Added(e, w, steps), deadline)|, Stride(e, gap));
  }

  lemma SevenStrides(n: nat, stride: int)
    requires n * stride > 41 * HOUR + 15 * 60 * SECOND && stride == 6 * HOUR + 45 * 60 * SECOND
    ensures n >= 7
  {
  }

  // ---------------------------------------------------------------- coming on watch

  /** The booking this creation makes is monitored from the start, its hotel is
      known, and its deadline is not after the day of check-out begins. */
  predicate StartsWatched(c: Creation, deadline: int) {
    Create(c).Some? && var j := Create(c).value;
    && j.status.Active? && Truthy(j.hotelId)
    && j.terms.deadline.Some? && j.terms.deadline.value.at == deadline
    && deadline <= j.terms.checkOut * DAY
  }

  lemma NewlyCreated(c: Creation)
    requires Create(c).Some?
    ensures var j := Create(c).value; Untold(j) && (j.status.Active? ==> j.nextCheckAt == Some(c.when))
  {
  }

  lemma CreatedOnWatch(e: Env, c: Creation, plan: PlanStatus, accepted: bool, deadline: int, gap: int)
    requires plan in {Trialing, Paying} && ValidEnv(e) && StartsWatched(c, deadline)
    ensures var w := Start(e, c, plan, accepted);
            && Watched(w, deadline) && Untold(w.job) && AtPrecision(e, w.job)
            && NextLook(w, w.lastPass, gap) == c.when + gap
  {
    StoredIsAtPrecision(e, Create(c).value);
    NewlyCreated(c);
    hide AtPrecision, Create;
  }

  /** A PATCH that activates a booking puts it on watch. */
  lemma {:induction false} ActivatedOnWatch(e: Env, w: World, s: Step, deadline: int, gap: int)
    requires ValidEnv(e) && AtPrecision(e, w.job) && w.plan in {Trialing, Paying}
    requires s.Patch? && PatchActivates(w.job, s.patch)
    requires Truthy(Apply(e, w, s).job.hotelId)
    requires DeadlineIs(Apply(e, w, s), deadline) && deadline <= w.job.terms.checkOut * DAY
    ensures var w' := Apply(e, w, s);
            && Watched(w', deadline) && AtPrecision(e, w'.job)
            && w'.job.deadlineAlertSentAt == w.job.deadlineAlertSentAt
            && w'.job.dropAlertSentAt == w.job.dropAlertSentAt
            && NextLook(w', w'.lastPass, gap) == (if w.lastPass < s.when then s.when - 1 else w.lastPass) + gap
  {
    hide Patched, AtPrecision;
    StepKeepsPrecision(e, w, s);
    PatchKeepsMonitoring(w.job, s.patch);
  }

  /** So does the hotel of a monitored booking, supplied by the user; the schedule
      stays. */
  lemma {:induction false} SuppliedHotelOnWatch(e: Env, w: World, s: Step, deadline: int)
    requires ValidEnv(e) && AtPrecision(e, w.job) && w.plan in {Trialing, Paying} && s.Patch? && LeavesClock(s)
    requires Monitored(w.job.status) && w.job.nextCheckAt.Some?
    requires Truthy(Apply(e, w, s).job.hotelId) && DeadlineIs(w, deadline) && deadline <= w.job.terms.checkOut * DAY
    ensures var w' := Apply(e, w, s);
            && Watched(w', deadline) && AtPrecision(e, w'.job)
            && w'.job == w.job.(hotelId := w'.job.hotelId, terms := w'.job.terms) && w'.lastPass == w.lastPass
  {
    StepKeepsPrecision(e, w, s);
    ClockStep(e, w, s);
    hide Apply, AtPrecision;
  }

  /** So does a look that gets an answer, also if that very visit has just found
      the hotel; and with more than the window left, it gives the full room. */
  lemma {:induction false} LookedAtOnWatch(e: Env, w: World, now: int, o: Oracle, deadline: int, gap: int)
    requires ValidEnv(e) && AtPrecision(e, w.job) && 0 <= gap
    requires Due(w, now) && Truthy(AfterRetry(w.job, o).hotelId) && o.rates.Rates?
    requires DeadlineIs(w, deadline) && deadline <= w.job.terms.checkOut * DAY && now < deadline
    ensures var w' := Apply(e, w, Pass(now, o, true));
            && Watched(w', deadline) && AtPrecision(e, w'.job)
            && (WindowLength(e) < deadline - now ==>
                  Room(e, w', deadline, gap) == WindowLength(e) - Stride(e, gap) + 1)
  {
    LookSetsWatch(e, w, now, o, deadline);
    hide Apply, AtPrecision, WindowLength, Stride, CadenceHours;
    if WindowLength(e) < deadline - now {
      NextLookIsSoon(e, deadline, gap, WindowLength(e) - Stride(e, gap) + 1, 0, now,
                     Apply(e, w, Pass(now, o, true)).job.nextCheckAt.value);
    }
  }

  // ---------------------------------------------------------------- from the creation on

  /** All of the above, of one run with this much room. */
  ghost predicate GuardKept(e: Env, w: World, steps: seq<Step>, deadline: int, gap: int, room: int) {
    var log := Added(e, w, steps);
    var xs := WindowChecks(e, log, deadline);
    && room <= |xs| * Stride(e, gap)
    && (xs != [] ==> room <= deadline - CheckTime(xs[0]))
    && (w.job.deadlineAlertSentAt.None? && NothingReachable(e, log, deadline) ==>
          || (exists x :: x in log && KeptWarning(x) && x.at < deadline)
          || |xs| <= |Refusals(e, log, deadline)|)
    && (Untold(w.job)
        && (w.job.terms.originalPrice != 0.0 || forall i :: 0 <= i < |steps| ==> OrdinaryRates(steps[i])) ==>
          || (exists x :: x in log && (KeptWarning(x) || KeptDrop(x)) && x.at < deadline)
          || |xs| <= |RefusedMail(e, log, deadline)|)
  }

  lemma {:induction false} GuardIsKept(e: Env, w: World, steps: seq<Step>, deadline: int, gap: int)
    requires ValidEnv(e) && AtPrecision(e, w.job) && 0 <= gap && AttendedRun(e, w, steps, gap) && Watched(w, deadline)
    requires deadline <= Exec(e, w, steps).lastPass
    ensures GuardKept(e, w, steps, deadline, gap, Room(e, w, deadline, gap))
  {
    hide Exec, Added, WindowChecks, Refusals, RefusedMail, AtPrecision, Watched, AttendedRun, NothingReachable, Stride,
         WindowLength, NextLook, OrdinaryRates, Room, Untold;
    WindowIsVisited(e, w, steps, deadline, gap);
    if w.job.deadlineAlertSentAt.None? && NothingReachable(e, Added(e, w, steps), deadline) {
      DeadlineCannotBeScheduledPast(e, w, steps, deadline, gap);
    }
    if Untold(w.job)
       && (w.job.terms.originalPrice != 0.0 || forall i :: 0 <= i < |steps| ==> OrdinaryRates(steps[i])) {
      UserIsTold(e, w, steps, deadline, gap);
    }
  }

  /** The guard, from the POST or email on, for every booking that starts active
      and resolved, at whatever time before its deadline. */
  lemma {:induction false} CreatedBookingIsGuarded(e: Env, c: Creation, plan: PlanStatus, accepted: bool,
                                                   steps: seq<Step>, deadline: int, gap: int)
    requires plan in {Trialing, Paying} && ValidEnv(e) && 0 <= gap && StartsWatched(c, deadline)
    requires var w := Start(e, c, plan, accepted);
             AttendedRun(e, w, steps, gap) && deadline <= Exec(e, w, steps).lastPass
    ensures var w := Start(e, c, plan, accepted);
            Untold(w.job) && GuardKept(e, w, steps, deadline, gap, RoomFor(e, deadline, gap, c.when + gap))
  {
    var w := Start(e, c, plan, accepted);
    CreatedOnWatch(e, c, plan, accepted, deadline, gap);
    hide Start, Create, Exec, AtPrecision, Watched, AttendedRun, GuardKept, Stride, WindowLength, NextLook;
    GuardIsKept(e, w, steps, deadline, gap);
  }

  /** And from the PATCH on that completes a pending booking and activates it. */
  lemma {:induction false} ActivatedBookingIsGuarded(e: Env, w: World, s: Step, steps: seq<Step>, deadline: int,
                                                     gap: int)
    requires ValidEnv(e) && AtPrecision(e, w.job) && 0 <= gap
    requires w.plan in {Trialing, Paying} && s.Patch? && PatchActivates(w.job, s.patch) && w.lastPass < s.when
    requires var w' := Apply(e, w, s);
             && Truthy(w'.job.hotelId) && DeadlineIs(w', deadline) && deadline <= w.job.terms.checkOut * DAY
             && AttendedRun(e, w', steps, gap) && deadline <= Exec(e, w', steps).lastPass
    ensures GuardKept(e, Apply(e, w, s), steps, deadline, gap, RoomFor(e, deadline, gap, s.when - 1 + gap))
  {
    var w' := Apply(e, w, s);
    ActivatedOnWatch(e, w, s, deadline, gap);
    hide Apply, Exec, AtPrecision, Watched, AttendedRun, GuardKept, Stride, WindowLength, NextLook;
    GuardIsKept(e, w', steps, deadline, gap);
  }
}
