/** The booking endpoints: create, patch and cancel. */
module Jobs {
  import opened Models
  import opened Lifecycle
  import Worker

  datatype JobCreate = JobCreate(hotelName: string, city: Option<string>, checkIn: int, checkOut: int,
                                 roomType: Option<string>, board: Option<string>, adults: Option<int>,
                                 children: Option<int>, originalPrice: real, refundable: bool, deadline: Option<Stamp>)

  function TermsOf(p: JobCreate): Terms {
    Terms(p.hotelName, p.city, p.checkIn, p.checkOut, p.roomType, p.board, p.adults, p.children, p.originalPrice,
          p.refundable, p.deadline)
  }

  /** The job a POST creates, unless the dates are in the wrong order. It is
      monitored at once, whatever is still missing. */
  function Posted(id: int, p: JobCreate, r: Resolution, now: int): Option<Job> {
    if p.checkOut <= p.checkIn then None
    else
      Some(Worker.Resolved(
             NewJob(id, Active, TermsOf(p), Some(now)), r))
  }

  /** The row a POST is stored as. */
  lemma PostedRow(id: int, p: JobCreate, r: Resolution, now: int)
    ensures Posted(id, p, r, now).None? <==> p.checkOut <= p.checkIn
    ensures var found := r.Matches? && |r.matches| == 1 && r.matches[0].confidence >= 0.9;
            var terms := Terms(p.hotelName, p.city, p.checkIn, p.checkOut, p.roomType, p.board, p.adults, p.children,
                               p.originalPrice, p.refundable, p.deadline);
            p.checkIn < p.checkOut ==>
              Posted(id, p, r, now) ==
                Some(Job(id, Active, terms, if found then Some(r.matches[0].hotelId) else None, [], None, Some(now), 0,
                         None, None, None, None, None, None, None))
  {
  }

  /** `id` is the key the database gives the new row. */
  method CreateJob(user: User, id: int, p: JobCreate, resolution: Resolution, round: real -> real, klaviyo: Klaviyo,
                   accepted: bool, now: int)
    returns (job: MonitoringJob?)
    modifies klaviyo
    ensures job == null <==> Posted(id, p, resolution, now).None?
    ensures job == null ==> klaviyo.sent == old(klaviyo.sent)
    ensures job != null ==>
              && fresh(job) && job.user == user
              && job.Row() == Stored(round, Posted(id, p, resolution, now).value)
              && klaviyo.sent == old(klaviyo.sent) + [Mail(MonitoredEvent(job.Row()), accepted)]
  {
    if p.checkOut <= p.checkIn { return null; }
    var created := new MonitoringJob(user,
      NewJob(id, Active, TermsOf(p), Some(now)));
    Worker.RetryResolution(created, resolution);
    created.Reload(round);
    job := created;
    var _ := klaviyo.Emit(MonitoredEvent(job.Row()), accepted);
  }

  // ---------------------------------------------------------------- patch

  /** One field of a PATCH body. `None` is an explicit null. */
  datatype Assign =
    | SetHotelId(hotelId: Option<string>)
    | SetCity(city: Option<string>)
    | SetRoomType(roomType: Option<string>)
    | SetBoard(board: Option<string>)
    | SetAdults(adults: Option<int>)
    | SetChildren(children: Option<int>)
    | SetRefundable(refundable: Option<bool>)
    | SetDeadline(deadline: Option<Stamp>)
    | SetStatus(status: Option<Status>)

  /** Two assignments to the same column. */
  predicate SameField(a: Assign, b: Assign) {
    || (a.SetHotelId? && b.SetHotelId?) || (a.SetCity? && b.SetCity?) || (a.SetRoomType? && b.SetRoomType?)
    || (a.SetBoard? && b.SetBoard?) || (a.SetAdults? && b.SetAdults?) || (a.SetChildren? && b.SetChildren?)
    || (a.SetRefundable? && b.SetRefundable?) || (a.SetDeadline? && b.SetDeadline?)
    || (a.SetStatus? && b.SetStatus?)
  }

  /** The column takes the value; the two columns that may not be null refuse one. */
  predicate Storable(a: Assign) {
    !(a.SetRefundable? && a.refundable.None?) && !(a.SetStatus? && a.status.None?)
  }

  function Assigned(j: Job, a: Assign): Job {
    match a
    case SetHotelId(v) => j.(hotelId := v)
    case SetCity(v) => j.(terms := j.terms.(city := v))
    case SetRoomType(v) => j.(terms := j.terms.(roomType := v))
    case SetBoard(v) => j.(terms := j.terms.(board := v))
    case SetAdults(v) => j.(terms := j.terms.(adults := v))
    case SetChildren(v) => j.(terms := j.terms.(children := v))
    case SetRefundable(v) => if v.Some? then j.(terms := j.terms.(refundable := v.value)) else j
    case SetDeadline(v) => j.(terms := j.terms.(deadline := v))
    case SetStatus(v) => if v.Some? then j.(status := v.value) else j
  }

  function Patched(j: Job, patch: seq<Assign>): Job {
    if patch == [] then j else Assigned(Patched(j, patch[..|patch| - 1]), patch[|patch| - 1])
  }

  predicate StorablePatch(patch: seq<Assign>) {
    forall i :: 0 <= i < |patch| ==> Storable(patch[i])
  }

  /** A PATCH: assign, commit, and activate a pending job that has become ready.
      A null where none may be makes the commit fail and changes nothing. */
  function Updated(j: Job, patch: seq<Assign>, now: int): Job {
    if StorablePatch(patch) then ActivatedIfReady(Patched(j, patch), now) else j
  }

  /** The PATCH emits Booking Monitored. */
  predicate PatchActivates(j: Job, patch: seq<Assign>) {
    StorablePatch(patch) && Activates(Patched(j, patch))
  }

  /** Row `r` has the columns a PATCH may write from `saved`, the others from `j`. */
  predicate PatchColumns(r: Job, saved: Job, j: Job) {
    r == j.(hotelId := saved.hotelId, terms := r.terms, status := saved.status)
    && r.terms == j.terms.(city := saved.terms.city, roomType := saved.terms.roomType, board := saved.terms.board,
                           adults := saved.terms.adults, children := saved.terms.children,
                           refundable := saved.terms.refundable, deadline := saved.terms.deadline)
  }

  lemma {:induction false} PatchWritesPatchColumns(j: Job, patch: seq<Assign>)
    ensures PatchColumns(j, j, Patched(j, patch))
  {
    if patch != [] { PatchWritesPatchColumns(j, patch[..|patch| - 1]); }
  }

  predicate IsDetail(a: Assign) {
    a.SetCity? || a.SetRoomType? || a.SetBoard? || a.SetAdults? || a.SetChildren?
  }

  method SetDetail(job: MonitoringJob, a: Assign)
    requires IsDetail(a)
    modifies job`city, job`roomType, job`board, job`adults, job`children
    ensures job.Row() == Assigned(old(job.Row()), a)
  {
    match a
    case SetCity(v) => job.city := v;
    case SetRoomType(v) => job.roomType := v;
    case SetBoard(v) => job.board := v;
    case SetAdults(v) => job.adults := v;
    case SetChildren(v) => job.children := v;
  }

  method SetPolicy(job: MonitoringJob, a: Assign)
    requires !IsDetail(a)
    modifies job`hotelId, job`refundable, job`deadline, job`status
    ensures job.Row() == Assigned(old(job.Row()), a)
  {
    match a
    case SetHotelId(v) => job.hotelId := v;
    case SetRefundable(v) => if v.Some? { job.refundable := v.value; }
    case SetDeadline(v) => job.deadline := v;
    case SetStatus(v) => if v.Some? { job.status := v.value; }
  }

  method SetAttribute(job: MonitoringJob, a: Assign)
    modifies job
    ensures job.Row() == Assigned(old(job.Row()), a)
  {
    hide MonitoringJob.Row, Assigned;
    if IsDetail(a) {
      SetDetail(job, a);
    } else {
      SetPolicy(job, a);
    }
  }

  method UndoDetails(job: MonitoringJob, saved: Terms)
    modifies job`city, job`roomType, job`board, job`adults, job`children
    ensures job.Row() == old(job.Row()).(terms := old(job.Row()).terms.(
              city := saved.city, roomType := saved.roomType, board := saved.board, adults := saved.adults,
              children := saved.children))
  {
    job.city, job.roomType, job.board := saved.city, saved.roomType, saved.board;
    job.adults, job.children := saved.adults, saved.children;
  }

  method UndoPolicy(job: MonitoringJob, saved: Job)
    modifies job`hotelId, job`refundable, job`deadline, job`status
    ensures job.Row() == old(job.Row()).(hotelId := saved.hotelId, status := saved.status,
              terms := old(job.Row()).terms.(refundable := saved.terms.refundable, deadline := saved.terms.deadline))
  {
    job.hotelId, job.status := saved.hotelId, saved.status;
    job.refundable, job.deadline := saved.terms.refundable, saved.terms.deadline;
  }

  /** A failed commit puts back what the loop assigned. */
  method UndoPatch(job: MonitoringJob, saved: Job)
    modifies job
    ensures PatchColumns(job.Row(), saved, old(job.Row()))
  {
    hide MonitoringJob.Row;
    UndoDetails(job, saved.terms);
    UndoPolicy(job, saved);
  }

  method UpdateJob(job: MonitoringJob, patch: seq<Assign>, klaviyo: Klaviyo, accepted: bool, now: int)
    returns (raised: bool)
    modifies job, klaviyo
    ensures raised == !StorablePatch(patch)
    ensures job.Row() == Updated(old(job.Row()), patch, now)
    ensures var j := old(job.Row());
            klaviyo.sent == old(klaviyo.sent)
              + if PatchActivates(j, patch) then [Mail(MonitoredEvent(Patched(j, patch)), accepted)] else []
  {
    hide MonitoringJob.Row, Assigned, PatchColumns, Activates, Activated, MonitoredEvent;
    var saved := job.Row();
    var storable := true;
    for i := 0 to |patch|
      invariant job.Row() == Patched(saved, patch[..i])
      invariant storable == StorablePatch(patch[..i])
      invariant klaviyo.sent == old(klaviyo.sent)
    {
      assert patch[..i + 1][..i] == patch[..i];
      SetAttribute(job, patch[i]);
      storable := storable && Storable(patch[i]);
    }
    assert patch[..|patch|] == patch;
    if !storable {
      ghost var patched := job.Row();
      UndoPatch(job, saved);
      PatchWritesPatchColumns(saved, patch);
      SamePatchColumns(job.Row(), saved, patched);
      assert klaviyo.sent == old(klaviyo.sent) + [];
      return true;
    }
    var _ := ActivateIfReady(job, klaviyo, accepted, now);
    raised := false;
  }

  lemma SamePatchColumns(r: Job, saved: Job, j: Job)
    requires PatchColumns(r, saved, j) && PatchColumns(saved, saved, j)
    ensures r == saved
  {
  }

  // ---------------------------------------------------------------- cancel

  function CancelledJob(j: Job): Job {
    j.(status := Cancelled, nextCheckAt := None)
  }

  /** Soft cancel: stop monitoring, keep the history. */
  method CancelJob(job: MonitoringJob)
    modifies job`status, job`nextCheckAt
    ensures job.Row() == old(job.Row()).(status := Cancelled, nextCheckAt := None) == CancelledJob(old(job.Row()))
  {
    job.status := Cancelled;
    job.nextCheckAt := None;
  }
}
