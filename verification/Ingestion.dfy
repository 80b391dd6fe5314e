/** Inbound email: parse, guard, resolve the hotel, and create the job in the
    state that what is still missing calls for. */
module Ingestion {
  import opened Models
  import opened Lifecycle
  import Worker

  /** What the parser read. `None` means the email does not clearly say. */
  datatype ParsedBooking = ParsedBooking(hotelName: string, city: Option<string>, checkIn: int, checkOut: int,
                                         roomType: Option<string>, board: Option<string>, adults: Option<int>,
                                         children: Option<int>, totalPrice: real, refundable: Option<bool>,
                                         deadline: Option<Stamp>)

  datatype IngestionResult = UnknownSender | ParseFailed | NotRefundable | AwaitingHotel | AwaitingInfo | Monitoring

  function Built(id: int, p: ParsedBooking): Job {
    NewJob(id, Active, Terms(p.hotelName, p.city, p.checkIn, p.checkOut, p.roomType, p.board, p.adults, p.children,
                             p.totalPrice, true, p.deadline), None)
  }

  /** A confident match is stored; other matches are kept to ask the user. */
  function HotelResolved(j: Job, r: Resolution): Job {
    if Confident(r) then j.(hotelId := Some(r.matches[0].hotelId))
    else if r.Matches? && r.matches != [] then j.(hotelCandidates := r.matches)
    else j
  }

  /** What is missing decides the starting state. */
  function Started(j: Job, now: int): Job {
    if j.hotelId.None? then j.(status := PendingHotel)
    else if j.terms.deadline.None? then j.(status := PendingInfo)
    else j.(status := Active, nextCheckAt := Some(now))
  }

  /** The job an accepted booking starts as. */
  function Ingested(id: int, p: ParsedBooking, r: Resolution, now: int): Job {
    Started(HotelResolved(Built(id, p), r), now)
  }

  function ResultOf(j: Job): IngestionResult {
    if j.status.PendingHotel? then AwaitingHotel else if j.status.PendingInfo? then AwaitingInfo else Monitoring
  }

  /** What the user is told about a new job. */
  function Announcement(j: Job): Event {
    if j.status.PendingHotel? then HotelResolutionNeeded(j.terms.hotelName, j.hotelCandidates)
    else if j.status.PendingInfo? then NeedsDeadline(j.terms.hotelName)
    else MonitoredEvent(j)
  }

  /** The row an accepted booking is stored as. The hotel is known only from a
      single match at 0.9 or better; otherwise the matches are kept. */
  lemma IngestedRow(id: int, p: ParsedBooking, r: Resolution, now: int)
    ensures var found := r.Matches? && |r.matches| == 1 && r.matches[0].confidence >= 0.9;
            var terms := Terms(p.hotelName, p.city, p.checkIn, p.checkOut, p.roomType, p.board, p.adults, p.children,
                               p.totalPrice, true, p.deadline);
            Ingested(id, p, r, now) ==
              Job(id, if !found then PendingHotel else if p.deadline.None? then PendingInfo else Active, terms,
                  if found then Some(r.matches[0].hotelId) else None,
                  if r.Matches? && !found then r.matches else [],
                  None, if found && p.deadline.Some? then Some(now) else None,
                  0, None, None, None, None, None, None, None)
  {
  }

  lemma IngestedAnnouncement(round: real -> real, id: int, p: ParsedBooking, r: Resolution, now: int)
    ensures var found := r.Matches? && |r.matches| == 1 && r.matches[0].confidence >= 0.9;
            Announcement(Stored(round, Ingested(id, p, r, now))) ==
              if !found then HotelResolutionNeeded(p.hotelName, if r.Matches? then r.matches else [])
              else if p.deadline.None? then NeedsDeadline(p.hotelName)
              else BookingMonitored(p.hotelName, round(p.totalPrice), p.deadline)
  {
  }

  lemma RowColumns(job: MonitoringJob)
    ensures var j := job.Row();
            && j.status == job.status && j.hotelId == job.hotelId && j.hotelCandidates == job.hotelCandidates
            && j.nextCheckAt == job.nextCheckAt
  {
  }

  lemma StoredColumns(round: real -> real, j: Job)
    ensures var k := Stored(round, j);
            && k.status == j.status && k.hotelId == j.hotelId && k.hotelCandidates == j.hotelCandidates
            && k.nextCheckAt == j.nextCheckAt
  {
  }

  method ResolveHotel(job: MonitoringJob, resolution: Resolution)
    modifies job`hotelId, job`hotelCandidates
    ensures job.Row() == HotelResolved(old(job.Row()), resolution)
  {
    if resolution.LookupRaised? { return; }
    var matches := resolution.matches;
    if |matches| == 1 && matches[0].confidence >= 0.9 {
      job.hotelId := Some(matches[0].hotelId);
    } else if matches != [] {
      job.hotelCandidates := matches;
    }
  }

  /** Decide the starting state from what is missing. */
  method StartMonitoring(job: MonitoringJob, now: int)
    modifies job`status, job`nextCheckAt
    ensures job.Row() == Started(old(job.Row()), now)
  {
    if job.hotelId.None? {
      job.status := PendingHotel;
    } else if job.deadline.None? {
      job.status := PendingInfo;
    } else {
      job.status := Active;
      job.nextCheckAt := Some(now);
    }
  }

  method CreateFromBooking(user: User, id: int, p: ParsedBooking, resolution: Resolution, round: real -> real, now: int)
    returns (job: MonitoringJob)
    ensures fresh(job) && job.user == user
    ensures job.Row() == Stored(round, Ingested(id, p, resolution, now))
  {
    hide MonitoringJob.Row, HotelResolved, Started, Built, Stored;
    job := new MonitoringJob(user, Built(id, p));
    ResolveHotel(job, resolution);
    StartMonitoring(job, now);
    Worker.ReloadRow(job, round);
  }

  /** `user` is the account the sender's address belongs to, if any; `parsed` is
      what the parser made of the body, if anything; `id` is the key the database
      gives a new row. */
  method ProcessInboundEmail(user: User?, id: int, subject: string, parsed: Option<ParsedBooking>,
                             resolution: Resolution, round: real -> real, klaviyo: Klaviyo, accepted: bool, now: int)
    returns (result: IngestionResult, job: MonitoringJob?)
    modifies klaviyo
    ensures job == null <==> user == null || parsed.None? || parsed.value.refundable != Some(true)
    ensures user == null ==>
              result == UnknownSender && klaviyo.sent == old(klaviyo.sent) + [Mail(SignupInvite(subject), accepted)]
    ensures user != null && parsed.None? ==> result == ParseFailed && klaviyo.sent == old(klaviyo.sent)
    ensures user != null && parsed.Some? && parsed.value.refundable != Some(true) ==>
              && result == NotRefundable
              && klaviyo.sent == old(klaviyo.sent)
                   + [Mail(NeedsRefundable(parsed.value.hotelName, parsed.value.checkIn), accepted)]
    ensures job != null ==>
              && fresh(job) && job.user == user
              && job.Row() == Stored(round, Ingested(id, parsed.value, resolution, now))
              && result == ResultOf(job.Row())
              && klaviyo.sent == old(klaviyo.sent) + [Mail(Announcement(job.Row()), accepted)]
    ensures job != null ==>
              var found := resolution.Matches? && |resolution.matches| == 1 && resolution.matches[0].confidence >= 0.9;
              && job.hotelId == (if found then Some(resolution.matches[0].hotelId) else None)
              && job.hotelCandidates == (if resolution.Matches? && !found then resolution.matches else [])
              && (!found ==>
                    result == AwaitingHotel && job.status == PendingHotel
                    && klaviyo.sent == old(klaviyo.sent)
                         + [Mail(HotelResolutionNeeded(parsed.value.hotelName, job.hotelCandidates), accepted)])
              && (found && parsed.value.deadline.None? ==>
                    result == AwaitingInfo && job.status == PendingInfo
                    && klaviyo.sent == old(klaviyo.sent) + [Mail(NeedsDeadline(parsed.value.hotelName), accepted)])
              && (found && parsed.value.deadline.Some? ==>
                    result == Monitoring && job.status == Active && job.nextCheckAt == Some(now)
                    && klaviyo.sent == old(klaviyo.sent)
                         + [Mail(BookingMonitored(parsed.value.hotelName, round(parsed.value.totalPrice),
                                                  parsed.value.deadline), accepted)])
  {
    hide MonitoringJob.Row, Stored, Ingested, Announcement;
    job := null;
    if user == null {
      var _ := klaviyo.Emit(SignupInvite(subject), accepted);
      return UnknownSender, null;
    }
    if parsed.None? { return ParseFailed, null; }
    var p := parsed.value;
    if p.refundable != Some(true) {
      var _ := klaviyo.Emit(NeedsRefundable(p.hotelName, p.checkIn), accepted);
      return NotRefundable, null;
    }
    job := CreateFromBooking(user, id, p, resolution, round, now);
    result := ResultOf(job.Row());
    RowColumns(job);
    StoredColumns(round, Ingested(id, p, resolution, now));
    IngestedRow(id, p, resolution, now);
    IngestedAnnouncement(round, id, p, resolution, now);
    var _ := klaviyo.Emit(Announcement(job.Row()), accepted);
  }
}
