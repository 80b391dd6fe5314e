/** The records of the system and the objects that hold them.

    Instants are microseconds since the Unix epoch, in UTC; calendar days are
    counted from the same epoch; money is `real`. A `Job` is the value of one
    database row, a `MonitoringJob` is the live object whose attributes the
    program assigns. */
module Models {

  const SECOND: int := 1_000_000
  const HOUR: int := 3_600 * SECOND
  const DAY: int := 24 * HOUR

  datatype Option<+T> = None | Some(value: T)

  /** How Python reads an optional string used as a condition. */
  predicate Truthy(s: Option<string>) {
    s.Some? && s.value != ""
  }

  datatype Status = PendingHotel | PendingInfo | Active | DropFound | DeadlineSoon | Expired | Cancelled

  /** Statuses the scheduler polls. */
  predicate Monitored(s: Status) {
    s.Active? || s.DropFound? || s.DeadlineSoon?
  }

  /** Holding states that become `Active` once the booking is complete. */
  predicate Pending(s: Status) {
    s.PendingHotel? || s.PendingInfo?
  }

  datatype PlanStatus = Trialing | Paying | PastDue | Canceled

  /** Active and trialing plans monitor; past-due and cancelled ones pause. */
  predicate Running(plan: PlanStatus) {
    plan.Trialing? || plan.Paying?
  }

  /** A datetime with or without an offset. `at` is the instant of an aware
      stamp, and the wall-clock reading of a naive one taken as UTC. */
  datatype Stamp = Naive(at: int) | Aware(at: int)

  function DayOf(now: int): int {
    now / DAY
  }

  datatype HotelMatch = HotelMatch(hotelId: string, name: string, city: Option<string>, confidence: real)

  /** What the hotel lookup gives back: an exception or a list of matches. */
  datatype Resolution = LookupRaised | Matches(matches: seq<HotelMatch>)

  /** Only a single high-confidence match may resolve a hotel without asking. */
  predicate Confident(r: Resolution) {
    r.Matches? && |r.matches| == 1 && r.matches[0].confidence >= 0.9
  }

  /** One bookable rate. */
  datatype Candidate = Candidate(
    ota: string,
    price: real,
    currency: string,
    board: Option<string>,
    adults: Option<int>,
    children: Option<int>,
    refundable: bool,
    link: Option<string>,
    room: Option<string>,
    freeUntil: Option<Stamp>)

  datatype Settings = Settings(floorAbs: real, floorPct: real, alertHours: int, requireLink: bool)

  const DEFAULT_SETTINGS := Settings(10.0, 0.03, 48, true)

  /** What was booked, and on what conditions. */
  datatype Terms = Terms(
    hotelName: string,
    city: Option<string>,
    checkIn: int,
    checkOut: int,
    roomType: Option<string>,
    board: Option<string>,
    adults: Option<int>,
    children: Option<int>,
    originalPrice: real,
    refundable: bool,
    deadline: Option<Stamp>)

  datatype Job = Job(
    id: int,
    status: Status,
    terms: Terms,
    hotelId: Option<string>,
    hotelCandidates: seq<HotelMatch>,
    lastCheckedAt: Option<int>,
    nextCheckAt: Option<int>,
    checkCount: int,
    currentBestPrice: Option<real>,
    currentBestOta: Option<string>,
    currentBestUrl: Option<string>,
    lowestSeenPrice: Option<real>,
    dropAlertSentAt: Option<int>,
    lowestAlertedPrice: Option<real>,
    deadlineAlertSentAt: Option<int>)

  /** A booking as first stored: nothing checked, nothing alerted. */
  function NewJob(id: int, status: Status, terms: Terms, nextCheckAt: Option<int>): Job {
    Job(id, status, terms, None, [], None, nextCheckAt, 0, None, None, None, None, None, None, None)
  }

  /** A row of the price history, with the key of the booking it belongs to. */
  datatype PriceCheck = PriceCheck(jobId: int, checkedAt: int, price: Option<real>, ota: Option<string>)

  datatype Ending = DropWasFound | NoDrop

  /** The events handed to the mail service, with the payload fields whose
      values are computed from the job. */
  datatype Event =
    | BookingMonitored(hotel: string, originalPrice: real, deadline: Option<Stamp>)
    | PriceDropFound(hotel: string, foundRoom: Option<string>, foundOn: string, oldPrice: real, newPrice: real,
                     savings: real, savingsPct: real, rebookUrl: Option<string>, hasRebookUrl: bool,
                     deadline: Option<Stamp>)
    | DeadlineApproaching(hotel: string, deadline: Option<Stamp>, checksDone: int, lowestSeen: Option<real>,
                          sawMovement: bool, checkUrl: Option<string>, hasCheckUrl: bool)
    | MonitoringEnded(hotel: string, bestSavingsSeen: real, outcome: Ending)
    | SignupInvite(subject: string)
    | NeedsRefundable(hotel: string, checkIn: int)
    | NeedsDeadline(hotel: string)
    | HotelResolutionNeeded(hotel: string, candidates: seq<HotelMatch>)

  /** An event and whether the mail service took it. */
  datatype Mail = Mail(event: Event, delivered: bool)

  // ---------------------------------------------------------------- money

  function RoundOption(round: real -> real, p: Option<real>): Option<real> {
    if p.Some? then Some(round(p.value)) else None
  }

  /** What a commit followed by a reload does to a row: the money columns come
      back with the precision of their column type. */
  function Stored(round: real -> real, j: Job): Job {
    j.(terms := j.terms.(originalPrice := round(j.terms.originalPrice)),
       currentBestPrice := RoundOption(round, j.currentBestPrice),
       lowestSeenPrice := RoundOption(round, j.lowestSeenPrice),
       lowestAlertedPrice := RoundOption(round, j.lowestAlertedPrice))
  }

  function StoredRow(round: real -> real, row: PriceCheck): PriceCheck {
    row.(price := RoundOption(round, row.price))
  }

  function StoredRows(round: real -> real, rows: seq<PriceCheck>): seq<PriceCheck> {
    seq(|rows|, i requires 0 <= i < |rows| => StoredRow(round, rows[i]))
  }

  // ---------------------------------------------------------------- objects

  class User {
    const email: string
    var plan: PlanStatus

    constructor (email: string, plan: PlanStatus)
      ensures this.email == email && this.plan == plan
    {
      this.email, this.plan := email, plan;
    }

    predicate CanMonitor()
      reads this
      ensures CanMonitor() <==> plan in {Trialing, Paying}
    {
      Running(plan)
    }
  }

  class MonitoringJob {
    const user: User
    const id: int
    var status: Status
    const hotelName: string
    var hotelId: Option<string>
    var hotelCandidates: seq<HotelMatch>
    var city: Option<string>
    const checkIn: int
    const checkOut: int
    var roomType: Option<string>
    var board: Option<string>
    var adults: Option<int>
    var children: Option<int>
    var originalPrice: real
    var refundable: bool
    var deadline: Option<Stamp>
    var lastCheckedAt: Option<int>
    var nextCheckAt: Option<int>
    var checkCount: int
    var currentBestPrice: Option<real>
    var currentBestOta: Option<string>
    var currentBestUrl: Option<string>
    var lowestSeenPrice: Option<real>
    var dropAlertSentAt: Option<int>
    var lowestAlertedPrice: Option<real>
    var deadlineAlertSentAt: Option<int>

    constructor (user: User, j: Job)
      ensures this.user == user && Row() == j
    {
      this.user := user;
      id := j.id;
      status, hotelId, hotelCandidates := j.status, j.hotelId, j.hotelCandidates;
      hotelName, city, checkIn, checkOut := j.terms.hotelName, j.terms.city, j.terms.checkIn, j.terms.checkOut;
      roomType, board, adults, children := j.terms.roomType, j.terms.board, j.terms.adults, j.terms.children;
      originalPrice, refundable, deadline := j.terms.originalPrice, j.terms.refundable, j.terms.deadline;
      lastCheckedAt, nextCheckAt, checkCount := j.lastCheckedAt, j.nextCheckAt, j.checkCount;
      currentBestPrice, currentBestOta, currentBestUrl := j.currentBestPrice, j.currentBestOta, j.currentBestUrl;
      lowestSeenPrice, dropAlertSentAt := j.lowestSeenPrice, j.dropAlertSentAt;
      lowestAlertedPrice, deadlineAlertSentAt := j.lowestAlertedPrice, j.deadlineAlertSentAt;
    }

    function Booked(): Terms
      reads this
    {
      Terms(hotelName, city, checkIn, checkOut, roomType, board, adults, children, originalPrice,
            refundable, deadline)
    }

    /** The row this object currently stands for. */
    function Row(): Job
      reads this
    {
      Job(id, status, Booked(), hotelId, hotelCandidates, lastCheckedAt, nextCheckAt, checkCount, currentBestPrice,
          currentBestOta, currentBestUrl, lowestSeenPrice, dropAlertSentAt, lowestAlertedPrice, deadlineAlertSentAt)
    }

    /** What a commit and reload leave in the object: the money columns at
        column precision. */
    method Reload(round: real -> real)
      modifies this`originalPrice, this`currentBestPrice, this`lowestSeenPrice, this`lowestAlertedPrice
      ensures originalPrice == round(old(originalPrice))
      ensures currentBestPrice == RoundOption(round, old(currentBestPrice))
      ensures lowestSeenPrice == RoundOption(round, old(lowestSeenPrice))
      ensures lowestAlertedPrice == RoundOption(round, old(lowestAlertedPrice))
    {
      originalPrice := round(originalPrice);
      currentBestPrice := RoundOption(round, currentBestPrice);
      lowestSeenPrice := RoundOption(round, lowestSeenPrice);
      lowestAlertedPrice := RoundOption(round, lowestAlertedPrice);
    }

    /** What a rollback does to an object the scheduler has worked on: the
        columns the scheduler writes go back to the stored row. */
    method Rollback(j: Job)
      modifies this`status, this`hotelId, this`lastCheckedAt, this`nextCheckAt, this`checkCount,
               this`currentBestPrice, this`currentBestOta, this`currentBestUrl, this`lowestSeenPrice,
               this`dropAlertSentAt, this`lowestAlertedPrice, this`deadlineAlertSentAt
      ensures status == j.status && hotelId == j.hotelId
      ensures lastCheckedAt == j.lastCheckedAt && nextCheckAt == j.nextCheckAt && checkCount == j.checkCount
      ensures currentBestPrice == j.currentBestPrice && currentBestOta == j.currentBestOta
      ensures currentBestUrl == j.currentBestUrl && lowestSeenPrice == j.lowestSeenPrice
      ensures dropAlertSentAt == j.dropAlertSentAt && lowestAlertedPrice == j.lowestAlertedPrice
      ensures deadlineAlertSentAt == j.deadlineAlertSentAt
    {
      status, hotelId := j.status, j.hotelId;
      lastCheckedAt, nextCheckAt, checkCount := j.lastCheckedAt, j.nextCheckAt, j.checkCount;
      currentBestPrice, currentBestOta, currentBestUrl := j.currentBestPrice, j.currentBestOta, j.currentBestUrl;
      lowestSeenPrice, dropAlertSentAt := j.lowestSeenPrice, j.dropAlertSentAt;
      lowestAlertedPrice, deadlineAlertSentAt := j.lowestAlertedPrice, j.deadlineAlertSentAt;
    }
  }

  /** The price history, and the inserts a transaction has not committed yet. */
  class Session {
    var rows: seq<PriceCheck>
    var pending: seq<PriceCheck>

    constructor ()
      ensures rows == [] && pending == []
    {
      rows, pending := [], [];
    }

    method Add(row: PriceCheck)
      modifies this`pending
      ensures pending == old(pending) + [row]
    {
      pending := pending + [row];
    }

    method Commit(round: real -> real)
      modifies this
      ensures rows == old(rows) + StoredRows(round, old(pending)) && pending == []
    {
      rows, pending := rows + StoredRows(round, pending), [];
    }

    method Rollback()
      modifies this`pending
      ensures pending == []
    {
      pending := [];
    }
  }

  /** The mail service. Whether it accepts an event is decided outside. */
  class Klaviyo {
    var sent: seq<Mail>

    constructor ()
      ensures sent == []
    {
      sent := [];
    }

    method Emit(event: Event, accepted: bool) returns (delivered: bool)
      modifies this
      ensures delivered == accepted
      ensures sent == old(sent) + [Mail(event, accepted)]
    {
      sent := sent + [Mail(event, accepted)];
      delivered := accepted;
    }
  }
}
