/** The `RoomBooking` entity, its repository, and `RoomBookingService.create`:
    a booking is stored as NEW, then marked EMAIL_SENT or EMAIL_FAILED by
    the outcome of the notification mail. */
module RoomBookings {
  import opened Wrappers

  /** `RoomBooking.Status`. */
  datatype Status = NEW | EMAIL_SENT | EMAIL_FAILED {
    /** `Enum.name()`. */
    function Name(): (r: string)
      ensures r == "NEW" || r == "EMAIL_SENT" || r == "EMAIL_FAILED"
    {
      match this
      case NEW => "NEW"
      case EMAIL_SENT => "EMAIL_SENT"
      case EMAIL_FAILED => "EMAIL_FAILED"
    }
  }

  /** `Status.valueOf`: the constant with exactly that name, if any. */
  function ValueOf(name: string): (r: Option<Status>)
    ensures r.Some? ==> r.value.Name() == name
    ensures r.None? ==> name != "NEW" && name != "EMAIL_SENT" && name != "EMAIL_FAILED"
  {
    if name == "NEW" then Some(NEW)
    else if name == "EMAIL_SENT" then Some(EMAIL_SENT)
    else if name == "EMAIL_FAILED" then Some(EMAIL_FAILED)
    else None
  }

  /** `valueOf` inverts `name`. */
  lemma ValueOfName(st: Status)
    ensures ValueOf(st.Name()) == Some(st)
  {
  }

  /** A row of `room_bookings`. `email` and `notes` are nullable columns. */
  datatype BookingRow = BookingRow(id: Option<string>, name: string, mobile: string, email: Option<string>,
                                   peopleCount: int32, checkInDate: LocalDate, notes: Option<string>,
                                   consentToStore: bool, status: Status, createdAt: Option<Instant>)

  /** `RoomBookingDto.CreateRequest`, as validated by the controller. */
  datatype CreateRequest = CreateRequest(name: string, mobile: string, email: Option<string>,
                                         peopleCount: int32, checkInDate: LocalDate, notes: Option<string>,
                                         consentToStore: bool)

  /** `RoomBookingDto.CreateResponse`. */
  datatype CreateResponse = CreateResponse(bookingId: string, status: string)

  /** The outcome of a service call on the bookings table. */
  datatype BookingTransition<T> = BookingTransition(result: Result<T, Exception>, rows: map<string, BookingRow>)

  /** The row a stored booking must be: keyed by its id, creation time set. */
  predicate StoredBookings(rows: map<string, BookingRow>) {
    forall id | id in rows :: rows[id].id == Some(id) && rows[id].createdAt.Some?
  }

  class RoomBooking {
    var id: Option<string>
    var name: string
    var mobile: string
    var email: Option<string>
    var peopleCount: int32
    var checkInDate: LocalDate
    var notes: Option<string>
    var consentToStore: bool
    var status: Status
    var createdAt: Option<Instant>

    function Row(): BookingRow
      reads this
    {
      BookingRow(id, name, mobile, email, peopleCount, checkInDate, notes, consentToStore, status, createdAt)
    }

    /** `RoomBooking.builder()...build()` from a request, in status NEW. */
    constructor Build(req: CreateRequest, status: Status)
      ensures Row() == BookingRow(None, req.name, req.mobile, req.email, req.peopleCount, req.checkInDate,
                                  req.notes, req.consentToStore, status, None)
    {
      id := None;
      name := req.name;
      mobile := req.mobile;
      email := req.email;
      peopleCount := req.peopleCount;
      checkInDate := req.checkInDate;
      notes := req.notes;
      consentToStore := req.consentToStore;
      this.status := status;
      createdAt := None;
    }

    /** The entity the persistence layer hydrates from a stored row. */
    constructor Load(row: BookingRow)
      ensures Row() == row
    {
      id := row.id;
      name := row.name;
      mobile := row.mobile;
      email := row.email;
      peopleCount := row.peopleCount;
      checkInDate := row.checkInDate;
      notes := row.notes;
      consentToStore := row.consentToStore;
      status := row.status;
      createdAt := row.createdAt;
    }

    /** `setStatus`. */
    method SetStatus(st: Status)
      modifies this`status
      ensures Row() == old(Row()).(status := st)
    {
      status := st;
    }

    /** `@PrePersist onCreate`: sets `createdAt` only when it is null. */
    method OnCreate(now: Instant)
      modifies this`createdAt
      ensures createdAt == if old(createdAt).None? then Some(now) else old(createdAt)
      ensures Row() == old(Row()).(createdAt := createdAt)
    {
      if createdAt.None? {
        createdAt := Some(now);
      }
    }
  }

  /** `RoomBookingRepository`. `saves` records every row written, in order,
      so that the intermediate NEW row of `create` stays observable. */
  class RoomBookingRepository {
    var rows: map<string, BookingRow>
    ghost var saves: seq<BookingRow>

    ghost predicate Valid()
      reads this
    {
      StoredBookings(rows)
    }

    constructor()
      ensures Valid() && rows == map[] && saves == []
    {
      rows := map[];
      saves := [];
    }

    /** `findById`. */
    method FindById(id: string) returns (b: Option<RoomBooking>)
      ensures b.Some? <==> id in rows
      ensures b.Some? ==> fresh(b.value) && b.value.Row() == rows[id]
    {
      if id in rows {
        var entity := new RoomBooking.Load(rows[id]);
        return Some(entity);
      }
      return None;
    }

    /** `save`: a new entity gets the generated id and runs `onCreate`; an
      existing one is written back as it is. */
    method Save(b: RoomBooking, freshId: string, now: Instant)
      requires Valid()
      requires b.id.Some? ==> b.id.value in rows && b.createdAt.Some?
      requires b.id.None? ==> freshId !in rows
      modifies this, b
      ensures Valid()
      ensures old(b.id).None? ==> b.Row() == Persisted(old(b.Row()), freshId, now)
      ensures old(b.id).Some? ==> b.Row() == old(b.Row())
      ensures b.id.Some? && rows == old(rows)[b.id.value := b.Row()]
      ensures saves == old(saves) + [b.Row()]
    {
      if b.id.None? {
        b.id := Some(freshId);
        b.OnCreate(now);
      }
      rows := rows[b.id.value := b.Row()];
      saves := saves + [b.Row()];
    }
  }

  /** A new booking as `save` inserts it: the generated id, and `createdAt`
      from `onCreate` when it was still null. */
  function Persisted(row: BookingRow, id: string, now: Instant): (r: BookingRow)
    ensures r.id == Some(id) && r.createdAt.Some?
    ensures row.createdAt.Some? ==> r.createdAt == row.createdAt
    ensures r.(id := row.id, createdAt := row.createdAt) == row
  {
    row.(id := Some(id), createdAt := if row.createdAt.None? then Some(now) else row.createdAt)
  }

  /** The row `create` stores first. */
  function NewBooking(req: CreateRequest, id: string, now: Instant): BookingRow {
    BookingRow(Some(id), req.name, req.mobile, req.email, req.peopleCount, req.checkInDate,
               req.notes, req.consentToStore, NEW, Some(now))
  }

  /** The status the mail attempt leaves: sent when the mail service
      returns, failed when it throws. */
  function MailOutcome(mailSent: bool): Status {
    if mailSent then EMAIL_SENT else EMAIL_FAILED
  }

  /** `create` on the bookings table: the booking under the generated id, in
      the status the mail attempt left. The call never throws. */
  function CreateStep(rows: map<string, BookingRow>, req: CreateRequest, mailSent: bool,
                      freshId: string, now: Instant): (t: BookingTransition<CreateResponse>)
    ensures t.result.Success? && t.rows.Keys == rows.Keys + {freshId}
    ensures forall id | id in rows && id != freshId :: t.rows[id] == rows[id]
  {
    BookingTransition(Success(CreateResponse(freshId, if mailSent then "EMAIL_SENT" else "EMAIL_FAILED")),
                      rows[freshId := NewBooking(req, freshId, now).(status := MailOutcome(mailSent))])
  }

  /** The response reports the stored status, which is EMAIL_SENT exactly
      when the mail went out, EMAIL_FAILED otherwise, and never NEW; every
      request field is stored as sent, whatever the consent. */
  lemma CreateOutcome(rows: map<string, BookingRow>, req: CreateRequest, mailSent: bool,
                      freshId: string, now: Instant)
    ensures var t := CreateStep(rows, req, mailSent, freshId, now);
            var b := t.rows[freshId];
            && t.result.value.bookingId == freshId && b.id == Some(freshId)
            && t.result.value.status == b.status.Name()
            && t.result.value.status != "NEW" && b.status != NEW
            && (b.status == EMAIL_SENT <==> mailSent)
            && (t.result.value.status == "EMAIL_FAILED" <==> !mailSent)
            && b.name == req.name && b.mobile == req.mobile && b.email == req.email
            && b.peopleCount == req.peopleCount && b.checkInDate == req.checkInDate
            && b.notes == req.notes && b.consentToStore == req.consentToStore
            && b.createdAt == Some(now)
  {
  }

  /** Creating keeps the table well formed. */
  lemma CreateKeepsStored(rows: map<string, BookingRow>, req: CreateRequest, mailSent: bool,
                          freshId: string, now: Instant)
    requires StoredBookings(rows)
    ensures StoredBookings(CreateStep(rows, req, mailSent, freshId, now).rows)
  {
  }

  class RoomBookingService {
    const repo: RoomBookingRepository

    constructor(repo: RoomBookingRepository)
      ensures this.repo == repo
    {
      this.repo := repo;
    }

    /** The `try`/`catch` of `create`, on a booking already saved as NEW:
      the status the mail attempt leaves is saved and reported. */
    method RecordMailOutcome(b: RoomBooking, mailSent: bool, now: Instant)
      returns (r: Result<CreateResponse, Exception>)
      requires repo.Valid() && b.id.Some? && b.id.value in repo.rows && b.createdAt.Some?
      modifies repo, b
      ensures repo.Valid()
      ensures b.Row() == old(b.Row()).(status := MailOutcome(mailSent))
      ensures repo.rows == old(repo.rows)[b.id.value := b.Row()]
      ensures repo.saves == old(repo.saves) + [b.Row()]
      ensures r == Success(CreateResponse(b.id.value, if mailSent then "EMAIL_SENT" else "EMAIL_FAILED"))
    {
      if mailSent {
        b.SetStatus(EMAIL_SENT);
        repo.Save(b, b.id.value, now);
        r := Success(CreateResponse(b.id.value, "EMAIL_SENT"));
      } else {
        b.SetStatus(EMAIL_FAILED);
        repo.Save(b, b.id.value, now);
        r := Success(CreateResponse(b.id.value, "EMAIL_FAILED"));
      }
    }

    /** `create(req)`: save the booking as NEW, try the mail, then save
      again with the status the attempt left. `mailSent` is whether
      `sendNewBookingEmail` returned normally. */
    method Create(req: CreateRequest, mailSent: bool, freshId: string, now: Instant)
      returns (r: Result<CreateResponse, Exception>)
      requires repo.Valid() && freshId !in repo.rows
      modifies repo
      ensures repo.Valid()
      ensures BookingTransition(r, repo.rows) == CreateStep(old(repo.rows), req, mailSent, freshId, now)
      ensures repo.saves == old(repo.saves) + [NewBooking(req, freshId, now),
                                               NewBooking(req, freshId, now).(status := MailOutcome(mailSent))]
    {
      var b := new RoomBooking.Build(req, NEW);
      repo.Save(b, freshId, now);
      assert b.Row() == NewBooking(req, freshId, now);
      r := RecordMailOutcome(b, mailSent, now);
    }
  }
}
