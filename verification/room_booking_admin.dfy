/** `RoomBookingAdminService`: the admin views of room bookings (personal
    fields masked without consent), the filter of the list, and the two
    status-changing actions. */
module RoomBookingAdmin {
  import opened Wrappers
  import opened JavaText
  import opened RoomBookings

  /** `RoomBookingAdminDto.Summary`; `createdAt` is the instant itself, null
      when the entity has none. */
  datatype Summary = Summary(id: Option<string>, nameOrMasked: string, mobile: string,
                             checkInDate: LocalDate, peopleCount: int32, consentToStore: bool,
                             status: string, createdAt: Option<Instant>)

  /** `RoomBookingAdminDto.Detail`. */
  datatype Detail = Detail(id: Option<string>, nameOrMasked: string, mobile: string,
                           emailOrMasked: string, peopleCount: int32, checkInDate: LocalDate,
                           notesOrMasked: string, consentToStore: bool, status: string,
                           createdAt: Option<Instant>)

  /** `RoomBookingAdminDto.ActionResponse`. */
  datatype ActionResponse = ActionResponse(bookingId: string, status: string)

  /** What a personal field shows when the guest did not consent. */
  const NoConsent: string := "(no consent)"

  const StatusRequired: string := "status is required"
  const BookingNotFound: string := "Booking not found"

  /** The message of a status that names no constant; it quotes the input
      as given, before trimming and upper-casing. */
  function InvalidStatus(s: string): string {
    "Invalid status: " + s + " (use NEW, EMAIL_SENT, EMAIL_FAILED)"
  }

  /** `safe`: a missing or blank value shows as "-". */
  function Safe(s: Option<string>): (r: string)
    ensures !IsBlank(r)
    ensures r == "-" <==> (s.None? || IsBlank(s.value) || s.value == "-")
    ensures r != "-" ==> s == Some(r)
  {
    if s.None? || IsBlank(s.value) then
      assert !IsWhitespace("-"[0]);
      "-"
    else s.value
  }

  /** `parseStatus`: null is refused; otherwise the constant named by the
      trimmed, upper-cased text, or a refusal quoting the text. */
  function ParseStatus(s: Option<string>): (r: Result<Status, Exception>)
    ensures s.None? ==> r == Failure(Runtime(StatusRequired))
    ensures s.Some? && r.Failure? ==> r.error == Runtime(InvalidStatus(s.value))
    ensures r.Success? ==> s.Some? && r.value.Name() == ToUpper(Trim(s.value))
    ensures s.Some? ==> (r.Success? <==> exists st: Status :: st.Name() == ToUpper(Trim(s.value)))
  {
    if s.None? then Failure(Runtime(StatusRequired))
    else
      match ValueOf(ToUpper(Trim(s.value)))
      case Some(st) => Success(st)
      case None => Failure(Runtime(InvalidStatus(s.value)))
  }

  /** `parseStatusOrNull`: null, blank and unknown text all give no status. */
  function ParseStatusOrNull(s: Option<string>): (r: Option<Status>)
    ensures s.None? ==> r.None?
    ensures s.Some? && IsBlank(s.value) ==> r.None?
    ensures r.Some? ==> r.value.Name() == ToUpper(Trim(s.value))
    ensures s.Some? ==> (r.Some? <==> exists st: Status :: st.Name() == ToUpper(Trim(s.value)))
  {
    if s.None? then None
    else if IsBlank(s.value) then
      TrimmedBlankStartsNonAscii(s.value);
      None
    else ValueOf(ToUpper(Trim(s.value)))
  }

  /** The two parsers accept the same texts with the same result: the
      blank-text guard of the lenient one only short-cuts texts the strict
      one refuses anyway. */
  lemma ParsersAgree(s: Option<string>, st: Status)
    ensures ParseStatusOrNull(s) == Some(st) <==> ParseStatus(s) == Success(st)
    ensures ParseStatusOrNull(s).None? <==> ParseStatus(s).Failure?
  {
    if s.Some? && IsBlank(s.value) {
      TrimmedBlankStartsNonAscii(s.value);
    }
  }

  /** A constant's name is made of upper-case ASCII letters and '_'. */
  lemma NameLetters(st: Status)
    ensures var n := st.Name();
            |n| > 0 && forall i | 0 <= i < |n| :: 'A' <= n[i] <= 'Z' || n[i] == '_'
  {
  }

  /** An upper-case ASCII letter or '_' survives lower- then upper-casing
      and stays above U+0020. */
  lemma UpperLetter(c: char)
    requires 'A' <= c <= 'Z' || c == '_'
    ensures UpperChar(LowerChar(c)) == c == UpperChar(c)
    ensures !Trimmable(c) && !Trimmable(LowerChar(c))
  {
  }

  /** A word of upper-case ASCII letters and '_' is its own upper case, and
      the upper case of its lower case, and its own trim in either case. */
  lemma UpperWord(n: string)
    requires |n| > 0 && forall i | 0 <= i < |n| :: 'A' <= n[i] <= 'Z' || n[i] == '_'
    ensures ToUpper(ToLower(n)) == n == ToUpper(n)
    ensures Trim(n) == n && Trim(ToLower(n)) == ToLower(n)
  {
    var l := ToLower(n);
    forall i | 0 <= i < |n| ensures ToUpper(l)[i] == n[i] && ToUpper(n)[i] == n[i] {
      UpperLetter(n[i]);
    }
    UpperLetter(n[0]);
    UpperLetter(n[|n| - 1]);
    TrimKeeps(n);
    TrimKeeps(l);
  }

  /** Upper-casing restores a name from its lower-case form, and a name
      is its own trim. */
  lemma NameCaseRoundTrip(st: Status)
    ensures ToUpper(ToLower(st.Name())) == st.Name() == ToUpper(st.Name())
    ensures Trim(st.Name()) == st.Name() && Trim(ToLower(st.Name())) == ToLower(st.Name())
  {
    NameLetters(st);
    UpperWord(st.Name());
  }

  /** Each constant is accepted by its own name. */
  lemma StatusNameParses(st: Status)
    ensures ParseStatus(Some(st.Name())) == Success(st)
    ensures ParseStatusOrNull(Some(st.Name())) == Some(st)
  {
    NameCaseRoundTrip(st);
    ValueOfName(st);
    ParsersAgree(Some(st.Name()), st);
  }

  /** The lower case of such a word, with any trimmable padding on either
      side, trims and upper-cases to the word. */
  lemma PaddedWordNormalizes(n: string, p: string, q: string)
    requires |n| > 0 && forall i | 0 <= i < |n| :: 'A' <= n[i] <= 'Z' || n[i] == '_'
    requires AllTrimmable(p) && AllTrimmable(q)
    ensures ToUpper(Trim(p + ToLower(n) + q)) == n
  {
    var l := ToLower(n);
    assert !Trimmable(l[0]) && !Trimmable(l[|l| - 1]) by {
      UpperLetter(n[0]);
      UpperLetter(n[|n| - 1]);
    }
    TrimPadded(p, l, q);
    UpperWord(n);
  }

  /** Each constant is accepted by its name in lower case, with any padding
      of characters at or below U+0020 (spaces, tabs, newlines) on either
      side, by both parsers. */
  lemma PaddedLowerCaseParses(st: Status, p: string, q: string)
    requires AllTrimmable(p) && AllTrimmable(q)
    ensures ParseStatus(Some(p + ToLower(st.Name()) + q)) == Success(st)
    ensures ParseStatusOrNull(Some(p + ToLower(st.Name()) + q)) == Some(st)
  {
    var s := p + ToLower(st.Name()) + q;
    NameLetters(st);
    PaddedWordNormalizes(st.Name(), p, q);
    ValueOfName(st);
    ParsersAgree(Some(s), st);
  }

  /** The repository query `list` runs. */
  datatype BookingQuery =
    | ByStatusBetween(st: Status, from: LocalDate, to: LocalDate)  // by check-in date, ascending
    | Between(from: LocalDate, to: LocalDate)                      // by check-in date, ascending
    | ByStatus(st: Status)                                         // by creation time, newest first
    | All                                                          // by creation time, newest first

  /** The choice of `list`: a date range only when both ends are given, a
      status only when it parses. */
  function ListQuery(status: Option<string>, from: Option<LocalDate>, to: Option<LocalDate>): (q: BookingQuery)
    ensures (q.ByStatusBetween? || q.Between?) <==> from.Some? && to.Some?
    ensures (q.ByStatusBetween? || q.ByStatus?) <==> ParseStatusOrNull(status).Some?
    ensures q.ByStatusBetween? || q.ByStatus? ==> Some(q.st) == ParseStatusOrNull(status)
    ensures q.ByStatusBetween? || q.Between? ==> q.from == from.value && q.to == to.value
  {
    var st := ParseStatusOrNull(status);
    if from.Some? && to.Some? && st.Some? then ByStatusBetween(st.value, from.value, to.value)
    else if from.Some? && to.Some? then Between(from.value, to.value)
    else if st.Some? then ByStatus(st.value)
    else All
  }

  /** The rows a query returns; `Between` is inclusive at both ends. */
  predicate Selects(q: BookingQuery, b: BookingRow) {
    match q
    case ByStatusBetween(st, from, to) => b.status == st && from <= b.checkInDate <= to
    case Between(from, to) => from <= b.checkInDate <= to
    case ByStatus(st) => b.status == st
    case All => true
  }

  /** What `list` filters on: the parsed status when there is one, the
      check-in range when both ends are given; an unknown or blank status
      or a lone bound filters nothing. */
  lemma ListFilters(status: Option<string>, from: Option<LocalDate>, to: Option<LocalDate>, b: BookingRow)
    ensures var st := ParseStatusOrNull(status);
            Selects(ListQuery(status, from, to), b)
            <==> (&& (st.Some? ==> b.status == st.value)
                  && (from.Some? && to.Some? ==> from.value <= b.checkInDate <= to.value))
  {
  }

  /** `toSummary`. */
  function ToSummary(b: BookingRow): (s: Summary)
    ensures s.id == b.id && s.status == b.status.Name() && s.consentToStore == b.consentToStore
    ensures s.mobile == Safe(Some(b.mobile))
    ensures s.createdAt.None? <==> b.createdAt.None?
  {
    Summary(b.id, if b.consentToStore then Safe(Some(b.name)) else NoConsent,
            Safe(Some(b.mobile)), b.checkInDate, b.peopleCount, b.consentToStore,
            b.status.Name(), b.createdAt)
  }

  /** `toDetail`. */
  function ToDetail(b: BookingRow): (d: Detail)
    ensures d.id == b.id && d.status == b.status.Name() && d.consentToStore == b.consentToStore
    ensures d.mobile == Safe(Some(b.mobile))
    ensures d.createdAt.None? <==> b.createdAt.None?
  {
    Detail(b.id, if b.consentToStore then Safe(Some(b.name)) else NoConsent,
           Safe(Some(b.mobile)), if b.consentToStore then Safe(b.email) else NoConsent,
           b.peopleCount, b.checkInDate, if b.consentToStore then Safe(b.notes) else NoConsent,
           b.consentToStore, b.status.Name(), b.createdAt)
  }

  /** Without consent the views show "(no consent)" for name, email and
      notes and do not depend on them at all; the mobile number is never
      masked. With consent each field is shown, or "-" when it is blank. */
  lemma ViewsMask(b: BookingRow, name: string, email: Option<string>, notes: Option<string>)
    ensures !b.consentToStore ==>
              (&& ToDetail(b).nameOrMasked == ToDetail(b).emailOrMasked == ToDetail(b).notesOrMasked == NoConsent
               && ToSummary(b).nameOrMasked == NoConsent
               && ToDetail(b.(name := name, email := email, notes := notes)) == ToDetail(b)
               && ToSummary(b.(name := name, email := email, notes := notes)) == ToSummary(b))
    ensures b.consentToStore ==>
              (&& ToDetail(b).nameOrMasked == ToSummary(b).nameOrMasked == Safe(Some(b.name))
               && ToDetail(b).emailOrMasked == Safe(b.email)
               && ToDetail(b).notesOrMasked == Safe(b.notes))
    ensures ToDetail(b).mobile == ToSummary(b).mobile == (if IsBlank(b.mobile) then "-" else b.mobile)
  {
  }

  /** The list view: one summary per returned row, in the query's order. */
  function Summaries(items: seq<BookingRow>): (r: seq<Summary>)
    ensures |r| == |items|
    ensures forall i | 0 <= i < |items| :: r[i].id == items[i].id && r[i].status == items[i].status.Name()
    ensures forall i | 0 <= i < |items| :: !items[i].consentToStore ==> r[i].nameOrMasked == NoConsent
  {
    seq(|items|, i requires 0 <= i < |items| => ToSummary(items[i]))
  }

  /** `get(id)`. */
  function GetStep(rows: map<string, BookingRow>, id: string): (r: Result<Detail, Exception>)
    ensures r.Failure? <==> id !in rows
    ensures r.Failure? ==> r.error == Runtime(BookingNotFound)
    ensures r.Success? ==> r.value == ToDetail(rows[id])
  {
    if id !in rows then Failure(Runtime(BookingNotFound)) else Success(ToDetail(rows[id]))
  }

  /** `updateStatus(id, req)`: the booking is looked up first, so an unknown
      id is reported even when the status is also missing or invalid. */
  function UpdateStatusStep(rows: map<string, BookingRow>, id: string, status: Option<string>)
    : (t: BookingTransition<ActionResponse>)
    ensures t.result.Failure? ==> t.rows == rows
    ensures t.result.Success? ==> t.rows.Keys == rows.Keys
    ensures forall k | k in rows && k != id :: k in t.rows && t.rows[k] == rows[k]
  {
    if id !in rows then BookingTransition(Failure(Runtime(BookingNotFound)), rows)
    else
      match ParseStatus(status)
      case Failure(e) => BookingTransition(Failure(e), rows)
      case Success(st) => BookingTransition(Success(ActionResponse(id, st.Name())),
                                            rows[id := rows[id].(status := st)])
  }

  /** The refusals of `updateStatus`, in order, and its effect: the parsed
      status replaces the old one, every other field is kept, and the
      response echoes id and new status. */
  lemma UpdateStatusOutcome(rows: map<string, BookingRow>, id: string, status: Option<string>)
    ensures var t := UpdateStatusStep(rows, id, status);
            && (id !in rows ==> t.result == Failure(Runtime(BookingNotFound)))
            && (id in rows && status.None? ==> t.result == Failure(Runtime(StatusRequired)))
            && (id in rows && status.Some? && ParseStatus(status).Failure? ==>
                  t.result == Failure(Runtime(InvalidStatus(status.value))))
            && (t.result.Success? <==> id in rows && ParseStatus(status).Success?)
            && (t.result.Success? ==>
                  (&& t.rows[id] == rows[id].(status := ParseStatus(status).value)
                   && t.result.value == ActionResponse(id, t.rows[id].status.Name())
                   && ToUpper(Trim(status.value)) == t.result.value.status))
  {
  }

  /** `resendEmail(id)`: mail the booking again; the status records whether
      that worked. */
  function ResendStep(rows: map<string, BookingRow>, id: string, mailSent: bool)
    : (t: BookingTransition<ActionResponse>)
    ensures t.result.Failure? <==> id !in rows
    ensures t.result.Failure? ==> t.result.error == Runtime(BookingNotFound) && t.rows == rows
    ensures t.result.Success? ==> t.rows.Keys == rows.Keys
    ensures forall k | k in rows && k != id :: k in t.rows && t.rows[k] == rows[k]
  {
    if id !in rows then BookingTransition(Failure(Runtime(BookingNotFound)), rows)
    else
      var st := MailOutcome(mailSent);
      BookingTransition(Success(ActionResponse(id, st.Name())), rows[id := rows[id].(status := st)])
  }

  /** A resend leaves the booking EMAIL_SENT exactly when the mail went out,
      whatever its status was, and agrees with an admin setting that status
      by hand; resending twice with the same outcome is resending once. */
  lemma ResendOutcome(rows: map<string, BookingRow>, id: string, mailSent: bool)
    requires id in rows
    ensures var t := ResendStep(rows, id, mailSent);
            && (t.rows[id].status == EMAIL_SENT <==> mailSent)
            && t.rows[id].status != NEW
            && t.rows[id] == rows[id].(status := t.rows[id].status)
            && t.result.value.status == t.rows[id].status.Name()
            && t == UpdateStatusStep(rows, id, Some(t.rows[id].status.Name()))
            && ResendStep(t.rows, id, mailSent) == t
  {
    var st := MailOutcome(mailSent);
    StatusNameParses(st);
    var t := ResendStep(rows, id, mailSent);
    assert t.rows[id] == rows[id].(status := st);
    assert t.rows[id := rows[id].(status := st)] == t.rows;
  }

  /** Status changes keep the table well formed. */
  lemma StatusChangesKeepStored(rows: map<string, BookingRow>, id: string, status: Option<string>, mailSent: bool)
    requires StoredBookings(rows)
    ensures StoredBookings(UpdateStatusStep(rows, id, status).rows)
    ensures StoredBookings(ResendStep(rows, id, mailSent).rows)
  {
  }

  class RoomBookingAdminService {
    const repo: RoomBookingRepository

    constructor(repo: RoomBookingRepository)
      ensures this.repo == repo
    {
      this.repo := repo;
    }

    /** `get(id)`. */
    method Get(id: string) returns (r: Result<Detail, Exception>)
      ensures r == GetStep(repo.rows, id)
    {
      var b := repo.FindById(id);
      if b.None? {
        return Failure(Runtime(BookingNotFound));
      }
      r := Success(ToDetail(b.value.Row()));
    }

    /** `updateStatus(id, req)`: find, parse, set, save. */
    method UpdateStatus(id: string, status: Option<string>, now: Instant)
      returns (r: Result<ActionResponse, Exception>)
      requires repo.Valid()
      modifies repo
      ensures repo.Valid()
      ensures BookingTransition(r, repo.rows) == UpdateStatusStep(old(repo.rows), id, status)
      ensures r.Failure? ==> repo.saves == old(repo.saves)
      ensures r.Success? ==> repo.saves == old(repo.saves) + [repo.rows[id]]
    {
      var found := repo.FindById(id);
      if found.None? {
        return Failure(Runtime(BookingNotFound));
      }
      var b := found.value;
      var parsed := ParseStatus(status);
      if parsed.Failure? {
        return Failure(parsed.error);
      }
      b.SetStatus(parsed.value);
      repo.Save(b, id, now);
      r := Success(ActionResponse(b.id.value, b.status.Name()));
    }

    /** `resendEmail(id)`; `mailSent` is whether `sendNewBookingEmail`
        returned normally. */
    method ResendEmail(id: string, mailSent: bool, now: Instant)
      returns (r: Result<ActionResponse, Exception>)
      requires repo.Valid()
      modifies repo
      ensures repo.Valid()
      ensures BookingTransition(r, repo.rows) == ResendStep(old(repo.rows), id, mailSent)
      ensures r.Failure? ==> repo.saves == old(repo.saves)
      ensures r.Success? ==> repo.saves == old(repo.saves) + [repo.rows[id]]
    {
      var found := repo.FindById(id);
      if found.None? {
        return Failure(Runtime(BookingNotFound));
      }
      var b := found.value;
      if mailSent {
        b.SetStatus(EMAIL_SENT);
        repo.Save(b, id, now);
        r := Success(ActionResponse(b.id.value, b.status.Name()));
      } else {
        b.SetStatus(EMAIL_FAILED);
        repo.Save(b, id, now);
        r := Success(ActionResponse(b.id.value, b.status.Name()));
      }
    }
  }
}
