/** `EventService`: the public event feed with its weekday and tithi
    labels, and the admin `create` / `update` / `delete` that push a
    notification to every enabled device when the saved event asks for it. */
module EventServices {
  import opened Wrappers
  import opened JavaText
  import opened Events

  /** `java.time.DayOfWeek`, in its declaration order. */
  datatype DayOfWeek = MONDAY | TUESDAY | WEDNESDAY | THURSDAY | FRIDAY | SATURDAY | SUNDAY {
    /** `ordinal()`. */
    function Ordinal(): (n: nat)
      ensures n < 7
    {
      match this
      case MONDAY => 0
      case TUESDAY => 1
      case WEDNESDAY => 2
      case THURSDAY => 3
      case FRIDAY => 4
      case SATURDAY => 5
      case SUNDAY => 6
    }

    /** `name()`. */
    function Name(): string {
      match this
      case MONDAY => "MONDAY"
      case TUESDAY => "TUESDAY"
      case WEDNESDAY => "WEDNESDAY"
      case THURSDAY => "THURSDAY"
      case FRIDAY => "FRIDAY"
      case SATURDAY => "SATURDAY"
      case SUNDAY => "SUNDAY"
    }
  }

  /** `DayOfWeek.from(date)`: the epoch day 0, 1970-01-01, was a Thursday,
      so the ordinal is `floorMod(epochDay + 3, 7)` (Dafny's `%` is that
      floor modulus for the positive divisor 7). */
  function DayOf(date: LocalDate): (d: DayOfWeek)
    ensures d.Ordinal() == (date + 3) % 7
  {
    match (date + 3) % 7
    case 0 => MONDAY
    case 1 => TUESDAY
    case 2 => WEDNESDAY
    case 3 => THURSDAY
    case 4 => FRIDAY
    case 5 => SATURDAY
    case _ => SUNDAY
  }

  /** Days follow each other in order, Sunday wrapping to Monday, and the
      epoch day was a Thursday. */
  lemma DayOfNext(date: LocalDate)
    ensures DayOf(date + 1).Ordinal() == (DayOf(date).Ordinal() + 1) % 7
    ensures DayOf(date + 7) == DayOf(date)
    ensures DayOf(0) == THURSDAY
  {
    var n := date + 3;
    assert n == 7 * (n / 7) + n % 7;
    assert n + 1 == 7 * (n / 7) + (n % 7 + 1);
    assert n + 7 == 7 * (n / 7 + 1) + n % 7;
  }

  /** A day's name: upper-case ASCII letters. */
  lemma DayNameLetters(d: DayOfWeek)
    ensures var n := d.Name();
            |n| > 0 && forall i | 0 <= i < |n| :: 'A' <= n[i] <= 'Z'
  {
  }

  /** Case mapping keeps a character's whitespace-ness. */
  lemma CaseKeepsWhitespace(c: char)
    ensures IsWhitespace(LowerChar(c)) <==> IsWhitespace(c)
    ensures IsWhitespace(UpperChar(c)) <==> IsWhitespace(c)
  {
  }

  /** Lower-casing is idempotent and absorbs an upper-casing in between. */
  lemma LowerAbsorbs(c: char)
    ensures LowerChar(LowerChar(c)) == LowerChar(c)
    ensures LowerChar(UpperChar(LowerChar(c))) == LowerChar(c)
  {
  }

  /** `capitalize`: null or blank text is returned unchanged; otherwise the
      first character is upper-cased and the rest lower-cased. */
  function Capitalize(s: Option<string>): (r: Option<string>)
    ensures s.None? || IsBlank(s.value) ==> r == s
    ensures s.Some? && !IsBlank(s.value) ==>
              (&& r.Some? && |r.value| == |s.value| > 0
               && r.value[0] == UpperChar(LowerChar(s.value[0]))
               && forall i | 1 <= i < |s.value| :: r.value[i] == LowerChar(s.value[i]))
  {
    if s.None? || IsBlank(s.value) then s
    else
      var lower := ToLower(s.value);
      Some([UpperChar(lower[0])] + lower[1..])
  }

  /** Capitalizing text that is not blank yields text that is not blank. */
  lemma CapitalizeKeepsNonBlank(s: string)
    requires !IsBlank(s)
    ensures !IsBlank(Capitalize(Some(s)).value)
  {
    var r := Capitalize(Some(s)).value;
    var i :| 0 <= i < |s| && !IsWhitespace(s[i]);
    CaseKeepsWhitespace(s[i]);
    CaseKeepsWhitespace(LowerChar(s[i]));
    assert !IsWhitespace(r[i]);
  }

  /** Capitalizing twice is capitalizing once. */
  lemma CapitalizeIdempotent(s: Option<string>)
    ensures Capitalize(Capitalize(s)) == Capitalize(s)
  {
    if s.Some? && !IsBlank(s.value) {
      var v := s.value;
      var r := Capitalize(s).value;
      CapitalizeKeepsNonBlank(v);
      var rr := Capitalize(Some(r)).value;
      forall i | 0 <= i < |r| ensures rr[i] == r[i] {
        LowerAbsorbs(v[i]);
      }
      assert rr == r;
    }
  }

  /** The weekday label of a date: its day's name, capitalized. */
  function Weekday(date: LocalDate): (w: string)
    ensures |w| == |DayOf(date).Name()| > 0
    ensures w[0] == DayOf(date).Name()[0]
    ensures forall i | 1 <= i < |w| :: w[i] == LowerChar(DayOf(date).Name()[i])
  {
    var name := DayOf(date).Name();
    DayNameLetters(DayOf(date));
    assert !IsWhitespace(name[0]);
    Capitalize(Some(name)).value
  }

  const TithiNotPublished: string := "Tithi not published"

  /** The tithi label shown for an event. */
  function Tithi(given: Option<string>): (t: string)
    ensures given.None? || IsBlank(given.value) ==> t == TithiNotPublished
    ensures given.Some? && !IsBlank(given.value) ==> t == Trim(given.value)
  {
    if given.None? || IsBlank(given.value) then TithiNotPublished else Trim(given.value)
  }

  /** The fallback does not rule out an empty label: `isBlank` tests Java
      whitespace while `trim` drops every character up to U+0020, so a label
      of control characters that are not whitespace (U+0000, say) is not
      blank yet trims to the empty string. The label is empty exactly then. */
  lemma TithiEmptyOnlyForControlCharacters(given: Option<string>)
    ensures Tithi(given) == [] <==> given.Some? && !IsBlank(given.value) && Trim(given.value) == []
    ensures Tithi(Some([0 as char])) == []
  {
    assert !IsWhitespace((0 as char));
    assert [0 as char][0] == 0 as char;
    assert !IsBlank([0 as char]);
    assert TrimStart([0 as char]) == [];
  }

  /** A push notification as handed to `sendToAllEnabled`. */
  datatype Notification = Notification(title: string, body: string)

  /** The notification announcing an event: the type's name followed by
      " Event", and the title, weekday and tithi joined by bullets. */
  function NotificationFor(e: EventRow): (n: Notification)
    ensures n.title == e.eventType.Name() + " Event"
    ensures n.body == e.title + " • " + Weekday(e.eventDate) + " • " + Tithi(e.tithiLabel)
  {
    Notification(e.eventType.Name() + " Event",
                 e.title + " • " + Weekday(e.eventDate) + " • " + Tithi(e.tithiLabel))
  }

  /** The pushes a save triggers: one for the saved event exactly when its
      `notifyUsers` is set. */
  function PushesFor(saved: EventRow): (ns: seq<Notification>)
    ensures |ns| <= 1
    ensures |ns| == 1 <==> saved.notifyUsers
    ensures forall n | n in ns :: n == NotificationFor(saved)
  {
    if saved.notifyUsers then [NotificationFor(saved)] else []
  }

  /** One clause of the `Specification` that `listPublic` builds. */
  datatype Criterion =
    | IsActive
    | DateBetween(from: LocalDate, to: LocalDate)
    | TypeIs(t: EventType)
    | ScopeIs(s: EventScope)

  /** Whether an event satisfies a clause; `between` is inclusive. */
  predicate Holds(c: Criterion, e: EventRow) {
    match c
    case IsActive => e.active
    case DateBetween(from, to) => from <= e.eventDate <= to
    case TypeIs(t) => e.eventType == t
    case ScopeIs(s) => e.scope == s
  }

  /** The specification as `listPublic` assembles it: `active` always, then
      each optional clause whose parameters are present, joined by `and`. */
  function PublicCriteria(from: Option<LocalDate>, to: Option<LocalDate>,
                          eventType: Option<EventType>, scope: Option<EventScope>): (cs: seq<Criterion>)
    ensures |cs| >= 1 && cs[0] == IsActive
  {
    var spec := [IsActive];
    var spec := if from.Some? && to.Some? then spec + [DateBetween(from.value, to.value)] else spec;
    var spec := if eventType.Some? then spec + [TypeIs(eventType.value)] else spec;
    if scope.Some? then spec + [ScopeIs(scope.value)] else spec
  }

  predicate HoldsAll(cs: seq<Criterion>, e: EventRow) {
    forall i | 0 <= i < |cs| :: Holds(cs[i], e)
  }

  /** The public feed admits exactly the active events that meet each
      filter given: the date range only when both ends are present, the
      type and the scope only when present. */
  lemma PublicCriteriaMeaning(from: Option<LocalDate>, to: Option<LocalDate>,
                              eventType: Option<EventType>, scope: Option<EventScope>, e: EventRow)
    ensures HoldsAll(PublicCriteria(from, to, eventType, scope), e)
            <==> (&& e.active
                  && (from.Some? && to.Some? ==> from.value <= e.eventDate <= to.value)
                  && (eventType.Some? ==> e.eventType == eventType.value)
                  && (scope.Some? ==> e.scope == scope.value))
  {
    var cs := PublicCriteria(from, to, eventType, scope);
    if HoldsAll(cs, e) {
      assert Holds(cs[0], e);
      if from.Some? && to.Some? {
        assert Holds(cs[1], e);
      }
      if eventType.Some? {
        var k := if from.Some? && to.Some? then 2 else 1;
        assert cs[k] == TypeIs(eventType.value);
        assert Holds(cs[k], e);
      }
      if scope.Some? {
        assert cs[|cs| - 1] == ScopeIs(scope.value);
        assert Holds(cs[|cs| - 1], e);
      }
    }
  }

  /** An entry of the public feed: the event with its labels. */
  datatype PublicEvent = PublicEvent(event: EventRow, weekday: string, tithi: string)

  function Labelled(e: EventRow): PublicEvent {
    PublicEvent(e, Weekday(e.eventDate), Tithi(e.tithiLabel))
  }

  /** `listPublic` over the event table in the repository's date order:
      the events that meet the criteria, each with its labels. */
  function ListPublic(events: seq<EventRow>, cs: seq<Criterion>): (r: seq<PublicEvent>)
    ensures |r| <= |events|
    ensures forall i | 0 <= i < |r| :: HoldsAll(cs, r[i].event) && r[i].event in events && r[i] == Labelled(r[i].event)
  {
    if events == [] then []
    else
      var rest := ListPublic(events[..|events| - 1], cs);
      var e := events[|events| - 1];
      if HoldsAll(cs, e) then rest + [Labelled(e)] else rest
  }

  /** Every event meeting the criteria is listed. */
  lemma {:induction false} ListPublicComplete(events: seq<EventRow>, cs: seq<Criterion>, e: EventRow)
    requires e in events && HoldsAll(cs, e)
    ensures Labelled(e) in ListPublic(events, cs)
  {
    var last := events[|events| - 1];
    var init := events[..|events| - 1];
    if e != last {
      assert e in init by {
        assert events == init + [last];
      }
      ListPublicComplete(init, cs, e);
    }
  }

  predicate SortedByDate(events: seq<EventRow>) {
    forall i, j | 0 <= i < j < |events| :: events[i].eventDate <= events[j].eventDate
  }

  predicate FeedSorted(r: seq<PublicEvent>) {
    forall i, j | 0 <= i < j < |r| :: r[i].event.eventDate <= r[j].event.eventDate
  }

  /** The feed holds no event later than the latest event of the table. */
  lemma FeedBounded(events: seq<EventRow>, cs: seq<Criterion>, latest: LocalDate)
    requires forall k | 0 <= k < |events| :: events[k].eventDate <= latest
    ensures forall k | 0 <= k < |ListPublic(events, cs)| :: ListPublic(events, cs)[k].event.eventDate <= latest
  {
    var r := ListPublic(events, cs);
    forall k | 0 <= k < |r| ensures r[k].event.eventDate <= latest {
      assert r[k].event in events;
    }
  }

  /** The feed keeps the date order of the table it filters. */
  lemma {:induction false} ListPublicSorted(events: seq<EventRow>, cs: seq<Criterion>)
    requires SortedByDate(events)
    ensures FeedSorted(ListPublic(events, cs))
  {
    if events != [] {
      var init := events[..|events| - 1];
      var last := events[|events| - 1];
      assert SortedByDate(init);
      ListPublicSorted(init, cs);
      var rest := ListPublic(init, cs);
      FeedBounded(init, cs, last.eventDate);
      if HoldsAll(cs, last) {
        var r := rest + [Labelled(last)];
        assert ListPublic(events, cs) == r;
        forall i, j | 0 <= i < j < |r| ensures r[i].event.eventDate <= r[j].event.eventDate {
          if j == |rest| {
            assert r[i] == rest[i] && r[j].event == last;
          } else {
            assert r[i] == rest[i] && r[j] == rest[j];
          }
        }
      } else {
        assert ListPublic(events, cs) == rest;
      }
    }
  }

  /** The outcome of an event operation: what it returns or throws, the
      table afterwards, and the notifications pushed on the way. */
  datatype EventTransition = EventTransition(result: Result<EventRow, Exception>,
                                             rows: map<string, EventRow>, pushes: seq<Notification>)

  /** The row `create` stores. */
  function CreatedEvent(req: EventRequest, id: string, now: Instant): EventRow {
    EventRow(Some(id), req.title, req.description, req.eventDate, req.location, req.imageUrl,
             req.eventType, req.scope, req.notifyUsers, req.tithiLabel, req.active, Some(now))
  }

  /** `create(req)`: insert the event under the generated id, then announce
      it when it asks to be announced. */
  function CreateEventStep(rows: map<string, EventRow>, req: EventRequest, freshId: string, now: Instant)
    : (t: EventTransition)
    ensures t.result.Success? && t.rows.Keys == rows.Keys + {freshId}
    ensures forall k | k in rows && k != freshId :: t.rows[k] == rows[k]
  {
    var saved := CreatedEvent(req, freshId, now);
    EventTransition(Success(saved), rows[freshId := saved], PushesFor(saved))
  }

  /** `update(id, req)`: an unknown id throws before anything happens;
      otherwise the ten fields are overwritten, id and creation time kept. */
  function UpdateEventStep(rows: map<string, EventRow>, id: string, req: EventRequest): (t: EventTransition)
    ensures t.result.Failure? <==> id !in rows
    ensures t.result.Failure? ==> t.result.error == NoSuchElement && t.rows == rows && t.pushes == []
    ensures t.result.Success? ==> t.rows.Keys == rows.Keys
    ensures forall k | k in rows && k != id :: k in t.rows && t.rows[k] == rows[k]
  {
    if id !in rows then EventTransition(Failure(NoSuchElement), rows, [])
    else
      var saved := Applied(rows[id], req);
      EventTransition(Success(saved), rows[id := saved], PushesFor(saved))
  }

  /** `create` and `update` push one notification, for the saved event,
      exactly when the request sets `notifyUsers`; the saved event is
      returned whatever became of the push. */
  lemma NotifyIffFlag(rows: map<string, EventRow>, id: string, req: EventRequest, now: Instant)
    ensures var t := CreateEventStep(rows, req, id, now);
            && (|t.pushes| == 1 <==> req.notifyUsers) && (|t.pushes| == 0 <==> !req.notifyUsers)
            && (req.notifyUsers ==> t.pushes == [NotificationFor(t.result.value)])
            && t.result.value == t.rows[id]
    ensures var t := UpdateEventStep(rows, id, req);
            && (|t.pushes| == 1 <==> id in rows && req.notifyUsers)
            && (t.result.Success? && req.notifyUsers ==> t.pushes == [NotificationFor(t.result.value)])
  {
  }

  /** An update stores what a creation from the same request would, under
      the event's own id and creation time; repeating it changes nothing
      more in the table. */
  lemma UpdateLikeCreate(rows: map<string, EventRow>, id: string, req: EventRequest)
    requires StoredEvents(rows) && id in rows
    ensures var t := UpdateEventStep(rows, id, req);
            && t.rows[id] == CreatedEvent(req, id, rows[id].createdAt.value)
            && UpdateEventStep(t.rows, id, req).rows == t.rows
            && UpdateEventStep(t.rows, id, req).pushes == t.pushes
  {
  }

  /** `delete(id)`: the row goes, if it was there. */
  function DeleteEventStep(rows: map<string, EventRow>, id: string): (r: map<string, EventRow>)
    ensures id !in r && r.Keys == rows.Keys - {id}
    ensures forall k | k in r :: r[k] == rows[k]
  {
    rows - {id}
  }

  /** Every change keeps the table well formed. */
  lemma EventChangesKeepStored(rows: map<string, EventRow>, id: string, req: EventRequest, now: Instant)
    requires StoredEvents(rows)
    ensures StoredEvents(CreateEventStep(rows, req, id, now).rows)
    ensures StoredEvents(UpdateEventStep(rows, id, req).rows)
    ensures StoredEvents(DeleteEventStep(rows, id))
  {
  }

  class EventService {
    const repo: EventRepository
    /** Every notification handed to the push service, in order. */
    var pushes: seq<Notification>

    constructor(repo: EventRepository)
      ensures this.repo == repo && pushes == []
    {
      this.repo := repo;
      pushes := [];
    }

    /** `sendEventNotification`: builds the title and body and hands them to
        the push service; a failure there is caught and only logged. */
    method SendEventNotification(e: EventRow)
      modifies this`pushes
      ensures pushes == old(pushes) + [NotificationFor(e)]
    {
      var weekday := Capitalize(Some(DayOf(e.eventDate).Name())).value;
      var tithi := if e.tithiLabel.None? || IsBlank(e.tithiLabel.value) then TithiNotPublished
                   else Trim(e.tithiLabel.value);
      var title := e.eventType.Name() + " Event";
      var body := e.title + " • " + weekday + " • " + tithi;
      pushes := pushes + [Notification(title, body)];
    }

    /** `create(req)`. */
    method Create(req: EventRequest, freshId: string, now: Instant) returns (saved: Event)
      requires repo.Valid() && freshId !in repo.rows
      modifies repo, this`pushes
      ensures repo.Valid()
      ensures var t := CreateEventStep(old(repo.rows), req, freshId, now);
              && t.result == Success(saved.Row()) && repo.rows == t.rows && pushes == old(pushes) + t.pushes
    {
      saved := new Event.Build(req);
      repo.Save(saved, freshId, now);
      if saved.notifyUsers {
        SendEventNotification(saved.Row());
      }
    }

    /** The ten setters `update` calls, in order. */
    static method Overwrite(e: Event, req: EventRequest)
      modifies e
      ensures e.Row() == Applied(old(e.Row()), req)
    {
      e.SetTitle(req.title);
      e.SetDescription(req.description);
      e.SetEventDate(req.eventDate);
      e.SetLocation(req.location);
      e.SetImageUrl(req.imageUrl);
      e.SetType(req.eventType);
      e.SetScope(req.scope);
      e.SetNotifyUsers(req.notifyUsers);
      e.SetTithiLabel(req.tithiLabel);
      e.SetActive(req.active);
    }

    /** `update(id, req)`. */
    method Update(id: string, req: EventRequest, now: Instant) returns (r: Result<Event, Exception>)
      requires repo.Valid()
      modifies repo, this`pushes
      ensures repo.Valid()
      ensures var t := UpdateEventStep(old(repo.rows), id, req);
              && (r.Failure? <==> t.result.Failure?)
              && (r.Failure? ==> r.error == t.result.error)
              && (r.Success? ==> t.result == Success(r.value.Row()))
              && repo.rows == t.rows && pushes == old(pushes) + t.pushes
    {
      var found := repo.FindById(id);
      if found.None? {
        return Failure(NoSuchElement);
      }
      var e := found.value;
      Overwrite(e, req);
      repo.Save(e, id, now);
      if e.notifyUsers {
        SendEventNotification(e.Row());
      }
      r := Success(e);
    }

    /** `delete(id)`. */
    method Delete(id: string)
      requires repo.Valid()
      modifies repo
      ensures repo.Valid()
      ensures repo.rows == DeleteEventStep(old(repo.rows), id)
    {
      repo.DeleteById(id);
    }
  }
}
