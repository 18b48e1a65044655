/** The `Event` entity (table `events`) and the repository that stores it. */
module Events {
  import opened Wrappers

  /** `EventType`. */
  datatype EventType = ARADHANA | PARYAYA | UTSAVA | GENERAL {
    /** `Enum.name()`, which is also its `toString()`. */
    function Name(): (r: string)
      ensures |r| > 0
    {
      match this
      case ARADHANA => "ARADHANA"
      case PARYAYA => "PARYAYA"
      case UTSAVA => "UTSAVA"
      case GENERAL => "GENERAL"
    }
  }

  /** `EventScope`. */
  datatype EventScope = LOCAL | NATIONAL

  /** A row of `events`. `description`, `location`, `imageUrl` and
      `tithiLabel` are nullable columns. */
  datatype EventRow = EventRow(id: Option<string>, title: string, description: Option<string>,
                               eventDate: LocalDate, location: Option<string>, imageUrl: Option<string>,
                               eventType: EventType, scope: EventScope, notifyUsers: bool,
                               tithiLabel: Option<string>, active: bool, createdAt: Option<Instant>)

  /** `EventDto.CreateOrUpdate`, as validated by the controller (the
      `@NotNull` fields are present). */
  datatype EventRequest = EventRequest(title: string, description: Option<string>, eventDate: LocalDate,
                                       location: Option<string>, imageUrl: Option<string>,
                                       eventType: EventType, scope: EventScope, notifyUsers: bool,
                                       tithiLabel: Option<string>, active: bool)

  /** The ten request fields written over a row; `id` and `createdAt` kept. */
  function Applied(row: EventRow, req: EventRequest): (r: EventRow)
    ensures r.id == row.id && r.createdAt == row.createdAt
  {
    row.(title := req.title, description := req.description, eventDate := req.eventDate,
         location := req.location, imageUrl := req.imageUrl, eventType := req.eventType,
         scope := req.scope, notifyUsers := req.notifyUsers, tithiLabel := req.tithiLabel,
         active := req.active)
  }

  /** What every stored event satisfies: keyed by its id, creation time set. */
  predicate StoredEvents(rows: map<string, EventRow>) {
    forall id | id in rows :: rows[id].id == Some(id) && rows[id].createdAt.Some?
  }

  class Event {
    var id: Option<string>
    var title: string
    var description: Option<string>
    var eventDate: LocalDate
    var location: Option<string>
    var imageUrl: Option<string>
    var eventType: EventType
    var scope: EventScope
    var notifyUsers: bool
    var tithiLabel: Option<string>
    var active: bool
    var createdAt: Option<Instant>

    function Row(): EventRow
      reads this
    {
      EventRow(id, title, description, eventDate, location, imageUrl, eventType, scope,
               notifyUsers, tithiLabel, active, createdAt)
    }

    /** `Event.builder()...build()` with the ten request fields; id and
        creation time null. */
    constructor Build(req: EventRequest)
      ensures Row() == EventRow(None, req.title, req.description, req.eventDate, req.location,
                                req.imageUrl, req.eventType, req.scope, req.notifyUsers,
                                req.tithiLabel, req.active, None)
    {
      id := None;
      title := req.title;
      description := req.description;
      eventDate := req.eventDate;
      location := req.location;
      imageUrl := req.imageUrl;
      eventType := req.eventType;
      scope := req.scope;
      notifyUsers := req.notifyUsers;
      tithiLabel := req.tithiLabel;
      active := req.active;
      createdAt := None;
    }

    /** The entity the persistence layer hydrates from a stored row. */
    constructor Load(row: EventRow)
      ensures Row() == row
    {
      id := row.id;
      title := row.title;
      description := row.description;
      eventDate := row.eventDate;
      location := row.location;
      imageUrl := row.imageUrl;
      eventType := row.eventType;
      scope := row.scope;
      notifyUsers := row.notifyUsers;
      tithiLabel := row.tithiLabel;
      active := row.active;
      createdAt := row.createdAt;
    }

    // The Lombok setters `update` calls: each changes its own field.

    method SetTitle(v: string)
      modifies this`title
      ensures Row() == old(Row()).(title := v)
    {
      title := v;
    }

    method SetDescription(v: Option<string>)
      modifies this`description
      ensures Row() == old(Row()).(description := v)
    {
      description := v;
    }

    method SetEventDate(v: LocalDate)
      modifies this`eventDate
      ensures Row() == old(Row()).(eventDate := v)
    {
      eventDate := v;
    }

    method SetLocation(v: Option<string>)
      modifies this`location
      ensures Row() == old(Row()).(location := v)
    {
      location := v;
    }

    method SetImageUrl(v: Option<string>)
      modifies this`imageUrl
      ensures Row() == old(Row()).(imageUrl := v)
    {
      imageUrl := v;
    }

    method SetType(v: EventType)
      modifies this`eventType
      ensures Row() == old(Row()).(eventType := v)
    {
      eventType := v;
    }

    method SetScope(v: EventScope)
      modifies this`scope
      ensures Row() == old(Row()).(scope := v)
    {
      scope := v;
    }

    method SetNotifyUsers(v: bool)
      modifies this`notifyUsers
      ensures Row() == old(Row()).(notifyUsers := v)
    {
      notifyUsers := v;
    }

    method SetTithiLabel(v: Option<string>)
      modifies this`tithiLabel
      ensures Row() == old(Row()).(tithiLabel := v)
    {
      tithiLabel := v;
    }

    method SetActive(v: bool)
      modifies this`active
      ensures Row() == old(Row()).(active := v)
    {
      active := v;
    }

    /** `@PrePersist onCreate`: sets `createdAt` only when it is null. */
    method OnCreate(now: Instant)
      modifies this`createdAt
      ensures createdAt == if old(createdAt).None? then Some(now) else old(createdAt)
      ensures Row() == old(Row()).(createdAt := createdAt)
    {
      if createdAt.None? {
        createdAt := Some(now);
      }
    }
  }

  /** `EventRepository`: the events table, keyed by event id. */
  class EventRepository {
    var rows: map<string, EventRow>

    ghost predicate Valid()
      reads this
    {
      StoredEvents(rows)
    }

    constructor()
      ensures Valid() && rows == map[]
    {
      rows := map[];
    }

    /** `findById`. */
    method FindById(id: string) returns (e: Option<Event>)
      ensures e.Some? <==> id in rows
      ensures e.Some? ==> fresh(e.value) && e.value.Row() == rows[id]
    {
      if id in rows {
        var entity := new Event.Load(rows[id]);
        return Some(entity);
      }
      return None;
    }

    /** `save`: a new entity gets the generated id `freshId` and runs
        `onCreate`; an existing one is written back as it is. */
    method Save(e: Event, freshId: string, now: Instant)
      requires Valid()
      requires e.id.Some? ==> e.id.value in rows && e.createdAt.Some?
      requires e.id.None? ==> freshId !in rows
      modifies this, e
      ensures Valid()
      ensures old(e.id).None? ==> e.Row() == old(e.Row()).(id := Some(freshId), createdAt := e.createdAt)
      ensures old(e.id).None? ==> e.createdAt == if old(e.createdAt).None? then Some(now) else old(e.createdAt)
      ensures old(e.id).Some? ==> e.Row() == old(e.Row())
      ensures e.id.Some? && rows == old(rows)[e.id.value := e.Row()]
    {
      if e.id.None? {
        e.id := Some(freshId);
        e.OnCreate(now);
      }
      rows := rows[e.id.value := e.Row()];
    }

    /** `deleteById`: removes the row; an unknown id is ignored. */
    method DeleteById(id: string)
      requires Valid()
      modifies this
      ensures Valid()
      ensures rows == old(rows) - {id}
    {
      rows := rows - {id};
    }
  }
}
