/** The `SevaOrder` entity (table `seva_orders`) with its `@PrePersist` and
    `@PreUpdate` timestamp hooks, and the repository that stores it. */
module SevaOrders {
  import opened Wrappers
  import opened JavaText

  /** The persisted state of one order. `status` is free text in the
      source, so any string is representable. The nullable columns are
      options; `uid`, `sevaId`, `sevaTitle` and `status` are never null on the
      paths modelled here. */
  datatype OrderRow = OrderRow(
    id: Option<string>,
    uid: string,
    sevaId: string,
    sevaTitle: string,
    amountInPaise: int32,
    status: string,
    consentToStore: bool,
    fullName: Option<string>,
    mobile: Option<string>,
    email: Option<string>,
    addressLine1: Option<string>,
    addressLine2: Option<string>,
    city: Option<string>,
    state: Option<string>,
    pincode: Option<string>,
    razorpayOrderId: Option<string>,
    razorpayPaymentId: Option<string>,
    razorpaySignature: Option<string>,
    createdAt: Option<Instant>,
    updatedAt: Option<Instant>)

  /** The timestamp columns are `nullable=false`; the other required
      columns are non-null by type. */
  predicate Persistable(row: OrderRow) {
    row.createdAt.Some? && row.updatedAt.Some?
  }

  /** A hexadecimal digit of either case, as RFC 4122 allows. */
  predicate IsHexDigit(c: char) {
    '0' <= c <= '9' || 'a' <= c <= 'f' || 'A' <= c <= 'F'
  }

  /** The positions of the four hyphens of a textual UUID. */
  predicate UuidHyphenAt(i: int) {
    i == 8 || i == 13 || i == 18 || i == 23
  }

  /** The textual UUID of section 3 of RFC 4122: 36 characters, hyphens at
      8, 13, 18 and 23, hexadecimal digits elsewhere. `GenerationType.UUID`
      ids have this form. */
  predicate IsTextualUuid(s: string) {
    && |s| == 36
    && forall i | 0 <= i < 36 :: if UuidHyphenAt(i) then s[i] == '-' else IsHexDigit(s[i])
  }

  /** `onCreate` on a row: each timestamp that is still null becomes `now`. */
  function Stamped(row: OrderRow, now: Instant): (r: OrderRow)
    ensures Persistable(r)
    ensures row.createdAt.Some? ==> r.createdAt == row.createdAt
    ensures row.updatedAt.Some? ==> r.updatedAt == row.updatedAt
    ensures row.createdAt.None? && row.updatedAt.None? ==> r.createdAt == r.updatedAt == Some(now)
    ensures r.(createdAt := row.createdAt, updatedAt := row.updatedAt) == row
  {
    row.(createdAt := if row.createdAt.None? then Some(now) else row.createdAt,
         updatedAt := if row.updatedAt.None? then Some(now) else row.updatedAt)
  }

  /** What a `save` of a loaded order writes: nothing when no field differs
      from the stored row (Hibernate's dirty check finds nothing to flush,
      so `onUpdate` does not run), otherwise the new fields with `updatedAt`
      refreshed and `createdAt` kept. */
  function Flushed(current: OrderRow, stored: OrderRow, now: Instant): (r: OrderRow)
    ensures current == stored ==> r == stored
    ensures current != stored ==> r.updatedAt == Some(now) && r.(updatedAt := current.updatedAt) == current
    ensures r.createdAt == current.createdAt
  {
    if current == stored then stored else current.(updatedAt := Some(now))
  }

  /** What every row of the order table satisfies: it carries its key as
      id, has both timestamps, and is keyed by a generated textual UUID. */
  predicate StoredRows(rows: map<string, OrderRow>) {
    forall id | id in rows :: rows[id].id == Some(id) && Persistable(rows[id]) && IsTextualUuid(id)
  }

  /** The outcome of a service call on the order table: what the call
      returns or throws, and the rows afterwards. */
  datatype Transition<T> = Transition(result: Result<T, Exception>, rows: map<string, OrderRow>)

  /** The entity object the services load, change through setters and save. */
  class SevaOrder {
    var id: Option<string>
    var uid: string
    var sevaId: string
    var sevaTitle: string
    var amountInPaise: int32
    var status: string
    var consentToStore: bool
    var fullName: Option<string>
    var mobile: Option<string>
    var email: Option<string>
    var addressLine1: Option<string>
    var addressLine2: Option<string>
    var city: Option<string>
    var state: Option<string>
    var pincode: Option<string>
    var razorpayOrderId: Option<string>
    var razorpayPaymentId: Option<string>
    var razorpaySignature: Option<string>
    var createdAt: Option<Instant>
    var updatedAt: Option<Instant>

    /** The fields as a row value. */
    function Row(): OrderRow
      reads this
    {
      OrderRow(id, uid, sevaId, sevaTitle, amountInPaise, status, consentToStore,
               fullName, mobile, email, addressLine1, addressLine2, city, state, pincode,
               razorpayOrderId, razorpayPaymentId, razorpaySignature, createdAt, updatedAt)
    }

    /** `SevaOrder.builder()...build()` with the seven fields the order
        service sets; every other field is null. */
    constructor Build(uid: string, sevaId: string, sevaTitle: string, amountInPaise: int32,
                      status: string, consentToStore: bool, mobile: Option<string>)
      ensures Row() == OrderRow(None, uid, sevaId, sevaTitle, amountInPaise, status, consentToStore,
                                None, mobile, None, None, None, None, None, None,
                                None, None, None, None, None)
    {
      this.id := None;
      this.uid := uid;
      this.sevaId := sevaId;
      this.sevaTitle := sevaTitle;
      this.amountInPaise := amountInPaise;
      this.status := status;
      this.consentToStore := consentToStore;
      this.fullName := None;
      this.mobile := mobile;
      this.email := None;
      this.addressLine1 := None;
      this.addressLine2 := None;
      this.city := None;
      this.state := None;
      this.pincode := None;
      this.razorpayOrderId := None;
      this.razorpayPaymentId := None;
      this.razorpaySignature := None;
      this.createdAt := None;
      this.updatedAt := None;
    }

    /** The entity the persistence layer hydrates from a stored row. */
    constructor Load(row: OrderRow)
      ensures Row() == row
    {
      this.id := row.id;
      this.uid := row.uid;
      this.sevaId := row.sevaId;
      this.sevaTitle := row.sevaTitle;
      this.amountInPaise := row.amountInPaise;
      this.status := row.status;
      this.consentToStore := row.consentToStore;
      this.fullName := row.fullName;
      this.mobile := row.mobile;
      this.email := row.email;
      this.addressLine1 := row.addressLine1;
      this.addressLine2 := row.addressLine2;
      this.city := row.city;
      this.state := row.state;
      this.pincode := row.pincode;
      this.razorpayOrderId := row.razorpayOrderId;
      this.razorpayPaymentId := row.razorpayPaymentId;
      this.razorpaySignature := row.razorpaySignature;
      this.createdAt := row.createdAt;
      this.updatedAt := row.updatedAt;
    }

    // The Lombok setters the services call: each changes its own field.

    method SetFullName(v: Option<string>)
      modifies this`fullName
      ensures Row() == old(Row()).(fullName := v)
    {
      fullName := v;
    }

    method SetEmail(v: Option<string>)
      modifies this`email
      ensures Row() == old(Row()).(email := v)
    {
      email := v;
    }

    method SetAddressLine1(v: Option<string>)
      modifies this`addressLine1
      ensures Row() == old(Row()).(addressLine1 := v)
    {
      addressLine1 := v;
    }

    method SetAddressLine2(v: Option<string>)
      modifies this`addressLine2
      ensures Row() == old(Row()).(addressLine2 := v)
    {
      addressLine2 := v;
    }

    method SetCity(v: Option<string>)
      modifies this`city
      ensures Row() == old(Row()).(city := v)
    {
      city := v;
    }

    method SetState(v: Option<string>)
      modifies this`state
      ensures Row() == old(Row()).(state := v)
    {
      state := v;
    }

    method SetPincode(v: Option<string>)
      modifies this`pincode
      ensures Row() == old(Row()).(pincode := v)
    {
      pincode := v;
    }

    method SetStatus(v: string)
      modifies this`status
      ensures Row() == old(Row()).(status := v)
    {
      status := v;
    }

    method SetRazorpayOrderId(v: Option<string>)
      modifies this`razorpayOrderId
      ensures Row() == old(Row()).(razorpayOrderId := v)
    {
      razorpayOrderId := v;
    }

    method SetRazorpayPaymentId(v: Option<string>)
      modifies this`razorpayPaymentId
      ensures Row() == old(Row()).(razorpayPaymentId := v)
    {
      razorpayPaymentId := v;
    }

    method SetRazorpaySignature(v: Option<string>)
      modifies this`razorpaySignature
      ensures Row() == old(Row()).(razorpaySignature := v)
    {
      razorpaySignature := v;
    }

    /** `@PrePersist onCreate`: fills each timestamp only when it is null. */
    method OnCreate(now: Instant)
      modifies this`createdAt, this`updatedAt
      ensures createdAt == if old(createdAt).None? then Some(now) else old(createdAt)
      ensures updatedAt == if old(updatedAt).None? then Some(now) else old(updatedAt)
      ensures old(createdAt).None? && old(updatedAt).None? ==> createdAt == updatedAt
      ensures Row() == Stamped(old(Row()), now)
    {
      if createdAt.None? {
        createdAt := Some(now);
      }
      if updatedAt.None? {
        updatedAt := Some(now);
      }
    }

    /** `@PreUpdate onUpdate`: always refreshes `updatedAt`, never touches
        `createdAt`. */
    method OnUpdate(now: Instant)
      modifies this`updatedAt
      ensures updatedAt == Some(now)
      ensures Row() == old(Row()).(updatedAt := Some(now))
    {
      updatedAt := Some(now);
    }
  }

  /** `SevaOrderRepository`: the order table, keyed by order id. */
  class SevaOrderRepository {
    var rows: map<string, OrderRow>

    ghost predicate Valid()
      reads this
    {
      StoredRows(rows)
    }

    constructor()
      ensures Valid() && rows == map[]
    {
      rows := map[];
    }

    /** `findById`: a fresh entity holding the stored row, or nothing. */
    method FindById(id: string) returns (o: Option<SevaOrder>)
      ensures o.Some? <==> id in rows
      ensures o.Some? ==> fresh(o.value) && o.value.Row() == rows[id]
    {
      if id in rows {
        var entity := new SevaOrder.Load(rows[id]);
        return Some(entity);
      }
      return None;
    }

    /** `save`: a new entity (null id) gets the generated id `freshId` and
        runs `onCreate`; a loaded one is flushed, running `onUpdate` only
        when some field changed. Either way its row is written back. */
    method Save(o: SevaOrder, freshId: string, now: Instant)
      requires Valid()
      requires o.id.Some? ==> o.id.value in rows && o.createdAt.Some?
      requires o.id.None? ==> freshId !in rows && IsTextualUuid(freshId)
      modifies this, o
      ensures Valid()
      ensures old(o.id).None? ==> o.id == Some(freshId) && o.Row() == Stamped(old(o.Row()).(id := Some(freshId)), now)
      ensures old(o.id).Some? ==> o.Row() == Flushed(old(o.Row()), old(rows)[old(o.id).value], now)
      ensures o.id.Some? && rows == old(rows)[o.id.value := o.Row()]
    {
      if o.id.None? {
        o.id := Some(freshId);
        o.OnCreate(now);
      } else if o.Row() != rows[o.id.value] {
        o.OnUpdate(now);
      } else {
        var stored := rows[o.id.value];
        assert stored.id == o.id;
      }
      rows := rows[o.id.value := o.Row()];
    }
  }
}
