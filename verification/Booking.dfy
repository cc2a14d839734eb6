/** The booking saga: the PMS books first, one canonical reservation is recorded per confirmed stay, and the whole
    answer is stored for replay under the caller's idempotency key. */
module Booking {
  import opened Results
  import opened Text
  import opened Payload
  import opened Decimal
  import opened Ledger
  import Quoting

  type Property = Quoting.Property
  type Engine = Quoting.Engine

  datatype BookingInput = BookingInput(
    roomIds: seq<string>, rooms: int, checkin: int, checkout: int, adults: int, children: int,
    total: real, currency: string, key: string, roomTypeId: string, roomType: string)

  datatype PmsBooking = PmsBooking(
    bookingIds: seq<string>, reservationIds: seq<string>, roomIds: seq<string>, guestName: string,
    paymentStatus: string)

  datatype BookError =
    | EngineUnknown | EngineDisabled | BadKey | IdemStoreDown | DuplicateRequest
    | BadDates(why: Quoting.QuoteError) | BadTotal | BadRoomIds(which: RoomIdsError) | NoRoomNamed | TooManyRooms
    | PmsRejected | NoSingleConfirmation

  datatype Response = Response(
    bookingIds: seq<string>, reservationIds: seq<string>, cmReservationIds: seq<string>, roomIds: seq<string>,
    total: real, currency: string, paymentStatus: string, reconciliationPending: bool)

  /** A stored replay. A marker left by an old deployment has neither fingerprint nor response. */
  datatype Record = Record(fingerprint: Option<Body>, response: Option<Response>, expiresAt: int)

  /** Everything a call meets outside the service. `save(i)` is the repository's answer for the i-th stay, and
      `tenant` is the organization in the call's context. */
  datatype Env = Env(
    now: int, engine: Engine, parseDay: string -> Option<int>, tenant: Option<string>,
    idemUp: bool, putUp: bool,
    pms: BookingInput -> Option<PmsBooking>,
    save: nat -> Option<string>)

  const KEY_LIMIT := 200
  const ROOM_LIMIT := 20
  const RECORD_TTL := 86400

  /** The scope a replay is stored under. The source stores its SHA-256, taken here as injective. */
  function StoreKey(orgId: string, propertyId: string, key: string): string {
    orgId + [NUL] + propertyId + [NUL] + key
  }

  /** Different scopes never share a record, as long as organization and property ids contain no NUL. */
  lemma StoreKeyInjective(org: string, prop: string, key: string, org': string, prop': string, key': string)
    requires NUL !in org && NUL !in prop && NUL !in org' && NUL !in prop'
    requires StoreKey(org, prop, key) == StoreKey(org', prop', key')
    ensures org == org' && prop == prop' && key == key'
  {
    assert StoreKey(org, prop, key) == org + [NUL] + (prop + [NUL] + key);
    assert StoreKey(org', prop', key') == org' + [NUL] + (prop' + [NUL] + key');
    FieldsInjective(org, org', NUL, prop + [NUL] + key, prop' + [NUL] + key');
    FieldsInjective(prop, prop', NUL, key, key');
  }

  /** Only the two separators of a NUL-free scope are NUL. */
  lemma NulsOfStoreKey(org: string, prop: string, key: string, i: nat)
    requires NUL !in org && NUL !in prop && NUL !in key && i < |StoreKey(org, prop, key)|
    ensures StoreKey(org, prop, key)[i] == NUL <==> i == |org| || i == |org| + 1 + |prop|
  {
    var s := StoreKey(org, prop, key);
    if i < |org| {
      assert s[i] == org[i];
    } else if |org| < i < |org| + 1 + |prop| {
      assert s[i] == prop[i - |org| - 1];
    } else if |org| + 1 + |prop| < i {
      assert s[i] == key[i - |org| - |prop| - 2];
    }
  }

  lemma NulFreeScopeIsUnique(org: string, prop: string, key: string, org': string, prop': string, key': string)
    requires NUL !in org && NUL !in prop && NUL !in key
    requires StoreKey(org, prop, key) == StoreKey(org', prop', key')
    ensures org == org' && prop == prop' && key == key'
  {
    var s := StoreKey(org', prop', key');
    NulsOfStoreKey(org, prop, key, |org'|);
    NulsOfStoreKey(org, prop, key, |org'| + 1 + |prop'|);
    forall i | 0 <= i < |org'| ensures org'[i] != NUL {
      NulsOfStoreKey(org, prop, key, i);
      assert s[i] == org'[i];
    }
    forall i | 0 <= i < |prop'| ensures prop'[i] != NUL {
      NulsOfStoreKey(org, prop, key, |org'| + 1 + i);
      assert s[|org'| + 1 + i] == prop'[i];
    }
    StoreKeyInjective(org, prop, key, org', prop', key');
  }

  lemma Halves(s: string) returns (left: string, right: string)
    requires NUL in s
    ensures s == left + [NUL] + right
  {
    var i := IndexOf(s, NUL);
    left, right := s[..i], s[i + 1..];
  }

  /** A scope that contains a NUL anywhere shares its store key with another scope. */
  lemma OtherScope(org: string, prop: string, key: string) returns (org': string, prop': string, key': string)
    requires NUL in org || NUL in prop || NUL in key
    ensures StoreKey(org, prop, key) == StoreKey(org', prop', key') && (|org'| != |org| || |prop'| != |prop|)
  {
    if NUL in org {
      var left, right := Halves(org);
      org', prop', key' := left, right, prop + [NUL] + key;
      assert StoreKey(org, prop, key) == left + [NUL] + right + [NUL] + prop + [NUL] + key;
      assert StoreKey(org', prop', key') == left + [NUL] + right + [NUL] + prop + [NUL] + key;
    } else if NUL in prop {
      var left, right := Halves(prop);
      org', prop', key' := org, left, right + [NUL] + key;
      assert StoreKey(org, prop, key) == org + [NUL] + left + [NUL] + right + [NUL] + key;
      assert StoreKey(org', prop', key') == org + [NUL] + left + [NUL] + right + [NUL] + key;
    } else {
      var left, right := Halves(key);
      org', prop', key' := org + [NUL] + prop, left, right;
      assert StoreKey(org, prop, key) == org + [NUL] + prop + [NUL] + left + [NUL] + right;
      assert StoreKey(org', prop', key') == org + [NUL] + prop + [NUL] + left + [NUL] + right;
    }
  }

  /** A scope has its store key to itself, among all texts, exactly when none of its parts contains a NUL. */
  lemma StoreKeyIsUniqueIff(org: string, prop: string, key: string)
    ensures (forall org', prop', key' ::
               StoreKey(org, prop, key) == StoreKey(org', prop', key') ==> org == org' && prop == prop' && key == key')
            <==> NUL !in org && NUL !in prop && NUL !in key
  {
    if NUL !in org && NUL !in prop && NUL !in key {
      forall org', prop', key' | StoreKey(org, prop, key) == StoreKey(org', prop', key')
        ensures org == org' && prop == prop' && key == key'
      {
        NulFreeScopeIsUnique(org, prop, key, org', prop', key');
      }
    } else {
      var org', prop', key' := OtherScope(org, prop, key);
    }
  }

  function KeyOf(body: Body): string {
    TrimSpace(StringOr(Field(body, "idempotency_key")))
  }

  predicate KeyAccepted(key: string) {
    key != "" && ByteLength(key) <= KEY_LIMIT
  }

  /** The body the fingerprint is taken of: the request with its key trimmed. */
  function Fingerprint(body: Body): Body {
    body["idempotency_key" := Str(KeyOf(body))]
  }

  /** White space around the key changes neither the key nor the fingerprint. */
  lemma PaddingIsInvisible(body: Body, left: string, key: string, right: string)
    requires forall i :: 0 <= i < |left| ==> IsSpace(left[i])
    requires forall i :: 0 <= i < |right| ==> IsSpace(right[i])
    requires TrimSpace(key) == key
    ensures var padded, plain := body["idempotency_key" := Str(left + key + right)],
            body["idempotency_key" := Str(key)];
            KeyOf(padded) == KeyOf(plain) && Fingerprint(padded) == Fingerprint(plain)
  {
    TrimOfPadded(left, key, right);
  }

  function OptionalRooms(v: Json): Result<seq<string>, RoomIdsError> {
    if v.Null? || (v.Arr? && v.items == []) then Ok([]) else RoomList(v)
  }

  /** The stays a PMS answer confirms: one per public reservation ref, else one per room. */
  function StayCount(b: PmsBooking): nat {
    if |b.reservationIds| == 0 then |b.roomIds| else |b.reservationIds|
  }

  function StayKey(key: string, count: nat, index: nat): string {
    if count > 1 && key != "" then key + ":" + Itoa(index) else key
  }

  /** The stays of one booking get pairwise distinct keys. */
  lemma StayKeysDistinct(key: string, count: nat, i: nat, j: nat)
    requires key != "" && i < count && j < count && i != j
    ensures StayKey(key, count, i) != StayKey(key, count, j)
  {
    if StayKey(key, count, i) == StayKey(key, count, j) {
      assert StayKey(key, count, i)[|key| + 1..] == Itoa(i);
      assert StayKey(key, count, j)[|key| + 1..] == Itoa(j);
      ItoaInjective(i, j);
    }
  }

  function ReservationFor(prop: Property, body: Body, b: PmsBooking, checkin: int, checkout: int, tenant: string)
    : Reservation
    requires |b.bookingIds| == 1
  {
    Reservation(tenant, prop.id, StringOr(Field(body, "room_type_id")), b.guestName, checkin, checkout, "confirmed",
                FloatOr(Field(body, "total_amount"), 0.0),
                Quoting.CurrencyOr(StringOr(Field(body, "currency")), prop.defaultCurrency), b.bookingIds[0], "")
  }

  /** What became of one confirmed stay. */
  datatype StayFate = Written(id: string) | AlreadySeen | NotWritten

  function FateOf(r: Result<string, PersistError>): StayFate {
    match r
    case Ok(id) => Written(id)
    case Err(DuplicateKey) => AlreadySeen
    case Err(SaveFailed) => NotWritten
  }

  /** One stay's `persistReservation`; without a tenant nothing is tried. */
  function RecordStay(b: Book, res: Reservation, key: string, tenant: Option<string>, save: Option<string>)
    : (Book, StayFate)
  {
    if tenant.None? then (b, NotWritten)
    else
      var (after, r) := Persisted(b, res, key, save);
      (after, FateOf(r))
  }

  /** The ledger and the fates after the first `n` of `count` stays. */
  function RecordStays(b: Book, res: Reservation, key: string, count: nat, n: nat, env: Env): (Book, seq<StayFate>) {
    if n == 0 then (b, [])
    else
      var (before, fates) := RecordStays(b, res, key, count, n - 1, env);
      var (after, fate) := RecordStay(before, res, StayKey(key, count, n - 1), env.tenant, env.save(n - 1));
      (after, fates + [fate])
  }

  function IdOf(fate: StayFate): string {
    if fate.Written? then fate.id else ""
  }

  predicate Pending(fates: seq<StayFate>) {
    exists i :: 0 <= i < |fates| && fates[i].NotWritten?
  }

  lemma PendingStep(fates: seq<StayFate>, fate: StayFate)
    ensures Pending(fates + [fate]) <==> Pending(fates) || fate.NotWritten?
  {
    if Pending(fates) {
      var i :| 0 <= i < |fates| && fates[i].NotWritten?;
      assert (fates + [fate])[i].NotWritten?;
    }
    if fate.NotWritten? {
      assert (fates + [fate])[|fates|].NotWritten?;
    }
  }

  datatype Saga = Saga(idem: map<string, Record>, book: Book)

  predicate LiveRecord(idem: map<string, Record>, k: string, now: int) {
    k in idem && now < idem[k].expiresAt
  }

  /** A request that has passed every check before the PMS call. */
  function InputOf(prop: Property, body: Body, env: Env): Result<BookingInput, BookError> {
    match Quoting.ParseDateRange(body, env.parseDay)
    case Err(e) => Err(BadDates(e))
    case Ok((checkin, checkout)) =>
      var total := FloatOr(Field(body, "total_amount"), 0.0);
      if total <= 0.0 then Err(BadTotal)
      else
        match OptionalRooms(Field(body, "room_ids"))
        case Err(e) => Err(BadRoomIds(e))
        case Ok(roomIds) =>
          var roomTypeId, roomType := StringOr(Field(body, "room_type_id")), StringOr(Field(body, "room_type"));
          var asked := IntOr(Field(body, "rooms"), 0);
          if roomIds == [] && roomTypeId == "" && roomType == "" then Err(NoRoomNamed)
          else if roomIds == [] && asked > ROOM_LIMIT then Err(TooManyRooms)
          else
            Ok(BookingInput(roomIds, if roomIds == [] && asked < 1 then 1 else asked, checkin, checkout,
                            IntOr(Field(body, "adults"), 1), IntOr(Field(body, "children"), 0), total,
                            Quoting.CurrencyOr(StringOr(Field(body, "currency")), prop.defaultCurrency), KeyOf(body),
                            roomTypeId, roomType))
  }

  /** A call that found no live record and passed every check reaches the PMS with this input. */
  function Asked(s: Saga, prop: Property, body: Body, env: Env): Option<BookingInput> {
    if !env.engine.EngineOn? || !KeyAccepted(KeyOf(body)) || !env.idemUp
       || LiveRecord(s.idem, StoreKey(prop.orgId, prop.id, KeyOf(body)), env.now)
       || InputOf(prop, Fingerprint(body), env).Err?
    then None
    else Some(InputOf(prop, Fingerprint(body), env).value)
  }

  function Replay(rec: Record, body: Body): Result<Response, BookError> {
    if rec.fingerprint == Some(Fingerprint(body)) && rec.response.Some? then Ok(rec.response.value)
       else Err(DuplicateRequest)
  }

  function ResponseFor(input: BookingInput, b: PmsBooking, fates: seq<StayFate>): Response {
    Response(b.bookingIds, b.reservationIds, seq(|fates|, i requires 0 <= i < |fates| => IdOf(fates[i])), b.roomIds,
             input.total, input.currency, b.paymentStatus, Pending(fates))
  }

  /** The stays a confirmed booking records, in order. */
  function Recorded(s: Saga, prop: Property, body: Body, input: BookingInput, b: PmsBooking, env: Env)
    : (Book, seq<StayFate>)
    requires |b.bookingIds| == 1
  {
    var tenant := if env.tenant.Some? then env.tenant.value else "";
    RecordStays(s.book, ReservationFor(prop, Fingerprint(body), b, input.checkin, input.checkout, tenant), input.key,
                StayCount(b), StayCount(b), env)
  }

  /** What follows the PMS's answer: canonical rows, then the response, then its replay record. */
  function Commit(s: Saga, prop: Property, body: Body, input: BookingInput, b: PmsBooking, env: Env)
    : (Saga, Result<Response, BookError>, seq<StayFate>)
  {
    if |b.bookingIds| != 1 || StayCount(b) == 0 then (s, Err(NoSingleConfirmation), [])
    else
      var (book, fates) := Recorded(s, prop, body, input, b, env);
      var response := ResponseFor(input, b, fates);
      var rec := Record(Some(Fingerprint(body)), Some(response), env.now + RECORD_TTL);
      (Saga(if env.putUp then s.idem[StoreKey(prop.orgId, prop.id, KeyOf(body)) := rec] else s.idem, book),
       Ok(response), fates)
  }

  /** One `create_booking` call: the new stores, the answer, and what became of each confirmed stay. */
  function BookStep(s: Saga, prop: Property, body: Body, env: Env): (Saga, Result<Response, BookError>, seq<StayFate>) {
    var k := StoreKey(prop.orgId, prop.id, KeyOf(body));
    if env.engine.EngineError? then (s, Err(EngineUnknown), [])
    else if env.engine.EngineOff? then (s, Err(EngineDisabled), [])
    else if !KeyAccepted(KeyOf(body)) then (s, Err(BadKey), [])
    else if !env.idemUp then (s, Err(IdemStoreDown), [])
    else if LiveRecord(s.idem, k, env.now) then (s, Replay(s.idem[k], body), [])
    else
      match InputOf(prop, Fingerprint(body), env)
      case Err(e) => (s, Err(e), [])
      case Ok(input) =>
        if env.pms(input).None? then (s, Err(PmsRejected), [])
           else Commit(s, prop, body, input, env.pms(input).value, env)
  }

  /** The mirror of a booking the engine already made at the PMS. */
  datatype MirrorReply = MirrorFailed | Recorded(id: string) | AlreadyRecorded

  function MirrorStep(b: Book, prop: Property, body: Body, env: Env): (Book, MirrorReply) {
    if env.tenant.None? || Quoting.ParseDateRange(body, env.parseDay).Err?
       || FloatOr(Field(body, "total_amount"), 0.0) <= 0.0 then (b, MirrorFailed)
    else
      var (after, r) := Persisted(b, MirrorReservation(prop, body, env), StringOr(Field(body, "idempotency_key")),
                                  env.save(0));
      var reply := match r
                   case Ok(id) => MirrorReply.Recorded(id)
                   case Err(DuplicateKey) => AlreadyRecorded
                   case Err(SaveFailed) => MirrorFailed;
      (after, reply)
  }

  function MirrorReservation(prop: Property, body: Body, env: Env): Reservation
    requires env.tenant.Some? && Quoting.ParseDateRange(body, env.parseDay).Ok?
  {
    var dates := Quoting.ParseDateRange(body, env.parseDay).value;
    var guest := StringOr(Field(body, "guest_name"));
    Reservation(env.tenant.value, prop.id, StringOr(Field(body, "room_type_id")),
                if guest == "" then StringOr(Field(body, "name")) else guest,
                dates.0, dates.1, "confirmed", FloatOr(Field(body, "total_amount"), 0.0),
                Quoting.CurrencyOr(StringOr(Field(body, "currency")), prop.defaultCurrency),
                StringOr(Field(body, "pms_booking_id")), "")
  }

  class Service {
    const reservations: ReservationService
    var idem: map<string, Record>
    ghost var sent: seq<BookingInput>   // the bookings asked of the PMS, in order

    function View(): Saga
      reads this, reservations
    {
      Saga(idem, reservations.View())
    }

    constructor (res: ReservationService)
      ensures reservations == res && idem == map[] && sent == []
    {
      reservations, idem, sent := res, map[], [];
    }

    /** Writes one canonical reservation; it never fails the caller, it reports that the write is pending instead. */
    method PersistReservation(res: Reservation, key: string, tenant: Option<string>, save: Option<string>)
      returns (id: string, pending: bool, ghost fate: StayFate)
      modifies reservations
      ensures (reservations.View(), fate) == RecordStay(old(reservations.View()), res, key, tenant, save)
      ensures id == IdOf(fate) && pending == fate.NotWritten?
      ensures reservations.published == old(reservations.published)
    {
      if tenant.None? {
        return "", true, NotWritten;
      }
      var r := reservations.RecordReservation(res, key, save);
      fate := FateOf(r);
      if r.Err? {
        if r.error.DuplicateKey? {
          return "", false, fate;
        }
        return "", true, fate;
      }
      return r.value, false, fate;
    }

    /** The loop over the stays of a confirmed booking. */
    method PersistStays(res: Reservation, key: string, count: nat, env: Env)
      returns (ids: seq<string>, pending: bool, ghost fates: seq<StayFate>)
      modifies reservations
      ensures (reservations.View(), fates) == RecordStays(old(reservations.View()), res, key, count, count, env)
      ensures |fates| == count && ids == seq(count, i requires 0 <= i < count => IdOf(fates[i]))
              && pending == Pending(fates)
      ensures reservations.published == old(reservations.published)
    {
      ids, pending, fates := [], false, [];
      for index := 0 to count
        invariant (reservations.View(), fates) == RecordStays(old(reservations.View()), res, key, count, index, env)
        invariant |fates| == |ids| == index
        invariant forall i :: 0 <= i < index ==> ids[i] == IdOf(fates[i])
        invariant pending == Pending(fates)
        invariant reservations.published == old(reservations.published)
      {
        var reservationKey := key;
        if count > 1 && reservationKey != "" {
          reservationKey := key + ":" + Itoa(index);
        }
        var id, failed, fate := PersistReservation(res, reservationKey, env.tenant, env.save(index));
        PendingStep(fates, fate);
        ids, fates := ids + [id], fates + [fate];
        pending := pending || failed;
      }
    }

    /** `create_booking`. */
    method CreateBooking(prop: Property, body: Body, env: Env)
      returns (r: Result<Response, BookError>, ghost fates: seq<StayFate>)
      modifies this, reservations
      ensures (View(), r, fates) == BookStep(old(View()), prop, body, env)
      ensures sent == old(sent)
              + (if Asked(old(View()), prop, body, env).Some? then [Asked(old(View()), prop, body, env).value] else [])
      ensures reservations.published == old(reservations.published)
    {
      fates := [];
      if env.engine.EngineError? {
        return Err(EngineUnknown), [];
      }
      if env.engine.EngineOff? {
        return Err(EngineDisabled), [];
      }
      var idemKey := TrimSpace(StringOr(Field(body, "idempotency_key")));
      if idemKey == "" || ByteLength(idemKey) > KEY_LIMIT {
        return Err(BadKey), [];
      }
      var request := body["idempotency_key" := Str(idemKey)];
      var storeKey := StoreKey(prop.orgId, prop.id, idemKey);
      if !env.idemUp {
        return Err(IdemStoreDown), [];
      }
      if LiveRecord(idem, storeKey, env.now) {
        var rec := idem[storeKey];
        if rec.fingerprint.None? || rec.fingerprint.value != request || rec.response.None? {
          return Err(DuplicateRequest), [];
        }
        return Ok(rec.response.value), [];
      }
      var input := InputOf(prop, request, env);
      if input.Err? {
        return Err(input.error), [];
      }
      var answer := env.pms(input.value);
      sent := sent + [input.value];
      if answer.None? {
        return Err(PmsRejected), [];
      }
      r, fates := RecordConfirmed(prop, body, input.value, answer.value, env);
    }

    /** The tail of `create_booking`, once the PMS has answered. */
    method RecordConfirmed(prop: Property, body: Body, input: BookingInput, booked: PmsBooking, env: Env)
      returns (r: Result<Response, BookError>, ghost fates: seq<StayFate>)
      modifies this`idem, reservations
      ensures (View(), r, fates) == Commit(old(View()), prop, body, input, booked, env)
      ensures reservations.published == old(reservations.published)
    {
      var stayCount := |booked.reservationIds|;
      if stayCount == 0 {
        stayCount := |booked.roomIds|;
      }
      if |booked.bookingIds| != 1 || stayCount == 0 {
        return Err(NoSingleConfirmation), [];
      }
      var tenant := if env.tenant.Some? then env.tenant.value else "";
      var res := ReservationFor(prop, Fingerprint(body), booked, input.checkin, input.checkout, tenant);
      var ids, pending, outcome := PersistStays(res, input.key, stayCount, env);
      fates := outcome;
      var response := Response(booked.bookingIds, booked.reservationIds, ids, booked.roomIds,
                               input.total, input.currency, booked.paymentStatus, pending);
      assert response == ResponseFor(input, booked, fates);
      if env.putUp {
        idem := idem[StoreKey(prop.orgId, prop.id, KeyOf(body)) := Record(Some(Fingerprint(body)), Some(response),
                env.now + RECORD_TTL)];
      }
      r := Ok(response);
    }

    /** `record_direct_reservation`. */
    method RecordDirectReservation(prop: Property, body: Body, env: Env) returns (r: MirrorReply)
      modifies reservations
      ensures (reservations.View(), r) == MirrorStep(old(reservations.View()), prop, body, env)
      ensures reservations.published == old(reservations.published)
    {
      if env.tenant.None? {
        return MirrorFailed;
      }
      var range := Quoting.ParseDateRange(body, env.parseDay);
      if range.Err? || FloatOr(Field(body, "total_amount"), 0.0) <= 0.0 {
        return MirrorFailed;
      }
      var saved := reservations.RecordReservation(MirrorReservation(prop, body, env),
                                                  StringOr(Field(body, "idempotency_key")), env.save(0));
      match saved {
        case Ok(id) => return MirrorReply.Recorded(id);
        case Err(DuplicateKey) => return AlreadyRecorded;
        case Err(SaveFailed) => return MirrorFailed;
      }
    }
  }
}
