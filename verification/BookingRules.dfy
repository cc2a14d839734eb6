/** What a booking request is read as, when it succeeds, and what its reply and rows say, in terms of the request
    body. */
module BookingRules {
  import opened Results
  import opened Text
  import opened Payload
  import opened Decimal
  import opened Ledger
  import opened Booking
  import opened BookingRuns
  import QuoteRules
  import Quoting

  /** A list of rooms is optional: nothing and an empty list name none, anything else must be a well-formed list. */
  ghost predicate NamesRooms(body: Body, roomIds: seq<string>) {
    if Field(body, "room_ids") == Null || Field(body, "room_ids") == Arr([]) then roomIds == []
    else RoomList(Field(body, "room_ids")) == Ok(roomIds)
  }

  lemma OptionalRoomsIff(body: Body, roomIds: seq<string>)
    ensures OptionalRooms(Field(body, "room_ids")) == Ok(roomIds) <==> NamesRooms(body, roomIds)
  {
  }

  /** How many rooms are booked: the number asked for, but at least one when only a type is named. */
  predicate CountsRooms(body: Body, byType: bool, rooms: int) {
    var asked := IntOr(Field(body, "rooms"), 0);
    if byType then rooms <= 20 && rooms == (if asked < 1 then 1 else asked) else rooms == asked
  }

  /** The booking the body describes, field by field. */
  ghost predicate Describes(prop: Property, body: Body, parseDay: string -> Option<int>, input: BookingInput) {
    && QuoteRules.SaysStay(body, parseDay, input.checkin, input.checkout)
    && Field(body, "total_amount") == Num(input.total) && input.total > 0.0
    && NamesRooms(body, input.roomIds) && CountsRooms(body, input.roomIds == [], input.rooms)
    && input.roomTypeId == StringOr(Field(body, "room_type_id")) && input.roomType == StringOr(Field(body, "room_type"))
    && (input.roomIds == [] ==> input.roomTypeId != "" || input.roomType != "")
    && input.adults == IntOr(Field(body, "adults"), 1) && input.children == IntOr(Field(body, "children"), 0)
    && input.currency == Quoting.CurrencyOr(StringOr(Field(body, "currency")), prop.defaultCurrency)
    && input.key == TrimSpace(StringOr(Field(body, "idempotency_key")))
  }

  /** A body is accepted exactly when it describes a booking, and is read as exactly that booking. */
  lemma InputReadIff(prop: Property, body: Body, env: Env, input: BookingInput)
    ensures InputOf(prop, body, env) == Ok(input) <==> Describes(prop, body, env.parseDay, input)
  {
    QuoteRules.DatesReadIff(body, env.parseDay, input.checkin, input.checkout);
    OptionalRoomsIff(body, input.roomIds);
    if InputOf(prop, body, env) == Ok(input) {
      assert Field(body, "total_amount") == Num(input.total);
    }
  }

  lemma FingerprintKeepsFields(body: Body, field: string)
    requires field != "idempotency_key"
    ensures Field(Fingerprint(body), field) == Field(body, field)
  {
  }

  lemma FingerprintDescribes(prop: Property, body: Body, parseDay: string -> Option<int>, input: BookingInput)
    ensures Describes(prop, Fingerprint(body), parseDay, input) <==> Describes(prop, body, parseDay, input)
  {
    TrimIdempotent(StringOr(Field(body, "idempotency_key")));
    FingerprintKeepsFields(body, "checkin");
    FingerprintKeepsFields(body, "checkout");
    SameStay(Fingerprint(body), body, parseDay, input.checkin, input.checkout);
    FingerprintKeepsFields(body, "total_amount");
    FingerprintKeepsFields(body, "room_ids");
    FingerprintKeepsFields(body, "rooms");
    FingerprintKeepsFields(body, "room_type_id");
    FingerprintKeepsFields(body, "room_type");
    FingerprintKeepsFields(body, "adults");
    FingerprintKeepsFields(body, "children");
    FingerprintKeepsFields(body, "currency");
  }

  lemma SameStay(a: Body, b: Body, parseDay: string -> Option<int>, checkin: int, checkout: int)
    requires Field(a, "checkin") == Field(b, "checkin") && Field(a, "checkout") == Field(b, "checkout")
    ensures QuoteRules.SaysStay(a, parseDay, checkin, checkout) <==> QuoteRules.SaysStay(b, parseDay, checkin, checkout)
  {
    QuoteRules.DatesReadIff(a, parseDay, checkin, checkout);
    QuoteRules.DatesReadIff(b, parseDay, checkin, checkout);
  }

  /** The PMS is asked for a booking exactly when the channel is on, the key is given and fits, no reply is stored for
      it, and the body describes a booking; and then for that booking. */
  lemma AskedIff(s: Saga, prop: Property, body: Body, env: Env, input: BookingInput)
    ensures Asked(s, prop, body, env) == Some(input) <==>
              && env.engine == Quoting.EngineOn && env.idemUp
              && KeyOf(body) != "" && ByteLength(KeyOf(body)) <= 200
              && !LiveRecord(s.idem, StoreKey(prop.orgId, prop.id, KeyOf(body)), env.now)
              && Describes(prop, body, env.parseDay, input)
  {
    InputReadIff(prop, Fingerprint(body), env, input);
    FingerprintDescribes(prop, body, env.parseDay, input);
  }

  /** How many stays a PMS answer confirms. */
  function Confirmed(b: PmsBooking): nat {
    if b.reservationIds != [] then |b.reservationIds| else |b.roomIds|
  }

  /** A first call succeeds exactly when it reaches the PMS and the PMS confirms stays under a single number; everything
      in the reply is the PMS's or the request's. */
  lemma BookingSucceedsIff(s: Saga, prop: Property, body: Body, env: Env)
    requires !LiveRecord(s.idem, StoreKey(prop.orgId, prop.id, KeyOf(body)), env.now)
    ensures BookStep(s, prop, body, env).1.Ok? <==>
              exists input, b ::
                && Asked(s, prop, body, env) == Some(input) && env.pms(input) == Some(b)
                && |b.bookingIds| == 1 && Confirmed(b) > 0
  {
    if Asked(s, prop, body, env).Some? {
      var input := Asked(s, prop, body, env).value;
      AskedStep(s, prop, body, env, input);
      if env.pms(input).Some? {
        CommitOkIff(s, prop, body, input, env.pms(input).value, env);
      }
    } else {
      UnaskedFails(s, prop, body, env);
    }
  }

  lemma AskedStep(s: Saga, prop: Property, body: Body, env: Env, input: BookingInput)
    requires Asked(s, prop, body, env) == Some(input)
    ensures BookStep(s, prop, body, env) ==
              if env.pms(input).None? then (s, Err(PmsRejected), [])
              else Commit(s, prop, body, input, env.pms(input).value, env)
  {
  }

  lemma UnaskedFails(s: Saga, prop: Property, body: Body, env: Env)
    requires Asked(s, prop, body, env).None?
    requires !LiveRecord(s.idem, StoreKey(prop.orgId, prop.id, KeyOf(body)), env.now)
    ensures BookStep(s, prop, body, env).1.Err?
  {
  }

  lemma CommitOkIff(s: Saga, prop: Property, body: Body, input: BookingInput, b: PmsBooking, env: Env)
    ensures Commit(s, prop, body, input, b, env).1.Ok? <==> |b.bookingIds| == 1 && Confirmed(b) > 0
  {
  }

  lemma ReplySays(s: Saga, prop: Property, body: Body, env: Env, input: BookingInput, b: PmsBooking)
    requires Asked(s, prop, body, env) == Some(input) && env.pms(input) == Some(b)
    requires BookStep(s, prop, body, env).1.Ok?
    ensures var (after, reply, fates) := BookStep(s, prop, body, env);
            Says(reply.value, input, b, fates)
            && after.idem == if env.putUp then
                 s.idem[StoreKey(prop.orgId, prop.id, KeyOf(body)) :=
                        Record(Some(Fingerprint(body)), Some(reply.value), env.now + 24 * 60 * 60)]
               else s.idem
  {
    assert BookStep(s, prop, body, env) == Commit(s, prop, body, input, b, env);
    CommitSays(s, prop, body, input, b, env);
  }

  /** A reply in terms of the request, the PMS's answer and what became of the stays. */
  ghost predicate Says(r: Response, input: BookingInput, b: PmsBooking, fates: seq<StayFate>) {
    && r.bookingIds == b.bookingIds && r.reservationIds == b.reservationIds && r.roomIds == b.roomIds
    && r.total == input.total && r.currency == input.currency && r.paymentStatus == b.paymentStatus
    && |fates| == Confirmed(b) == |r.cmReservationIds|
    && (forall i :: 0 <= i < |fates| ==>
          r.cmReservationIds[i] == match fates[i] case Written(id) => id case _ => "")
    && (r.reconciliationPending <==> exists i :: 0 <= i < |fates| && fates[i] == NotWritten)
  }

  lemma ResponseSays(input: BookingInput, b: PmsBooking, fates: seq<StayFate>)
    requires |fates| == Confirmed(b)
    ensures Says(ResponseFor(input, b, fates), input, b, fates)
  {
  }

  lemma CommitSays(s: Saga, prop: Property, body: Body, input: BookingInput, b: PmsBooking, env: Env)
    requires Commit(s, prop, body, input, b, env).1.Ok?
    ensures var (after, reply, fates) := Commit(s, prop, body, input, b, env);
            Says(reply.value, input, b, fates)
            && after.idem == if env.putUp then
                 s.idem[StoreKey(prop.orgId, prop.id, KeyOf(body)) :=
                        Record(Some(Fingerprint(body)), Some(reply.value), env.now + 24 * 60 * 60)]
               else s.idem
  {
    var tenant := if env.tenant.Some? then env.tenant.value else "";
    OneFatePerStay(s.book, ReservationFor(prop, Fingerprint(body), b, input.checkin, input.checkout, tenant),
                   input.key, Confirmed(b), Confirmed(b), env);
    ResponseSays(input, b, Commit(s, prop, body, input, b, env).2);
  }

  /** A stored reply is replayed for a day and not a second longer; then the same request is a first call again. */
  lemma RecordLivesADay(s: Saga, prop: Property, body: Body, env: Env, later: int)
    requires Asked(s, prop, body, env).Some? && BookStep(s, prop, body, env).1.Ok? && env.putUp
    ensures var k := StoreKey(prop.orgId, prop.id, KeyOf(body));
            LiveRecord(BookStep(s, prop, body, env).0.idem, k, later) <==> later < env.now + 24 * 60 * 60
  {
    var input := Asked(s, prop, body, env).value;
    AskedStep(s, prop, body, env, input);
    ReplySays(s, prop, body, env, input, env.pms(input).value);
  }

  /** Why a first call fails. */
  lemma BookingFailsFor(s: Saga, prop: Property, body: Body, env: Env)
    requires !LiveRecord(s.idem, StoreKey(prop.orgId, prop.id, KeyOf(body)), env.now)
    ensures var r := BookStep(s, prop, body, env).1;
            && (r == Err(EngineUnknown) <==> env.engine == Quoting.EngineError)
            && (r == Err(EngineDisabled) <==> env.engine == Quoting.EngineOff)
            && (r == Err(BadKey) <==>
                  env.engine == Quoting.EngineOn && (KeyOf(body) == "" || ByteLength(KeyOf(body)) > 200))
            && (r.Err? ==> BookStep(s, prop, body, env).0 == s)
  {
    InputErrors(prop, Fingerprint(body), env);
    if Asked(s, prop, body, env).Some? && env.pms(Asked(s, prop, body, env).value).Some? {
      var input := Asked(s, prop, body, env).value;
      assert BookStep(s, prop, body, env) == Commit(s, prop, body, input, env.pms(input).value, env);
    }
  }

  lemma InputErrors(prop: Property, body: Body, env: Env)
    ensures var r := InputOf(prop, body, env);
            r.Err? ==> r.error.BadDates? || r.error == BadTotal || r.error.BadRoomIds? || r.error == NoRoomNamed
                       || r.error == TooManyRooms
  {
  }

  /** Why a body is not accepted: the first of its faults, in the order dates, total, rooms. */
  lemma InputFailsFor(prop: Property, body: Body, env: Env)
    ensures var r, dates := InputOf(prop, body, env), Quoting.ParseDateRange(body, env.parseDay);
            var total, asked := FloatOr(Field(body, "total_amount"), 0.0), IntOr(Field(body, "rooms"), 0);
            var typed := StringOr(Field(body, "room_type_id")) != "" || StringOr(Field(body, "room_type")) != "";
            && (dates.Err? <==> r == Err(BadDates(if dates.Err? then dates.error else Quoting.EngineUnknown)))
            && (r == Err(BadTotal) <==> dates.Ok? && total <= 0.0)
            && (r.Err? && r.error.BadRoomIds? <==>
                  dates.Ok? && total > 0.0 && forall roomIds :: !NamesRooms(body, roomIds))
            && (r == Err(NoRoomNamed) <==> dates.Ok? && total > 0.0 && NamesRooms(body, []) && !typed)
            && (r == Err(TooManyRooms) <==> dates.Ok? && total > 0.0 && NamesRooms(body, []) && typed && asked > 20)
  {
    var rooms := OptionalRooms(Field(body, "room_ids"));
    OptionalRoomsIff(body, []);
    if rooms.Ok? {
      OptionalRoomsIff(body, rooms.value);
    } else {
      forall roomIds ensures !NamesRooms(body, roomIds) {
        OptionalRoomsIff(body, roomIds);
      }
    }
  }

  /** A call that reaches the PMS and is turned away there says so, and only such a call. */
  lemma PmsRejectsIff(s: Saga, prop: Property, body: Body, env: Env, input: BookingInput)
    requires Asked(s, prop, body, env) == Some(input)
    ensures BookStep(s, prop, body, env).1 == Err(PmsRejected) <==> env.pms(input).None?
  {
    if env.pms(input).Some? {
      assert BookStep(s, prop, body, env) == Commit(s, prop, body, input, env.pms(input).value, env);
    }
  }

  /** Two requests have the same fingerprint exactly when they agree on the trimmed key and on every other field. */
  lemma FingerprintIff(a: Body, b: Body)
    ensures Fingerprint(a) == Fingerprint(b) <==>
              && KeyOf(a) == KeyOf(b)
              && forall field :: field != "idempotency_key" ==>
                   (field in a <==> field in b) && (field in a ==> a[field] == b[field])
  {
    if Fingerprint(a) == Fingerprint(b) {
      assert Fingerprint(a)["idempotency_key"] == Str(KeyOf(a)) && Fingerprint(b)["idempotency_key"] == Str(KeyOf(b));
      forall field | field != "idempotency_key"
        ensures (field in a <==> field in b) && (field in a ==> a[field] == b[field])
      {
        assert field in Fingerprint(a) <==> field in a;
        assert field in Fingerprint(b) <==> field in b;
        assert field in a ==> Fingerprint(a)[field] == a[field] && Fingerprint(b)[field] == b[field];
      }
    } else {
      SameFieldsSameFingerprint(a, b);
    }
  }

  lemma SameFieldsSameFingerprint(a: Body, b: Body)
    ensures && KeyOf(a) == KeyOf(b)
            && (forall field :: field != "idempotency_key" ==>
                  (field in a <==> field in b) && (field in a ==> a[field] == b[field]))
            ==> Fingerprint(a) == Fingerprint(b)
  {
  }

  /** The key of a stay: the caller's, with the stay's number behind a colon if there are several. */
  lemma StayKeyIs(key: string, count: nat, i: nat)
    requires i < count && i <= MAX_INT
    ensures count == 1 || key == "" ==> StayKey(key, count, i) == key
    ensures count > 1 && key != "" ==>
              var k := StayKey(key, count, i);
              |k| > |key| && k[..|key|] == key && k[|key|] == ':' && Atoi(k[|key| + 1..]) == Some(i)
  {
    AtoiOfItoa(i);
    if count > 1 && key != "" {
      assert StayKey(key, count, i)[|key| + 1..] == Itoa(i);
    }
  }

  /** The room type and guest of the canonical rows. */
  lemma RowsNameTheGuest(s: Saga, prop: Property, body: Body, env: Env, i: nat, input: BookingInput, b: PmsBooking)
    requires Asked(s, prop, body, env) == Some(input) && env.pms(input) == Some(b)
    requires |s.book.rows| <= i < |BookStep(s, prop, body, env).0.book.rows|
    ensures var row := BookStep(s, prop, body, env).0.book.rows[i];
            row.res.roomTypeId == StringOr(Field(body, "room_type_id")) && row.res.guestName == b.guestName
  {
    assert BookStep(s, prop, body, env) == Commit(s, prop, body, input, b, env);
    FingerprintKeepsFields(body, "room_type_id");
    var tenant := if env.tenant.Some? then env.tenant.value else "";
    var res := ReservationFor(prop, Fingerprint(body), b, input.checkin, input.checkout, tenant);
    RowsAreTheStays(s.book, res, input.key, StayCount(b), StayCount(b), env, i);
  }

  // ---------------------------------------------------------------- mirrors and saves

  /** The mirrored booking, field by field. */
  ghost predicate MirrorDescribes(prop: Property, body: Body, env: Env, res: Reservation) {
    && env.tenant == Some(res.orgId) && res.propertyId == prop.id && res.channelId == ""
    && QuoteRules.SaysStay(body, env.parseDay, res.checkin, res.checkout)
    && Field(body, "total_amount") == Num(res.total) && res.total > 0.0
    && res.roomTypeId == StringOr(Field(body, "room_type_id"))
    && res.guestName == (if StringOr(Field(body, "guest_name")) != "" then StringOr(Field(body, "guest_name"))
                         else StringOr(Field(body, "name")))
    && res.currency == Quoting.CurrencyOr(StringOr(Field(body, "currency")), prop.defaultCurrency)
    && res.status == "confirmed" && res.confirmationId == StringOr(Field(body, "pms_booking_id"))
  }

  /** A mirror is recorded exactly when the body describes one, its key is new, and the save works; the row added is
      that booking under that key. */
  lemma MirrorRecordsIff(b: Book, prop: Property, body: Body, env: Env, res: Reservation)
    requires MirrorDescribes(prop, body, env, res)
    ensures var (after, reply) := MirrorStep(b, prop, body, env);
            var key := StringOr(Field(body, "idempotency_key"));
            && (reply == AlreadyRecorded <==> key != "" && key in b.seen)
            && (reply.Recorded? <==> !(key != "" && key in b.seen) && env.save(0).Some?)
            && (reply.Recorded? ==> after.rows == b.rows + [Row(reply.id, key, res)] && env.save(0) == Some(reply.id))
            && (!reply.Recorded? ==> after == b)
  {
    QuoteRules.DatesReadIff(body, env.parseDay, res.checkin, res.checkout);
    assert MirrorReservation(prop, body, env) == res;
  }

  lemma MirrorRefusedIff(b: Book, prop: Property, body: Body, env: Env)
    ensures (forall res :: !MirrorDescribes(prop, body, env, res)) ==>
              MirrorStep(b, prop, body, env) == (b, MirrorFailed)
  {
    if env.tenant.Some? && Quoting.ParseDateRange(body, env.parseDay).Ok?
       && FloatOr(Field(body, "total_amount"), 0.0) > 0.0 {
      var dates := Quoting.ParseDateRange(body, env.parseDay).value;
      QuoteRules.DatesReadIff(body, env.parseDay, dates.0, dates.1);
      assert MirrorDescribes(prop, body, env, MirrorReservation(prop, body, env));
    }
  }

  /** A save that is not a duplicate and works adds one row, at the end, with a blank status read as confirmed. */
  lemma PersistAdds(b: Book, res: Reservation, key: string, save: Option<string>)
    ensures var (after, r) := Persisted(b, res, key, save);
            && (r == Err(DuplicateKey) <==> key != "" && key in b.seen)
            && (r.Ok? <==> !(key != "" && key in b.seen) && save.Some?)
            && (r.Err? ==> after == b)
            && (r.Ok? ==>
                  && after.rows == b.rows + [Row(save.value, key, if res.status != "" then res
                                                                  else res.(status := "confirmed"))]
                  && r.value == save.value && after.seen == b.seen + (if key != "" then {key} else {}))
  {
  }

  /** Saving a known OTA reservation again rewrites its stay, status and price in place and nothing else. */
  lemma KnownOtaIsRewritten(table: seq<Row>, row: Row, i: nat)
    requires i < |table| && row.res.channelId != "" && row.res.confirmationId != ""
    requires table[i].res.channelId == row.res.channelId && table[i].res.confirmationId == row.res.confirmationId
    requires forall k :: 0 <= k < i ==> !(&& table[k].res.channelId == row.res.channelId
                                          && table[k].res.confirmationId == row.res.confirmationId)
    ensures var after := Upserted(table, row);
            && |after| == |table| && (forall k :: 0 <= k < |table| && k != i ==> after[k] == table[k])
            && after[i].id == table[i].id && after[i].key == table[i].key
            && after[i].res == table[i].res.(checkin := row.res.checkin, checkout := row.res.checkout,
                                             status := row.res.status, total := row.res.total,
                                             currency := row.res.currency)
  {
    assert FindOta(table, row.res) == i;
  }

  /** A save adds a row unless both its channel and its confirmation id are given and some row has the same two. */
  lemma SaveIsAddedIff(table: seq<Row>, row: Row)
    ensures Upserted(table, row) == table + [row] <==>
              || row.res.channelId == "" || row.res.confirmationId == ""
              || forall k :: 0 <= k < |table| ==>
                   !(&& table[k].res.channelId == row.res.channelId
                     && table[k].res.confirmationId == row.res.confirmationId)
  {
    var i := FindOta(table, row.res);
    if i == |table| {
      assert forall k :: 0 <= k < |table| ==> !SameOta(table[k].res, row.res);
    } else {
      assert SameOta(table[i].res, row.res);
      assert |Upserted(table, row)| == |table| < |table + [row]|;
    }
  }
}
