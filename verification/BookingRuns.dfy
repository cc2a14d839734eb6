/** What every run of bookings, mirrors, ingests, restarts and waits keeps, for any failures of the PMS and the
    stores. */
module BookingRuns {
  import opened Results
  import opened Text
  import opened Payload
  import opened Ledger
  import opened Booking
  import Quoting

  // ---------------------------------------------------------------- one booking

  function CountWritten(fates: seq<StayFate>): nat {
    if fates == [] then 0 else CountWritten(fates[..|fates| - 1]) + if fates[|fates| - 1].Written? then 1 else 0
  }

  function CountSeen(fates: seq<StayFate>): nat {
    if fates == [] then 0 else CountSeen(fates[..|fates| - 1]) + if fates[|fates| - 1].AlreadySeen? then 1 else 0
  }

  function CountUnwritten(fates: seq<StayFate>): nat {
    if fates == [] then 0 else CountUnwritten(fates[..|fates| - 1]) + if fates[|fates| - 1].NotWritten? then 1 else 0
  }

  lemma {:induction false} CountsAddUp(fates: seq<StayFate>)
    ensures CountWritten(fates) + CountSeen(fates) + CountUnwritten(fates) == |fates|
  {
    if fates != [] {
      CountsAddUp(fates[..|fates| - 1]);
    }
  }

  /** Recording appends one row per written stay and touches no earlier row. */
  lemma {:induction false} StaysAppend(b: Book, res: Reservation, key: string, count: nat, n: nat, env: Env)
    ensures var (after, fates) := RecordStays(b, res, key, count, n, env);
            && |fates| == n && b.rows <= after.rows
            && |after.rows| == |b.rows| + CountWritten(fates)
            && b.seen <= after.seen
  {
    if n > 0 {
      StaysAppend(b, res, key, count, n - 1, env);
      var (before, fates) := RecordStays(b, res, key, count, n - 1, env);
      var (after, fate) := RecordStay(before, res, StayKey(key, count, n - 1), env.tenant, env.save(n - 1));
      StayAppends(before, res, StayKey(key, count, n - 1), env.tenant, env.save(n - 1));
      assert (fates + [fate])[..n - 1] == fates;
    }
  }

  lemma StayAppends(b: Book, res: Reservation, key: string, tenant: Option<string>, save: Option<string>)
    ensures var (after, fate) := RecordStay(b, res, key, tenant, save);
            b.rows <= after.rows && |after.rows| == |b.rows| + (if fate.Written? then 1 else 0) && b.seen <= after.seen
  {
  }

  /** The fate of the i-th stay, from three facts known before the call: tenant, key seen, and whether the save
      works. */
  function ForeseenFate(b: Book, key: string, count: nat, env: Env, i: nat): StayFate {
    if env.tenant.None? then NotWritten
    else if StayKey(key, count, i) in b.seen then AlreadySeen
    else if env.save(i).Some? then Written(env.save(i).value)
    else NotWritten
  }

  lemma LastFate(b: Book, res: Reservation, key: string, count: nat, i: nat, env: Env)
    ensures RecordStays(b, res, key, count, i + 1, env).1 == RecordStays(b, res, key, count, i, env).1
              + [RecordStay(RecordStays(b, res, key, count, i, env).0, res, StayKey(key, count, i), env.tenant,
                            env.save(i)).1]
  {
  }

  lemma {:induction false} OneFatePerStay(b: Book, res: Reservation, key: string, count: nat, n: nat, env: Env)
    ensures |RecordStays(b, res, key, count, n, env).1| == n
  {
    if n > 0 {
      OneFatePerStay(b, res, key, count, n - 1, env);
    }
  }

  lemma {:induction false} FateAt(b: Book, res: Reservation, key: string, count: nat, n: nat, env: Env, i: nat)
    requires i < n
    ensures |RecordStays(b, res, key, count, n, env).1| == n
    ensures RecordStays(b, res, key, count, n, env).1[i] ==
              RecordStay(RecordStays(b, res, key, count, i, env).0, res, StayKey(key, count, i), env.tenant,
                         env.save(i)).1
    decreases n
  {
    OneFatePerStay(b, res, key, count, n - 1, env);
    LastFate(b, res, key, count, n - 1, env);
    var fates := RecordStays(b, res, key, count, n - 1, env).1;
    if i < n - 1 {
      FateAt(b, res, key, count, n - 1, env, i);
      assert RecordStays(b, res, key, count, n, env).1[i] == fates[i];
    }
  }

  /** Each stay meets its foreseen fate: the earlier stays of the same call never get in its way. */
  lemma FateIs(b: Book, res: Reservation, key: string, count: nat, n: nat, env: Env, i: nat)
    requires key != "" && i < n <= count
    ensures |RecordStays(b, res, key, count, n, env).1| == n
    ensures RecordStays(b, res, key, count, n, env).1[i] == ForeseenFate(b, key, count, env, i)
  {
    FateAt(b, res, key, count, n, env, i);
    OwnKeyIsStillUnseen(b, res, key, count, i, env);
  }

  /** Before its turn a stay's key is seen exactly if it was seen before the call. */
  lemma OwnKeyIsStillUnseen(b: Book, res: Reservation, key: string, count: nat, i: nat, env: Env)
    requires key != "" && i < count
    ensures StayKey(key, count, i) in RecordStays(b, res, key, count, i, env).0.seen <==>
              StayKey(key, count, i) in b.seen
  {
    StaysAppend(b, res, key, count, i, env);
    SeenGrowsByOwnKeys(b, res, key, count, i, env, StayKey(key, count, i));
    forall j: nat | j < i ensures StayKey(key, count, j) != StayKey(key, count, i) {
      StayKeysDistinct(key, count, i, j);
    }
  }

  lemma {:induction false} SeenGrowsByOwnKeys(b: Book, res: Reservation, key: string, count: nat, n: nat, env: Env,
                                              k: string)
    requires n <= count
    ensures k in RecordStays(b, res, key, count, n, env).0.seen ==>
              k in b.seen || exists j: nat :: j < n && k == StayKey(key, count, j)
  {
    if n > 0 {
      var (before, fates) := RecordStays(b, res, key, count, n - 1, env);
      SeenGrowsByOwnKeys(b, res, key, count, n - 1, env, k);
      StayOnSeen(before, res, StayKey(key, count, n - 1), env.tenant, env.save(n - 1));
    }
  }

  lemma StayOnSeen(b: Book, res: Reservation, key: string, tenant: Option<string>, save: Option<string>)
    ensures var (after, fate) := RecordStay(b, res, key, tenant, save);
            && b.seen <= after.seen <= b.seen + {key}
            && (key != "" && !fate.NotWritten? ==> key in after.seen)
  {
  }

  /** A stay that is not reported as unwritten has its key on record. */
  lemma {:induction false} SettledKeysAreSeen(b: Book, res: Reservation, key: string, count: nat, n: nat, env: Env,
                                              i: nat)
    requires key != "" && i < n <= count
    ensures |RecordStays(b, res, key, count, n, env).1| == n
    ensures !RecordStays(b, res, key, count, n, env).1[i].NotWritten? ==>
              StayKey(key, count, i) in RecordStays(b, res, key, count, n, env).0.seen
  {
    StaysAppend(b, res, key, count, n, env);
    StaysAppend(b, res, key, count, n - 1, env);
    var (before, fates) := RecordStays(b, res, key, count, n - 1, env);
    var (after, all) := RecordStays(b, res, key, count, n, env);
    StayOnSeen(before, res, StayKey(key, count, n - 1), env.tenant, env.save(n - 1));
    if i < n - 1 {
      SettledKeysAreSeen(b, res, key, count, n - 1, env, i);
      assert all[i] == fates[i];
    }
  }

  lemma AllFates(b: Book, res: Reservation, key: string, count: nat, env: Env)
    requires key != ""
    ensures RecordStays(b, res, key, count, count, env).1 ==
              seq(count, i requires 0 <= i < count => ForeseenFate(b, key, count, env, i))
  {
    StaysAppend(b, res, key, count, count, env);
    forall i: nat | i < count
        ensures RecordStays(b, res, key, count, count, env).1[i] == ForeseenFate(b, key, count, env, i)
    {
      FateIs(b, res, key, count, count, env, i);
    }
  }

  /** A reply reports nothing pending exactly when the tenant is known and every stay's key was used before or is saved
      now. */
  lemma NothingPendingIff(b: Book, res: Reservation, key: string, count: nat, env: Env)
    requires key != "" && count > 0
    ensures !Pending(RecordStays(b, res, key, count, count, env).1) <==>
              env.tenant.Some? && forall i: nat :: i < count ==> StayKey(key, count, i) in b.seen || env.save(i).Some?
  {
    var fates := RecordStays(b, res, key, count, count, env).1;
    AllFates(b, res, key, count, env);
    assert fates[0] == ForeseenFate(b, key, count, env, 0);
    if i: nat :| i < count && !(StayKey(key, count, i) in b.seen || env.save(i).Some?) {
      assert fates[i].NotWritten?;
    }
  }

  /** Every confirmed stay gets a row of its own exactly when the tenant is known, every save works, and none of the
      keys was used before. */
  lemma EveryStayHasARowIff(b: Book, res: Reservation, key: string, count: nat, env: Env)
    requires key != "" && count > 0
    ensures |RecordStays(b, res, key, count, count, env).0.rows| == |b.rows| + count <==>
              env.tenant.Some? && forall i: nat :: i < count ==> StayKey(key, count, i) !in b.seen && env.save(i).Some?
  {
    var fates := RecordStays(b, res, key, count, count, env).1;
    StaysAppend(b, res, key, count, count, env);
    AllFates(b, res, key, count, env);
    AllWrittenIff(fates);
    assert fates[0] == ForeseenFate(b, key, count, env, 0);
    if i: nat :| i < count && !(StayKey(key, count, i) !in b.seen && env.save(i).Some?) {
      assert !fates[i].Written?;
    }
  }

  lemma {:induction false} AllWrittenIff(fates: seq<StayFate>)
    ensures CountWritten(fates) <= |fates|
    ensures CountWritten(fates) == |fates| <==> forall i :: 0 <= i < |fates| ==> fates[i].Written?
  {
    if fates != [] {
      var init := fates[..|fates| - 1];
      AllWrittenIff(init);
      assert forall i :: 0 <= i < |init| ==> init[i] == fates[i];
    }
  }

  /** The keys are not scoped: a booking whose key was already used, at any property of any organization, is confirmed
      to the guest with nothing pending and leaves no canonical row. */
  lemma SharedKeyLosesTheReservation(s: Saga, prop: Property, body: Body, env: Env)
    requires Asked(s, prop, body, env).Some? && env.pms(Asked(s, prop, body, env).value).Some?
    requires var b := env.pms(Asked(s, prop, body, env).value).value; |b.bookingIds| == 1 && StayCount(b) == 1
    requires env.tenant.Some? && KeyOf(body) in s.book.seen
    ensures var (after, r, fates) := BookStep(s, prop, body, env);
            r.Ok? && !r.value.reconciliationPending && after.book == s.book
  {
    var input := Asked(s, prop, body, env).value;
    InputKey(prop, body, env);
    var b := env.pms(input).value;
    var tenant := env.tenant.value;
    var res := ReservationFor(prop, Fingerprint(body), b, input.checkin, input.checkout, tenant);
    assert RecordStay(s.book, res, StayKey(input.key, 1, 0), env.tenant, env.save(0)) == (s.book, AlreadySeen);
    assert RecordStays(s.book, res, input.key, 1, 0, env) == (s.book, []);
    assert [] + [AlreadySeen] == [AlreadySeen];
    assert RecordStays(s.book, res, input.key, 1, 1, env) == (s.book, [AlreadySeen]);
    assert !Pending([AlreadySeen]);
  }

  /** Every row a booking writes is the canonical reservation of that booking, under the key of one of its stays. */
  lemma {:induction false} RowsAreTheStays(b: Book, res: Reservation, key: string, count: nat, n: nat, env: Env, i: nat)
    requires res.status == "confirmed"
    requires |b.rows| <= i < |RecordStays(b, res, key, count, n, env).0.rows|
    ensures var row := RecordStays(b, res, key, count, n, env).0.rows[i];
            row.res == res && exists j: nat :: j < n && row.key == StayKey(key, count, j) && env.save(j) == Some(row.id)
    decreases n
  {
    StaysAppend(b, res, key, count, n - 1, env);
    var before := RecordStays(b, res, key, count, n - 1, env).0;
    var after := RecordStays(b, res, key, count, n, env).0;
    assert after == RecordStay(before, res, StayKey(key, count, n - 1), env.tenant, env.save(n - 1)).0;
    if i < |before.rows| {
      RowsAreTheStays(b, res, key, count, n - 1, env, i);
      assert after.rows[i] == before.rows[i];
    } else {
      assert after.rows[i].key == StayKey(key, count, n - 1);
    }
  }

  /** The rows of a confirmed booking carry the caller's organization, the property, the stay, the price and the PMS's
      confirmation number. */
  lemma WrittenRowsCarryTheBooking(s: Saga, prop: Property, body: Body, env: Env, i: nat)
    requires Asked(s, prop, body, env).Some? && env.pms(Asked(s, prop, body, env).value).Some?
    requires |s.book.rows| <= i < |BookStep(s, prop, body, env).0.book.rows|
    ensures var input, row := Asked(s, prop, body, env).value, BookStep(s, prop, body, env).0.book.rows[i];
            && env.tenant == Some(row.res.orgId) && row.res.propertyId == prop.id
            && row.res.checkin == input.checkin && row.res.checkout == input.checkout
            && row.res.total == input.total && row.res.currency == input.currency && row.res.status == "confirmed"
            && env.pms(input).value.bookingIds == [row.res.confirmationId] && row.res.channelId == ""
  {
    var input := Asked(s, prop, body, env).value;
    var b := env.pms(input).value;
    InputIsSane(prop, body, env);
    assert BookStep(s, prop, body, env) == Commit(s, prop, body, input, b, env);
    var res := ReservationFor(prop, Fingerprint(body), b, input.checkin, input.checkout,
                              if env.tenant.Some? then env.tenant.value else "");
    RowsAreTheStays(s.book, res, input.key, StayCount(b), StayCount(b), env, i);
    if env.tenant.None? {
      NoTenantNoRows(s.book, res, input.key, StayCount(b), StayCount(b), env);
    }
  }

  lemma {:induction false} NoTenantNoRows(b: Book, res: Reservation, key: string, count: nat, n: nat, env: Env)
    requires env.tenant.None?
    ensures RecordStays(b, res, key, count, n, env).0 == b
  {
    if n > 0 {
      NoTenantNoRows(b, res, key, count, n - 1, env);
    }
  }

  /** What reaches the PMS is a non-empty stay at a positive price, for named rooms or for one to twenty rooms of a
      type, under the trimmed key. */
  lemma InputIsSane(prop: Property, body: Body, env: Env)
    requires InputOf(prop, Fingerprint(body), env).Ok?
    ensures var input := InputOf(prop, Fingerprint(body), env).value;
            && input.checkin < input.checkout && input.total > 0.0
            && (WellFormedRooms(input.roomIds)
                || (input.roomIds == [] && 1 <= input.rooms <= ROOM_LIMIT
                    && (input.roomTypeId != "" || input.roomType != "")))
            && input.key == KeyOf(body)
            && input.total == FloatOr(Field(Fingerprint(body), "total_amount"), 0.0)
            && input.currency ==
                  Quoting.CurrencyOr(StringOr(Field(Fingerprint(body), "currency")), prop.defaultCurrency)
  {
    InputKey(prop, body, env);
    var rooms := Field(Fingerprint(body), "room_ids");
    if OptionalRooms(rooms) != Ok([]) {
      RoomListSound(rooms);
    }
  }

  /** Mirroring a booking again under the same key is a no-op that says so. */
  lemma MirrorTwice(b: Book, prop: Property, body: Body, env: Env, again: Env)
    requires MirrorStep(b, prop, body, env).1 != MirrorFailed && StringOr(Field(body, "idempotency_key")) != ""
    requires again.tenant.Some? && again.parseDay == env.parseDay
    ensures MirrorStep(MirrorStep(b, prop, body, env).0, prop, body, again) ==
              (MirrorStep(b, prop, body, env).0, AlreadyRecorded)
  {
    var key := StringOr(Field(body, "idempotency_key"));
    assert key in MirrorStep(b, prop, body, env).0.seen;
  }

  lemma InputKey(prop: Property, body: Body, env: Env)
    requires InputOf(prop, Fingerprint(body), env).Ok?
    ensures InputOf(prop, Fingerprint(body), env).value.key == KeyOf(body)
  {
    TrimIdempotent(StringOr(Field(body, "idempotency_key")));
  }

  // ---------------------------------------------------------------- runs

  datatype Event =
    | Guest(prop: Property, body: Body, env: Env)                       // create_booking
    | Mirror(prop: Property, body: Body, env: Env)                      // record_direct_reservation
    | Ingest(res: Reservation, key: string, save: Option<string>)       // a booking fetched from an OTA
    | Restart                                                           // the process loses its seen keys
    | Wait(seconds: nat)

  /** Running totals over the bookings of a run, in stays. `confirmed` is what the PMS confirmed, `rows` the canonical
      rows those bookings added, `repeats` the stays dropped as duplicates, `pending` those reported as pending, and
      `orphans` those of answers without a single confirmation number. */
  datatype Tally = Tally(confirmed: nat, rows: int, repeats: nat, pending: nat, orphans: nat)

  datatype World = World(saga: Saga, now: int, tally: Tally)

  const START := World(Saga(map[], NO_ROWS), 0, Tally(0, 0, 0, 0, 0))

  /** The stays the PMS confirmed in one call. */
  function ConfirmedIn(s: Saga, prop: Property, body: Body, env: Env): nat {
    if Asked(s, prop, body, env).Some? && env.pms(Asked(s, prop, body, env).value).Some?
    then StayCount(env.pms(Asked(s, prop, body, env).value).value)
    else 0
  }

  function Tallied(t: Tally, s: Saga, prop: Property, body: Body, env: Env): Tally {
    var (after, r, fates) := BookStep(s, prop, body, env);
    Tally(t.confirmed + ConfirmedIn(s, prop, body, env),
          t.rows + |after.book.rows| - |s.book.rows|,
          t.repeats + CountSeen(fates), t.pending + CountUnwritten(fates),
          t.orphans + if r == Err(NoSingleConfirmation) then ConfirmedIn(s, prop, body, env) else 0)
  }

  function Step(w: World, e: Event): World {
    match e
    case Guest(prop, body, env) =>
      World(BookStep(w.saga, prop, body, env).0, w.now, Tallied(w.tally, w.saga, prop, body, env))
    case Mirror(prop, body, env) => w.(saga := w.saga.(book := MirrorStep(w.saga.book, prop, body, env).0))
    case Ingest(res, key, save) => w.(saga := w.saga.(book := Persisted(w.saga.book, res, key, save).0))
    case Restart => w.(saga := w.saga.(book := w.saga.book.(seen := {})))
    case Wait(seconds) => w.(now := w.now + seconds)
  }

  function Run(w: World, events: seq<Event>): World
    decreases events
  {
    if events == [] then w else Run(Step(w, events[0]), events[1..])
  }

  /** Every booking call sees the world's clock. */
  predicate OnClock(w: World, events: seq<Event>)
    decreases events
  {
    events == [] || ((events[0].Guest? ==> events[0].env.now == w.now) && OnClock(Step(w, events[0]), events[1..]))
  }

  predicate NoRestart(events: seq<Event>) {
    forall i :: 0 <= i < |events| ==> !events[i].Restart?
  }

  /** One OTA booking fetched under the same key is enough to get there: the guest's booking is then confirmed, with
      nothing pending and no row of its own. */
  lemma SharedKeyArises(prop: Property, body: Body, env: Env, fetched: Reservation, id: string)
    requires Asked(START.saga, prop, body, env).Some? && env.pms(Asked(START.saga, prop, body, env).value).Some?
    requires var b := env.pms(Asked(START.saga, prop, body, env).value).value; |b.bookingIds| == 1 && StayCount(b) == 1
    requires env.tenant.Some?
    ensures var w := Run(START, [Ingest(fetched, KeyOf(body), Some(id))]);
            var (after, r, fates) := BookStep(w.saga, prop, body, env);
            && r.Ok? && !r.value.reconciliationPending && after.book == w.saga.book
            && |after.book.rows| == 1 && after.book.rows[0].id == id
            && after.book.rows[0].res.propertyId == fetched.propertyId
  {
    var e := Ingest(fetched, KeyOf(body), Some(id));
    var w := Step(START, e);
    assert Run(START, [e]) == Run(w, []) == w;
    assert Asked(w.saga, prop, body, env) == Asked(START.saga, prop, body, env);
    SharedKeyLosesTheReservation(w.saga, prop, body, env);
  }

  // ---------------------------------------------------------------- at most one row per key

  lemma {:induction false} StaysKeepUnique(b: Book, res: Reservation, key: string, count: nat, n: nat, env: Env)
    requires Tracks(b) && AtMostOnce(b)
    ensures Tracks(RecordStays(b, res, key, count, n, env).0) && AtMostOnce(RecordStays(b, res, key, count, n, env).0)
  {
    if n > 0 {
      StaysKeepUnique(b, res, key, count, n - 1, env);
      PersistKeepsTracks(RecordStays(b, res, key, count, n - 1, env).0, res, StayKey(key, count, n - 1),
                         env.save(n - 1));
    }
  }

  /** How a booking call changes the ledger: not at all, or by recording its stays. */
  lemma BookOnLedger(s: Saga, prop: Property, body: Body, env: Env) returns (res: Reservation, count: nat)
    ensures (BookStep(s, prop, body, env).2 == [] && BookStep(s, prop, body, env).0 == s)
            || (&& KeyOf(body) != ""
                && (BookStep(s, prop, body, env).0.book, BookStep(s, prop, body, env).2) ==
                      RecordStays(s.book, res, KeyOf(body), count, count, env)
                && count == ConfirmedIn(s, prop, body, env) && count > 0
                && BookStep(s, prop, body, env).1.Ok?)
  {
    res, count := Reservation("", "", "", "", 0, 0, "", 0.0, "", "", ""), 0;
    if Asked(s, prop, body, env).Some? && env.pms(Asked(s, prop, body, env).value).Some? {
      var input := Asked(s, prop, body, env).value;
      var b := env.pms(input).value;
      InputKey(prop, body, env);
      if |b.bookingIds| == 1 && StayCount(b) > 0 {
        res := ReservationFor(prop, Fingerprint(body), b, input.checkin, input.checkout,
                              if env.tenant.Some? then env.tenant.value else "");
        count := StayCount(b);
      }
    }
  }

  lemma StepKeepsUnique(w: World, e: Event)
    requires Tracks(w.saga.book) && AtMostOnce(w.saga.book) && !e.Restart?
    ensures Tracks(Step(w, e).saga.book) && AtMostOnce(Step(w, e).saga.book)
  {
    match e {
      case Guest(prop, body, env) =>
        var res, count := BookOnLedger(w.saga, prop, body, env);
        StaysKeepUnique(w.saga.book, res, KeyOf(body), count, count, env);
      case Mirror(prop, body, env) =>
        if env.tenant.Some? && Quoting.ParseDateRange(body, env.parseDay).Ok? {
          PersistKeepsTracks(w.saga.book, MirrorReservation(prop, body, env), StringOr(Field(body, "idempotency_key")),
                             env.save(0));
        }
      case Ingest(res, key, save) => PersistKeepsTracks(w.saga.book, res, key, save);
      case Wait(_) =>
    }
  }

  lemma {:induction false} RunKeepsUnique(w: World, events: seq<Event>)
    requires Tracks(w.saga.book) && AtMostOnce(w.saga.book) && NoRestart(events)
    ensures Tracks(Run(w, events).saga.book) && AtMostOnce(Run(w, events).saga.book)
    decreases events
  {
    if events != [] {
      StepKeepsUnique(w, events[0]);
      RunKeepsUnique(Step(w, events[0]), events[1..]);
    }
  }

  /** In one process lifetime no non-empty key is saved twice, whichever actions use it and whatever fails. */
  lemma OneRowPerKey(events: seq<Event>)
    requires NoRestart(events)
    ensures AtMostOnce(Run(START, events).saga.book)
  {
    RunKeepsUnique(START, events);
  }

  // ---------------------------------------------------------------- conservation of stays

  predicate Balanced(t: Tally) {
    t.rows >= 0 && t.confirmed == t.rows + t.repeats + t.pending + t.orphans
  }

  lemma BookingBalances(s: Saga, prop: Property, body: Body, env: Env, t: Tally)
    requires Balanced(t)
    ensures Balanced(Tallied(t, s, prop, body, env))
  {
    var res, count := BookOnLedger(s, prop, body, env);
    var (after, r, fates) := BookStep(s, prop, body, env);
    if fates != [] {
      StaysAppend(s.book, res, KeyOf(body), count, count, env);
      CountsAddUp(fates);
    }
  }

  /** Over every run, each stay the PMS confirmed is accounted for exactly once, so bookings never write more rows than
      the PMS confirmed stays. */
  lemma {:induction false} StaysAreConserved(w: World, events: seq<Event>)
    requires Balanced(w.tally)
    ensures Balanced(Run(w, events).tally) && Run(w, events).tally.rows <= Run(w, events).tally.confirmed
    decreases events
  {
    if events != [] {
      if events[0].Guest? {
        BookingBalances(w.saga, events[0].prop, events[0].body, events[0].env, w.tally);
      }
      StaysAreConserved(Step(w, events[0]), events[1..]);
    }
  }

  // ---------------------------------------------------------------- replies are honest

  /** Every remembered key was saved; restarts may forget keys but never invent them. */
  ghost predicate SeenWasSaved(b: Book) {
    forall k :: k in b.seen ==> Saved(b, k)
  }

  /** A reply that reports nothing pending has a saved row for the key of each of its stays. */
  ghost predicate Honest(b: Book, key: string, reply: Response) {
    !reply.reconciliationPending ==>
      forall i: nat :: i < |reply.cmReservationIds| ==> Saved(b, StayKey(key, |reply.cmReservationIds|, i))
  }

  ghost predicate HonestRecords(s: Saga) {
    forall k :: k in s.idem && s.idem[k].fingerprint.Some? && s.idem[k].response.Some? ==>
      Honest(s.book, KeyOf(s.idem[k].fingerprint.value), s.idem[k].response.value)
  }

  lemma SavedStays(before: Book, after: Book, key: string)
    requires before.rows <= after.rows && Saved(before, key)
    ensures Saved(after, key)
  {
    var i :| 0 <= i < |before.rows| && before.rows[i].key == key;
    assert after.rows[i].key == key;
  }

  lemma PersistKeepsSaved(b: Book, res: Reservation, key: string, save: Option<string>)
    requires SeenWasSaved(b)
    ensures var after := Persisted(b, res, key, save).0; SeenWasSaved(after) && b.rows <= after.rows
  {
    var after := Persisted(b, res, key, save).0;
    forall k | k in after.seen ensures Saved(after, k) {
      if k in b.seen {
        SavedStays(b, after, k);
      } else {
        assert after.rows[|b.rows|].key == k;
      }
    }
  }

  lemma {:induction false} StaysKeepSaved(b: Book, res: Reservation, key: string, count: nat, n: nat, env: Env)
    requires SeenWasSaved(b)
    ensures SeenWasSaved(RecordStays(b, res, key, count, n, env).0)
            && b.rows <= RecordStays(b, res, key, count, n, env).0.rows
  {
    if n > 0 {
      StaysKeepSaved(b, res, key, count, n - 1, env);
      PersistKeepsSaved(RecordStays(b, res, key, count, n - 1, env).0, res, StayKey(key, count, n - 1),
                        env.save(n - 1));
    }
  }

  lemma HonestRecordsGrow(s: Saga, after: Book)
    requires HonestRecords(s) && s.book.rows <= after.rows
    ensures HonestRecords(s.(book := after))
  {
    forall k | k in s.idem && s.idem[k].fingerprint.Some? && s.idem[k].response.Some?
      ensures Honest(after, KeyOf(s.idem[k].fingerprint.value), s.idem[k].response.value)
    {
      var key, reply := KeyOf(s.idem[k].fingerprint.value), s.idem[k].response.value;
      if !reply.reconciliationPending {
        forall i: nat | i < |reply.cmReservationIds| ensures Saved(after, StayKey(key, |reply.cmReservationIds|, i)) {
          SavedStays(s.book, after, StayKey(key, |reply.cmReservationIds|, i));
        }
      }
    }
  }

  /** A booking call only adds rows, and remembers only keys it saved. */
  lemma BookingOnlyAdds(s: Saga, prop: Property, body: Body, env: Env)
    requires SeenWasSaved(s.book)
    ensures var after := BookStep(s, prop, body, env).0; SeenWasSaved(after.book) && s.book.rows <= after.book.rows
  {
    var res, count := BookOnLedger(s, prop, body, env);
    StaysKeepSaved(s.book, res, KeyOf(body), count, count, env);
  }

  lemma ReplyIsHonest(s: Saga, prop: Property, body: Body, env: Env)
    requires SeenWasSaved(s.book) && HonestRecords(s)
    ensures var (after, r, fates) := BookStep(s, prop, body, env);
            r.Ok? ==> Honest(after.book, KeyOf(body), r.value)
  {
    TrimIdempotent(StringOr(Field(body, "idempotency_key")));
    assert KeyOf(Fingerprint(body)) == KeyOf(body);
    BookingOnlyAdds(s, prop, body, env);
    var res, count := BookOnLedger(s, prop, body, env);
    if BookStep(s, prop, body, env).0 != s || BookStep(s, prop, body, env).2 != [] {
      FreshReplyIsHonest(s, prop, body, env, res, count);
    }
  }

  /** A booking call returns an honest reply, fresh or replayed, and stores only honest ones. */
  lemma BookingIsHonest(s: Saga, prop: Property, body: Body, env: Env)
    requires SeenWasSaved(s.book) && HonestRecords(s)
    ensures var (after, r, fates) := BookStep(s, prop, body, env);
            && SeenWasSaved(after.book) && HonestRecords(after) && s.book.rows <= after.book.rows
            && (r.Ok? ==> Honest(after.book, KeyOf(body), r.value))
  {
    BookingOnlyAdds(s, prop, body, env);
    ReplyIsHonest(s, prop, body, env);
    HonestRecordsGrow(s, BookStep(s, prop, body, env).0.book);
    TrimIdempotent(StringOr(Field(body, "idempotency_key")));
    RecordWritten(s, prop, body, env);
  }

  /** A call changes at most the record of its own scope, to its own reply. */
  lemma RecordWritten(s: Saga, prop: Property, body: Body, env: Env)
    ensures var (after, r, fates) := BookStep(s, prop, body, env);
            || after.idem == s.idem
            || (r.Ok? && after.idem == s.idem[StoreKey(prop.orgId, prop.id, KeyOf(body)) :=
                                              Record(Some(Fingerprint(body)), Some(r.value), env.now + RECORD_TTL)])
  {
    if Asked(s, prop, body, env).Some? && env.pms(Asked(s, prop, body, env).value).Some? {
      var input := Asked(s, prop, body, env).value;
      assert BookStep(s, prop, body, env) == Commit(s, prop, body, input, env.pms(input).value, env);
      CommitWrites(s, prop, body, input, env.pms(input).value, env);
    }
  }

  lemma CommitWrites(s: Saga, prop: Property, body: Body, input: BookingInput, b: PmsBooking, env: Env)
    ensures var (after, r, fates) := Commit(s, prop, body, input, b, env);
            || after.idem == s.idem
            || (r.Ok? && after.idem == s.idem[StoreKey(prop.orgId, prop.id, KeyOf(body)) :=
                                              Record(Some(Fingerprint(body)), Some(r.value), env.now + RECORD_TTL)])
  {
  }

  lemma FreshReplyIsHonest(s: Saga, prop: Property, body: Body, env: Env, res: Reservation, count: nat)
    requires SeenWasSaved(BookStep(s, prop, body, env).0.book)
    requires (BookStep(s, prop, body, env).0.book, BookStep(s, prop, body, env).2) ==
               RecordStays(s.book, res, KeyOf(body), count, count, env)
    requires KeyOf(body) != "" && count > 0 && count == ConfirmedIn(s, prop, body, env)
             && BookStep(s, prop, body, env).1.Ok?
    ensures Honest(BookStep(s, prop, body, env).0.book, KeyOf(body), BookStep(s, prop, body, env).1.value)
  {
    var (after, r, fates) := BookStep(s, prop, body, env);
    StaysAppend(s.book, res, KeyOf(body), count, count, env);
    var input := Asked(s, prop, body, env).value;
    assert (after, r, fates) == Commit(s, prop, body, input, env.pms(input).value, env);
    assert |r.value.cmReservationIds| == count && r.value.reconciliationPending == Pending(fates);
    if !r.value.reconciliationPending {
      forall i: nat | i < count ensures Saved(after.book, StayKey(KeyOf(body), count, i)) {
        SettledKeysAreSeen(s.book, res, KeyOf(body), count, count, env, i);
        assert !fates[i].NotWritten?;
      }
    }
  }

  lemma {:induction false} RunIsHonest(w: World, events: seq<Event>)
    requires SeenWasSaved(w.saga.book) && HonestRecords(w.saga)
    ensures SeenWasSaved(Run(w, events).saga.book) && HonestRecords(Run(w, events).saga)
    decreases events
  {
    if events != [] {
      match events[0] {
        case Guest(prop, body, env) => BookingIsHonest(w.saga, prop, body, env);
        case Mirror(prop, body, env) =>
          if env.tenant.Some? && Quoting.ParseDateRange(body, env.parseDay).Ok? {
            PersistKeepsSaved(w.saga.book, MirrorReservation(prop, body, env), StringOr(Field(body, "idempotency_key")),
                              env.save(0));
          }
          HonestRecordsGrow(w.saga, Step(w, events[0]).saga.book);
        case Ingest(res, key, save) =>
          PersistKeepsSaved(w.saga.book, res, key, save);
          HonestRecordsGrow(w.saga, Step(w, events[0]).saga.book);
        case Restart => HonestRecordsGrow(w.saga, Step(w, events[0]).saga.book);
        case Wait(_) =>
      }
      RunIsHonest(Step(w, events[0]), events[1..]);
    }
  }

  /** After any run, restarts included, a booking reply without a pending mark has every one of its stay keys saved. */
  lemma NotPendingMeansSaved(events: seq<Event>, prop: Property, body: Body, env: Env)
    ensures var s := Run(START, events).saga;
            var (after, r, _) := BookStep(s, prop, body, env);
            r.Ok? ==> Honest(after.book, KeyOf(body), r.value)
  {
    RunIsHonest(START, events);
    BookingIsHonest(Run(START, events).saga, prop, body, env);
  }

  // ---------------------------------------------------------------- replays

  lemma {:induction false} ClockMovesForward(w: World, events: seq<Event>)
    ensures w.now <= Run(w, events).now
    decreases events
  {
    if events != [] {
      ClockMovesForward(Step(w, events[0]), events[1..]);
    }
  }

  /** A stored record is not touched while it lives: not by replays, other bookings, failures or restarts. */
  lemma {:induction false} RecordIsWriteOnce(w: World, events: seq<Event>, k: string)
    requires k in w.saga.idem && OnClock(w, events) && Run(w, events).now < w.saga.idem[k].expiresAt
    ensures k in Run(w, events).saga.idem && Run(w, events).saga.idem[k] == w.saga.idem[k]
    decreases events
  {
    if events != [] {
      ClockMovesForward(w, events);
      assert LiveRecord(w.saga.idem, k, w.now);
      var next := Step(w, events[0]);
      assert next.saga.idem[k] == w.saga.idem[k] by {
        if events[0].Guest? {
          var prop, body, env := events[0].prop, events[0].body, events[0].env;
          assert StoreKey(prop.orgId, prop.id, KeyOf(body)) == k ==> BookStep(w.saga, prop, body, env).0 == w.saga;
        }
      }
      RecordIsWriteOnce(next, events[1..], k);
    }
  }

  /** A call under a stored scope asks the PMS for nothing and changes nothing; it returns the stored reply exactly when
      the channel is on, the store answers, and the request is the one the record was made for. */
  lemma ReplayHasNoEffect(s: Saga, prop: Property, body: Body, env: Env)
    requires LiveRecord(s.idem, StoreKey(prop.orgId, prop.id, KeyOf(body)), env.now)
    ensures Asked(s, prop, body, env).None? && BookStep(s, prop, body, env).0 == s
    ensures var rec := s.idem[StoreKey(prop.orgId, prop.id, KeyOf(body))];
            BookStep(s, prop, body, env).1.Ok? <==>
              && env.engine == Quoting.EngineOn && env.idemUp && KeyAccepted(KeyOf(body))
              && rec.response.Some? && rec.fingerprint == Some(Fingerprint(body))
    ensures BookStep(s, prop, body, env).1.Ok? ==>
              BookStep(s, prop, body, env).1.value == s.idem[StoreKey(prop.orgId, prop.id, KeyOf(body))].response.value
  {
  }

  /** End to end: after a booking whose reply was stored, and any run in the next day, the same request gets the same
      reply without a second PMS booking or reservation. */
  lemma RetryReturnsTheFirstReply(w: World, prop: Property, body: Body, env: Env, events: seq<Event>, again: Env)
    requires env.now == w.now && Asked(w.saga, prop, body, env).Some?
    requires BookStep(w.saga, prop, body, env).1.Ok? && env.putUp
    requires var first := Step(w, Guest(prop, body, env));
             OnClock(first, events) && Run(first, events).now < w.now + RECORD_TTL
             && again.now == Run(first, events).now && again.engine == Quoting.EngineOn && again.idemUp
    ensures var later := Run(Step(w, Guest(prop, body, env)), events);
            BookStep(later.saga, prop, body, again) == (later.saga, BookStep(w.saga, prop, body, env).1, [])
            && Asked(later.saga, prop, body, again).None?
  {
    var first := Step(w, Guest(prop, body, env));
    var k := StoreKey(prop.orgId, prop.id, KeyOf(body));
    var input := Asked(w.saga, prop, body, env).value;
    assert BookStep(w.saga, prop, body, env) == Commit(w.saga, prop, body, input, env.pms(input).value, env);
    assert k in first.saga.idem && first.saga.idem[k].expiresAt == w.now + RECORD_TTL;
    RecordIsWriteOnce(first, events, k);
    ReplayHasNoEffect(Run(first, events).saga, prop, body, again);
  }

  /** No booking of the run is made under this scope. */
  predicate OtherScopes(events: seq<Event>, k: string) {
    forall i :: 0 <= i < |events| && events[i].Guest? ==>
      StoreKey(events[i].prop.orgId, events[i].prop.id, KeyOf(events[i].body)) != k
  }

  lemma {:induction false} OtherScopesKeep(w: World, events: seq<Event>, k: string)
    requires OtherScopes(events, k)
    ensures var idem := Run(w, events).saga.idem;
            (k in idem <==> k in w.saga.idem) && (k in idem ==> idem[k] == w.saga.idem[k])
    decreases events
  {
    if events != [] {
      if events[0].Guest? {
        RecordWritten(w.saga, events[0].prop, events[0].body, events[0].env);
      }
      assert OtherScopes(events[1..], k) by {
        assert forall i :: 0 <= i < |events[1..]| ==> events[1..][i] == events[i + 1];
      }
      OtherScopesKeep(Step(w, events[0]), events[1..], k);
    }
  }

  /** After a booking that succeeded, and any run of other bookings, mirrors, ingests, restarts and waits within a day:
      the same request reaches the PMS a second time exactly when its reply could not be stored. */
  lemma RetryAsksAgainIff(w: World, prop: Property, body: Body, env: Env, events: seq<Event>, again: Env)
    requires env.now == w.now && Asked(w.saga, prop, body, env).Some? && BookStep(w.saga, prop, body, env).1.Ok?
    requires var first := Step(w, Guest(prop, body, env));
             && OnClock(first, events) && OtherScopes(events, StoreKey(prop.orgId, prop.id, KeyOf(body)))
             && Run(first, events).now < w.now + RECORD_TTL && again.now == Run(first, events).now
    requires again.engine == Quoting.EngineOn && again.idemUp && again.parseDay == env.parseDay
    ensures Asked(Run(Step(w, Guest(prop, body, env)), events).saga, prop, body, again).Some? <==> !env.putUp
  {
    var first := Step(w, Guest(prop, body, env));
    if env.putUp {
      RetryReturnsTheFirstReply(w, prop, body, env, events, again);
    } else {
      var k := StoreKey(prop.orgId, prop.id, KeyOf(body));
      var input := Asked(w.saga, prop, body, env).value;
      assert BookStep(w.saga, prop, body, env) == Commit(w.saga, prop, body, input, env.pms(input).value, env);
      assert first.saga.idem == w.saga.idem;
      OtherScopesKeep(first, events, k);
      ClockMovesForward(first, events);
      assert !LiveRecord(Run(first, events).saga.idem, k, again.now);
    }
  }
}
