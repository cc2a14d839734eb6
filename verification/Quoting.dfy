/** What one `get_quote` request means for the hold store, and what every run of such requests keeps. */
module Quoting {
  import opened Results
  import opened Text
  import opened Payload
  import opened Holds

  datatype Property = Property(id: string, orgId: string, defaultCurrency: string)

  datatype Offer = Offer(
    id: string, searchId: string, stayId: string, propertyId: string,
    checkIn: string, checkOut: string, nights: int,
    adults: int, children: int, requestedRooms: int,
    roomIds: seq<string>, totalAmount: real, currency: string, expiresAt: int)

  datatype QuoteQuery = QuoteQuery(roomIds: seq<string>, checkin: int, checkout: int, adults: int, children: int)

  datatype Quote = Quote(roomIds: seq<string>, roomType: string, totalPrice: real, currency: string, isAvailable: bool)

  datatype QuoteError =
    | EngineUnknown | EngineDisabled
    | OfferStoreDown | OfferNotFound | OfferOfAnotherProperty
    | DatesConflict | AdultsConflict | ChildrenConflict | RoomsConflict | RoomIdsConflict
    | BadRoomIds(why: RoomIdsError) | DatesMissing | BadCheckin | BadCheckout | EmptyStay
    | HoldsUnavailable | RoomHeld | PmsFailed | OfferPriceChanged | HoldNotPlaced

  datatype Engine = EngineOn | EngineOff | EngineError

  /** Everything a request meets outside the service: clock, calendar, flags of the stores, the PMS and a fresh id. */
  datatype Env = Env(
    now: int, ttl: int,
    parseDay: string -> Option<int>,
    engine: Engine, offersUp: bool, holdsUp: bool, placeUp: bool,
    pms: QuoteQuery -> Option<Quote>,
    freshToken: string)

  /** A validated request: what is asked of the PMS and which hold the caller claims as its own. */
  datatype Plan = Plan(roomIds: seq<string>, checkin: int, checkout: int, adults: int, children: int,
                       priorToken: string, offer: Option<Offer>)
  {
    function Query(): QuoteQuery { QuoteQuery(roomIds, checkin, checkout, adults, children) }
  }

  datatype Outcome =
    | Refused(error: QuoteError)
    | Quoted(roomIds: seq<string>, quote: Quote, currency: string, offerId: string, hold: Option<Hold>)

  function CurrencyOr(a: string, b: string): string {
    if a != "" then a else if b != "" then b else "USD"
  }

  function ParseDateRange(body: Body, parseDay: string -> Option<int>): Result<(int, int), QuoteError> {
    var checkinRaw, checkoutRaw := StringOr(Field(body, "checkin")), StringOr(Field(body, "checkout"));
    if checkinRaw == "" || checkoutRaw == "" then Err(DatesMissing)
    else if parseDay(checkinRaw).None? then Err(BadCheckin)
    else if parseDay(checkoutRaw).None? then Err(BadCheckout)
    else
      var checkin, checkout := parseDay(checkinRaw).value, parseDay(checkoutRaw).value;
      if checkout <= checkin then Err(EmptyStay) else Ok((checkin, checkout))
  }

  /** The caller supplied a date of its own that is not the offer's. */
  predicate DateClash(body: Body, field: string, expected: string) {
    var supplied := TrimSpace(StringOr(Field(body, field)));
    supplied != "" && supplied != expected
  }

  /** The request body after an offer has been checked against it and written over it. */
  function ApplyOffer(body: Body, offer: Offer): Result<Body, QuoteError> {
    if DateClash(body, "checkin", offer.checkIn) || DateClash(body, "checkout", offer.checkOut) then Err(DatesConflict)
    else if IntOr(Field(body, "adults"), 0) != 0 && IntOr(Field(body, "adults"), 0) != offer.adults
            then Err(AdultsConflict)
    else if "children" in body && IntOr(body["children"], -1) != offer.children then Err(ChildrenConflict)
    else if "rooms" in body && IntOr(body["rooms"], 0) != offer.requestedRooms then Err(RoomsConflict)
    else if "room_ids" in body && RoomList(body["room_ids"]).Err? then Err(BadRoomIds(RoomList(body["room_ids"]).error))
    else if "room_ids" in body && Join(RoomList(body["room_ids"]).value, NUL) != Join(offer.roomIds, NUL)
            then Err(RoomIdsConflict)
    else Ok(body["checkin" := Str(offer.checkIn)]["checkout" := Str(offer.checkOut)]
                ["adults" := Int(offer.adults)]["room_ids" := AsStrings(offer.roomIds)])
  }

  /** The offer the request names, if it names one; an expired offer is not found. */
  function SelectOffer(offers: map<string, Offer>, prop: Property, body: Body, env: Env)
    : Result<Option<Offer>, QuoteError>
  {
    var offerId := TrimSpace(StringOr(Field(body, "offer_id")));
    if offerId == "" then Ok(None)
    else if !env.offersUp then Err(OfferStoreDown)
    else if offerId !in offers || offers[offerId].expiresAt <= env.now then Err(OfferNotFound)
    else if offers[offerId].propertyId != prop.id then Err(OfferOfAnotherProperty)
    else Ok(Some(offers[offerId]))
  }

  function PlanOf(body: Body, offer: Option<Offer>, env: Env): Result<Plan, QuoteError> {
    match RoomList(Field(body, "room_ids"))
    case Err(why) => Err(BadRoomIds(why))
    case Ok(roomIds) =>
      match ParseDateRange(body, env.parseDay)
      case Err(e) => Err(e)
      case Ok(dates) =>
        Ok(Plan(roomIds, dates.0, dates.1, IntOr(Field(body, "adults"), 1), IntOr(Field(body, "children"), 0),
                TrimSpace(StringOr(Field(body, "hold_token"))), offer))
  }

  /** Every check that comes before the hold store is read. */
  function Prepare(offers: map<string, Offer>, prop: Property, body: Body, env: Env): Result<Plan, QuoteError> {
    if env.engine.EngineError? then Err(EngineUnknown)
    else if env.engine.EngineOff? then Err(EngineDisabled)
    else
      match SelectOffer(offers, prop, body, env)
      case Err(e) => Err(e)
      case Ok(None) => PlanOf(body, None, env)
      case Ok(Some(offer)) =>
        match ApplyOffer(body, offer)
        case Err(e) => Err(e)
        case Ok(resolved) => PlanOf(resolved, Some(offer), env)
  }

  /** A hold that stands in the way of a planned stay: someone else's, for a different stay, on a shared night and
      room. */
  predicate Blocks(h: Hold, plan: Plan) {
    && !(plan.priorToken != "" && h.token == plan.priorToken)
    && !(h.roomId == Join(plan.roomIds, ',') && h.checkin == plan.checkin && h.checkout == plan.checkout)
    && h.Overlaps(plan.checkin, plan.checkout)
    && exists i :: 0 <= i < |Split(h.roomId, ',')| && TrimSpace(Split(h.roomId, ',')[i]) in plan.roomIds
  }

  /** The hold check refuses the plan. */
  ghost predicate HoldsRefuse(st: Store, property: string, plan: Plan, now: int) {
    exists t :: t in ActiveTokens(st, property, now) && Blocks(st.holds[t], plan)
  }

  function RoomsQuoted(plan: Plan, quote: Quote): seq<string> {
    if quote.roomIds == [] then plan.roomIds else quote.roomIds
  }

  function HoldFor(prop: Property, plan: Plan, quote: Quote, env: Env): Hold {
    Hold(if plan.priorToken == "" then env.freshToken else plan.priorToken,
         prop.id, Join(RoomsQuoted(plan, quote), ','), quote.roomType, plan.checkin, plan.checkout, env.now + env.ttl)
  }

  predicate PriceMoved(plan: Plan, quote: Quote, prop: Property) {
    && plan.offer.Some? && quote.isAvailable
    && (quote.totalPrice != plan.offer.value.totalAmount
        || CurrencyOr(quote.currency, prop.defaultCurrency) != plan.offer.value.currency)
  }

  /** The store and the answer after the PMS has quoted a plan the hold check let through. */
  function Settle(st: Store, prop: Property, plan: Plan, quote: Quote, env: Env): (Store, Outcome) {
    if PriceMoved(plan, quote, prop) then (st, Refused(OfferPriceChanged))
    else
      var h := HoldFor(prop, plan, quote, env);
      var answer := Quoted(RoomsQuoted(plan, quote), quote, CurrencyOr(quote.currency, prop.defaultCurrency),
                           if plan.offer.Some? then plan.offer.value.id else "", None);
      if !quote.isAvailable then (st, answer)
      else if !env.placeUp || h.expiresAt <= env.now then (st, Refused(HoldNotPlaced))
      else (Placed(st, h, env.now), answer.(hold := Some(h)))
  }

  /** A planned stay against the hold store: the hold check, the PMS, the hold. */
  ghost function PlanStep(st: Store, prop: Property, plan: Plan, env: Env): (Store, Outcome) {
    if !env.holdsUp then (st, Refused(HoldsUnavailable))
    else
      var pruned := Pruned(st, prop.id, env.now);
      if HoldsRefuse(st, prop.id, plan, env.now) then (pruned, Refused(RoomHeld))
      else if env.pms(plan.Query()).None? then (pruned, Refused(PmsFailed))
      else Settle(pruned, prop, plan, env.pms(plan.Query()).value, env)
  }

  /** One `get_quote` request, as a function of the hold store. */
  ghost function QuoteStep(st: Store, offers: map<string, Offer>, prop: Property, body: Body, env: Env)
    : (Store, Outcome)
  {
    match Prepare(offers, prop, body, env)
    case Err(e) => (st, Refused(e))
    case Ok(plan) => PlanStep(st, prop, plan, env)
  }

  // ---------------------------------------------------------------- one step

  lemma PlanShape(offers: map<string, Offer>, prop: Property, body: Body, env: Env)
    requires Prepare(offers, prop, body, env).Ok?
    ensures var plan := Prepare(offers, prop, body, env).value;
            WellFormedRooms(plan.roomIds) && plan.checkin < plan.checkout
  {
    match SelectOffer(offers, prop, body, env) {
      case Ok(None) => RoomListSound(Field(body, "room_ids"));
      case Ok(Some(offer)) => RoomListSound(Field(ApplyOffer(body, offer).value, "room_ids"));
      case Err(_) =>
    }
  }

  lemma RoomsOfJoined(ids: seq<string>)
    requires WellFormedRooms(ids)
    ensures Split(Join(ids, ','), ',') == ids
    ensures RoomsIn(Join(ids, ',')) == set id | id in ids
  {
    RoomsJoinSplit(ids);
    forall i | 0 <= i < |ids| ensures TrimSpace(ids[i]) == ids[i] && ids[i] != "" { StrictIsTrimmed(ids[i]); }
  }

  lemma RoomsOfHold(h: Hold, room: string)
    requires WellFormedHold(h)
    ensures room in RoomsIn(h.roomId) <==> room in Split(h.roomId, ',')
    ensures room in Split(h.roomId, ',') ==> TrimSpace(room) == room && room != ""
  {
    var ids := Split(h.roomId, ',');
    forall i | 0 <= i < |ids| ensures TrimSpace(ids[i]) == ids[i] && ids[i] != "" { StrictIsTrimmed(ids[i]); }
  }

  /** In night-and-room terms: a well-formed hold of another token blocks a plan exactly when they share a night and a
      room without being the same stay. */
  lemma BlocksMeansClash(h: Hold, plan: Plan)
    requires WellFormedHold(h) && WellFormedRooms(plan.roomIds) && plan.checkin < plan.checkout
    requires plan.priorToken == "" || h.token != plan.priorToken
    ensures Blocks(h, plan) <==>
              && !(h.roomId == Join(plan.roomIds, ',') && h.checkin == plan.checkin && h.checkout == plan.checkout)
              && exists night, room :: h.Covers(night, room) && NightOf(night, plan.checkin, plan.checkout)
                  && room in plan.roomIds
  {
    OverlapsIsSharedNight(h, plan.checkin, plan.checkout);
    var ids := Split(h.roomId, ',');
    if Blocks(h, plan) {
      var i :| 0 <= i < |ids| && TrimSpace(ids[i]) in plan.roomIds;
      RoomsOfHold(h, ids[i]);
      var night :| NightOf(night, plan.checkin, plan.checkout) && NightOf(night, h.checkin, h.checkout);
      assert h.Covers(night, ids[i]);
    }
    if night, room :| h.Covers(night, room) && NightOf(night, plan.checkin, plan.checkout) && room in plan.roomIds {
      assert NightOf(night, h.checkin, h.checkout);
      var i :| 0 <= i < |ids| && TrimSpace(ids[i]) == room;
      assert TrimSpace(ids[i]) in plan.roomIds;
    }
  }

  /** When the hold check refuses: exactly when some unexpired hold listed for the property, filed under another token
      and not for this very stay, shares a night and a room with it. */
  lemma RefusedIff(st: Store, property: string, plan: Plan, now: int, ttl: int)
    requires Filed(st, now, ttl) && WellFormedRooms(plan.roomIds) && plan.checkin < plan.checkout
    ensures HoldsRefuse(st, property, plan, now) <==>
              exists t, night, room ::
                && t in ActiveTokens(st, property, now) && (plan.priorToken == "" || t != plan.priorToken)
                && !(st.holds[t].roomId == Join(plan.roomIds, ',') && st.holds[t].checkin == plan.checkin
                     && st.holds[t].checkout == plan.checkout)
                && st.holds[t].Covers(night, room) && NightOf(night, plan.checkin, plan.checkout)
                    && room in plan.roomIds
  {
    forall t | t in ActiveTokens(st, property, now) ensures st.holds[t].token == t && WellFormedHold(st.holds[t]) {
      assert Live(st, t, now);
    }
    if HoldsRefuse(st, property, plan, now) {
      var t :| t in ActiveTokens(st, property, now) && Blocks(st.holds[t], plan);
      BlocksMeansClash(st.holds[t], plan);
    }
    if t, night, room :|
      && t in ActiveTokens(st, property, now) && (plan.priorToken == "" || t != plan.priorToken)
      && !(st.holds[t].roomId == Join(plan.roomIds, ',') && st.holds[t].checkin == plan.checkin
           && st.holds[t].checkout == plan.checkout)
      && st.holds[t].Covers(night, room) && NightOf(night, plan.checkin, plan.checkout) && room in plan.roomIds
    {
      BlocksMeansClash(st.holds[t], plan);
    }
  }

  /** The PMS answered with the rooms it was asked about, in the same order, or with none. */
  predicate Echoes(plan: Plan, quote: Quote) {
    quote.roomIds == [] || quote.roomIds == plan.roomIds
  }

  /** A hold written after an unrefused check, for the rooms that were asked about, keeps the store's invariant. */
  lemma SettleKeepsInv(st: Store, prop: Property, plan: Plan, quote: Quote, env: Env)
    requires Inv(st, env.now, env.ttl) && 0 < env.ttl
    requires WellFormedRooms(plan.roomIds) && plan.checkin < plan.checkout
    requires !HoldsRefuse(st, prop.id, plan, env.now)
    requires Echoes(plan, quote)
    ensures Inv(Settle(st, prop, plan, quote, env).0, env.now, env.ttl)
  {
    var h := HoldFor(prop, plan, quote, env);
    RoomsOfJoined(plan.roomIds);
    assert WellFormedHold(h);
    assert Agrees(st, h, env.now) by {
      forall t, night, room |
        && Live(st, t, env.now) && t != h.token && st.holds[t].property == h.property
        && st.holds[t].Covers(night, room) && h.Covers(night, room)
        ensures SameStay(st.holds[t], h)
      {
        IndexIsComplete(st, prop.id, env.now, env.ttl);
        assert t in LiveOf(st, prop.id, env.now);
        assert !Blocks(st.holds[t], plan);
        assert NightOf(night, plan.checkin, plan.checkout);
        BlocksMeansClash(st.holds[t], plan);
      }
    }
    PlaceKeepsInv(st, h, env.now, env.ttl);
  }

  lemma PruningUnblocksNothing(st: Store, property: string, plan: Plan, now: int)
    requires !HoldsRefuse(st, property, plan, now)
    ensures !HoldsRefuse(Pruned(st, property, now), property, plan, now)
  {
  }

  lemma PlanStepKeepsInv(st: Store, prop: Property, plan: Plan, env: Env)
    requires Inv(st, env.now, env.ttl) && 0 < env.ttl
    requires WellFormedRooms(plan.roomIds) && plan.checkin < plan.checkout
    requires env.pms(plan.Query()).Some? ==> Echoes(plan, env.pms(plan.Query()).value)
    ensures Inv(PlanStep(st, prop, plan, env).0, env.now, env.ttl)
  {
    PruneKeepsInv(st, prop.id, env.now, env.ttl);
    if env.holdsUp && !HoldsRefuse(st, prop.id, plan, env.now) && env.pms(plan.Query()).Some? {
      PruningUnblocksNothing(st, prop.id, plan, env.now);
      SettleKeepsInv(Pruned(st, prop.id, env.now), prop, plan, env.pms(plan.Query()).value, env);
    }
  }

  /** No request, accepted or refused, breaks the invariant while the PMS echoes the rooms. */
  lemma QuoteKeepsInv(st: Store, offers: map<string, Offer>, prop: Property, body: Body, env: Env)
    requires Inv(st, env.now, env.ttl) && 0 < env.ttl
    requires forall plan: Plan :: env.pms(plan.Query()).Some? ==> Echoes(plan, env.pms(plan.Query()).value)
    ensures Inv(QuoteStep(st, offers, prop, body, env).0, env.now, env.ttl)
  {
    if Prepare(offers, prop, body, env).Ok? {
      PlanShape(offers, prop, body, env);
      PlanStepKeepsInv(st, prop, Prepare(offers, prop, body, env).value, env);
    }
  }

  // ---------------------------------------------------------------- runs

  datatype Event =
    | Request(offers: map<string, Offer>, prop: Property, body: Body, env: Env)   // one guest's get_quote
    | Listing(property: string)                                                   // a search reads the holds
    | Wait(seconds: nat)

  datatype World = World(store: Store, now: int)

  const START := World(EMPTY, 0)

  ghost function Step(w: World, e: Event): World {
    match e
    case Request(offers, prop, body, env) => w.(store := QuoteStep(w.store, offers, prop, body, env).0)
    case Listing(property) => w.(store := Pruned(w.store, property, w.now))
    case Wait(seconds) => w.(now := w.now + seconds)
  }

  ghost function Run(w: World, events: seq<Event>): World
    decreases events
  {
    if events == [] then w else Run(Step(w, events[0]), events[1..])
  }

  /** The request sees this world's clock and the configured hold life, and its PMS echoes rooms. */
  ghost predicate Admissible(w: World, e: Event, ttl: int) {
    e.Request? ==>
      && e.env.now == w.now && e.env.ttl == ttl
      && forall plan: Plan :: e.env.pms(plan.Query()).Some? ==> Echoes(plan, e.env.pms(plan.Query()).value)
  }

  ghost predicate AdmissibleRun(w: World, events: seq<Event>, ttl: int)
    decreases events
  {
    events == [] || (Admissible(w, events[0], ttl) && AdmissibleRun(Step(w, events[0]), events[1..], ttl))
  }

  /** Every run of quotes, listings and waits, by any guests with any tokens, keeps the invariant. */
  lemma {:induction false} RunKeepsInv(w: World, events: seq<Event>, ttl: int)
    requires Inv(w.store, w.now, ttl) && 0 < ttl
    requires AdmissibleRun(w, events, ttl)
    ensures Inv(Run(w, events).store, Run(w, events).now, ttl)
    decreases events
  {
    if events != [] {
      match events[0] {
        case Request(offers, prop, body, env) => QuoteKeepsInv(w.store, offers, prop, body, env);
        case Listing(property) => PruneKeepsInv(w.store, property, w.now, ttl);
        case Wait(seconds) => TickKeepsInv(w.store, w.now, w.now + seconds, ttl);
      }
      RunKeepsInv(Step(w, events[0]), events[1..], ttl);
    }
  }

  /** From an empty store: on every night of every room of a property, all unexpired holds are for one identical
      stay. */
  lemma OneStayPerRoomNight(events: seq<Event>, ttl: int)
    requires 0 < ttl && AdmissibleRun(START, events, ttl)
    ensures Safe(Run(START, events).store, Run(START, events).now)
  {
    assert forall t :: !Live(EMPTY, t, 0);
    RunKeepsInv(START, events, ttl);
  }

  // ---------------------------------------------------------------- the echo condition is exact

  ghost predicate SafeAfter(st: Store, prop: Property, plan: Plan, quote: Quote, env: Env) {
    Safe(Settle(st, prop, plan, quote, env).0, env.now)
  }

  /** The hold is for the rooms that were asked about, as a list. */
  predicate HoldsWhatWasAsked(plan: Plan, quote: Quote) {
    Join(RoomsQuoted(plan, quote), ',') == Join(plan.roomIds, ',')
  }

  /** Holds under their own tokens, for real stays, and listed; their rooms may be any text. */
  ghost predicate Indexed(st: Store, now: int) {
    forall t :: Live(st, t, now) ==>
      && st.holds[t].token == t && st.holds[t].checkin < st.holds[t].checkout
      && t in ActiveTokens(st, st.holds[t].property, now)
  }

  lemma InvIsIndexed(st: Store, now: int, ttl: int)
    requires Inv(st, now, ttl)
    ensures Indexed(st, now)
  {
    forall t | Live(st, t, now) ensures t in ActiveTokens(st, st.holds[t].property, now) {
      IndexIsComplete(st, st.holds[t].property, now, ttl);
      assert t in LiveOf(st, st.holds[t].property, now);
    }
  }

  /** Placing a hold that agrees with every other hold it meets keeps the store safe. */
  lemma AgreeingIsSafe(st: Store, h: Hold, now: int)
    requires Safe(st, now) && Agrees(st, h, now)
    ensures Safe(Placed(st, h, now), now)
  {
    var after := Placed(st, h, now);
    assert forall t :: t != h.token ==> Live(after, t, now) == Live(st, t, now);
  }

  /** A hold for the rooms that were asked about agrees with everything the hold check let pass. */
  lemma AskedHoldAgrees(st: Store, prop: Property, plan: Plan, quote: Quote, env: Env)
    requires Indexed(st, env.now) && Safe(st, env.now)
    requires WellFormedRooms(plan.roomIds) && plan.checkin < plan.checkout
    requires !HoldsRefuse(st, prop.id, plan, env.now) && HoldsWhatWasAsked(plan, quote)
    ensures Agrees(st, HoldFor(prop, plan, quote, env), env.now)
  {
    var h := HoldFor(prop, plan, quote, env);
    RoomsOfJoined(plan.roomIds);
    forall t, night, room |
      && Live(st, t, env.now) && t != h.token && st.holds[t].property == h.property
      && st.holds[t].Covers(night, room) && h.Covers(night, room)
      ensures SameStay(st.holds[t], h)
    {
      var pieces := Split(st.holds[t].roomId, ',');
      assert t in ActiveTokens(st, prop.id, env.now) && !Blocks(st.holds[t], plan);
      var i :| 0 <= i < |pieces| && TrimSpace(pieces[i]) == room;
      assert TrimSpace(pieces[i]) in plan.roomIds;
    }
  }

  lemma AskedIsSafe(st: Store, prop: Property, plan: Plan, quote: Quote, env: Env)
    requires Indexed(st, env.now) && Safe(st, env.now)
    requires WellFormedRooms(plan.roomIds) && plan.checkin < plan.checkout
    requires !HoldsRefuse(st, prop.id, plan, env.now) && HoldsWhatWasAsked(plan, quote)
    ensures SafeAfter(st, prop, plan, quote, env)
  {
    AskedHoldAgrees(st, prop, plan, quote, env);
    AgreeingIsSafe(st, HoldFor(prop, plan, quote, env), env.now);
  }

  /** The rooms of a list are trimmed, not blank and free of commas, so each is a list of its own. */
  lemma RoomIsItself(list: string, room: string)
    requires room in RoomsIn(list)
    ensures Split(room, ',') == [room] && TrimSpace(room) == room && RoomsIn(room) == {room}
  {
    var pieces := Split(list, ',');
    var i :| 0 <= i < |pieces| && TrimSpace(pieces[i]) == room;
    SplitIsFree(list, ',');
    TrimSpaceShape(pieces[i]);
    assert ',' !in room;
    TrimIdempotent(pieces[i]);
    assert room != "" && Split(room, ',')[0] == room;
    forall id ensures id in RoomsIn(room) <==> id == room {
      if id in RoomsIn(room) {
        var k :| 0 <= k < |Split(room, ',')| && TrimSpace(Split(room, ',')[k]) == id;
      }
    }
  }

  /** An earlier hold, under another token, that shares a room with the substituted hold but did not block the
      request. */
  function EarlierHold(prop: Property, plan: Plan, quote: Quote, env: Env, room: string): Hold {
    var other := HoldFor(prop, plan, quote, env).token + "x";
    if room in plan.roomIds then
      Hold(other, prop.id, Join(plan.roomIds, ','), "", plan.checkin, plan.checkout, env.now + env.ttl)
    else
      Hold(other, prop.id, room, "", plan.checkin, plan.checkout + 1, env.now + env.ttl)
  }

  lemma EarlierHoldIsUnrefused(prop: Property, plan: Plan, quote: Quote, env: Env, room: string)
    requires 0 < env.ttl && WellFormedRooms(plan.roomIds) && plan.checkin < plan.checkout
    requires room in RoomsIn(Join(RoomsQuoted(plan, quote), ','))
    ensures var st := Placed(EMPTY, EarlierHold(prop, plan, quote, env, room), env.now);
            && Indexed(st, env.now) && Safe(st, env.now) && !HoldsRefuse(st, prop.id, plan, env.now)
            && (StrictRoomId(room) ==> Inv(st, env.now, env.ttl))
  {
    var earlier := EarlierHold(prop, plan, quote, env, room);
    var st := Placed(EMPTY, earlier, env.now);
    RoomsOfJoined(plan.roomIds);
    RoomIsItself(Join(RoomsQuoted(plan, quote), ','), room);
    assert forall t :: Live(st, t, env.now) ==> t == earlier.token;
    assert earlier.token in ActiveTokens(st, prop.id, env.now);
    assert !Blocks(earlier, plan);
    if StrictRoomId(room) {
      assert WellFormedHold(earlier);
      assert Filed(st, env.now, env.ttl);
    }
  }

  lemma EarlierHoldConflicts(prop: Property, plan: Plan, quote: Quote, env: Env, room: string)
    requires 0 < env.ttl && env.placeUp && quote.isAvailable && !PriceMoved(plan, quote, prop)
    requires WellFormedRooms(plan.roomIds) && plan.checkin < plan.checkout
    requires room in RoomsIn(Join(RoomsQuoted(plan, quote), ',')) && !HoldsWhatWasAsked(plan, quote)
    ensures !SafeAfter(Placed(EMPTY, EarlierHold(prop, plan, quote, env, room), env.now), prop, plan, quote, env)
  {
    var h, earlier := HoldFor(prop, plan, quote, env), EarlierHold(prop, plan, quote, env, room);
    var st := Placed(EMPTY, earlier, env.now);
    RoomsOfJoined(plan.roomIds);
    RoomIsItself(Join(RoomsQuoted(plan, quote), ','), room);
    var after := Settle(st, prop, plan, quote, env).0;
    assert after == Placed(st, h, env.now);
    assert earlier.token != h.token by { assert |earlier.token| == |h.token| + 1; }
    assert Live(after, earlier.token, env.now) && Live(after, h.token, env.now);
    assert earlier.Covers(plan.checkin, room) && h.Covers(plan.checkin, room);
    assert !SameStay(after.holds[earlier.token], after.holds[h.token]);
  }

  /** Stored holds of the invariant cover well-formed rooms only. */
  lemma HeldRoomsAreStrict(h: Hold, room: string)
    requires WellFormedHold(h) && room in RoomsIn(h.roomId)
    ensures StrictRoomId(room)
  {
    var pieces := Split(h.roomId, ',');
    var i :| 0 <= i < |pieces| && TrimSpace(pieces[i]) == room;
    StrictIsTrimmed(pieces[i]);
  }

  lemma StrangeRoomsAreSafe(st: Store, prop: Property, plan: Plan, quote: Quote, env: Env)
    requires Inv(st, env.now, env.ttl)
    requires forall id :: id in RoomsIn(Join(RoomsQuoted(plan, quote), ',')) ==> !StrictRoomId(id)
    ensures SafeAfter(st, prop, plan, quote, env)
  {
    var h := HoldFor(prop, plan, quote, env);
    forall t, night, room | Live(st, t, env.now) && st.holds[t].Covers(night, room) ensures !h.Covers(night, room) {
      HeldRoomsAreStrict(st.holds[t], room);
    }
    AgreeingIsSafe(st, h, env.now);
  }

  /** The witness: a store of the invariant that does not refuse the request and becomes unsafe. */
  lemma SubstitutionBreaksSafety(prop: Property, plan: Plan, quote: Quote, env: Env) returns (st: Store)
    requires 0 < env.ttl && env.placeUp && quote.isAvailable && !PriceMoved(plan, quote, prop)
    requires WellFormedRooms(plan.roomIds) && plan.checkin < plan.checkout
    requires !HoldsWhatWasAsked(plan, quote)
    requires exists id :: id in RoomsIn(Join(RoomsQuoted(plan, quote), ',')) && StrictRoomId(id)
    ensures Inv(st, env.now, env.ttl) && !HoldsRefuse(st, prop.id, plan, env.now)
    ensures !SafeAfter(st, prop, plan, quote, env)
  {
    var room :| room in RoomsIn(Join(RoomsQuoted(plan, quote), ',')) && StrictRoomId(room);
    EarlierHoldIsUnrefused(prop, plan, quote, env, room);
    EarlierHoldConflicts(prop, plan, quote, env, room);
    st := Placed(EMPTY, EarlierHold(prop, plan, quote, env, room), env.now);
  }

  /** For every plan and every PMS answer: safety survives one more hold, in all stores of the invariant, exactly when
      the hold is for the rooms that were asked about or names no well-formed room. */
  lemma SafetyIffHoldMatchesRequest(prop: Property, plan: Plan, quote: Quote, env: Env)
    requires 0 < env.ttl && env.placeUp && quote.isAvailable && !PriceMoved(plan, quote, prop)
    requires WellFormedRooms(plan.roomIds) && plan.checkin < plan.checkout
    ensures (forall st :: Inv(st, env.now, env.ttl) && !HoldsRefuse(st, prop.id, plan, env.now)
                          ==> SafeAfter(st, prop, plan, quote, env))
            <==> HoldsWhatWasAsked(plan, quote)
                 || forall id :: id in RoomsIn(Join(RoomsQuoted(plan, quote), ',')) ==> !StrictRoomId(id)
  {
    if HoldsWhatWasAsked(plan, quote) {
      forall st | Inv(st, env.now, env.ttl) && !HoldsRefuse(st, prop.id, plan, env.now)
        ensures SafeAfter(st, prop, plan, quote, env)
      {
        InvIsIndexed(st, env.now, env.ttl);
        AskedIsSafe(st, prop, plan, quote, env);
      }
    } else if exists id :: id in RoomsIn(Join(RoomsQuoted(plan, quote), ',')) && StrictRoomId(id) {
      var st := SubstitutionBreaksSafety(prop, plan, quote, env);
    } else {
      forall st | Inv(st, env.now, env.ttl) ensures SafeAfter(st, prop, plan, quote, env) {
        StrangeRoomsAreSafe(st, prop, plan, quote, env);
      }
    }
  }

  /** In stores that may hold ill-formed rooms too, as an answer about such rooms leaves them: exactly when the hold is
      for the rooms that were asked about or for none. */
  lemma SafetyInAnyRoomsIff(prop: Property, plan: Plan, quote: Quote, env: Env)
    requires 0 < env.ttl && env.placeUp && quote.isAvailable && !PriceMoved(plan, quote, prop)
    requires WellFormedRooms(plan.roomIds) && plan.checkin < plan.checkout
    ensures (forall st :: Indexed(st, env.now) && Safe(st, env.now) && !HoldsRefuse(st, prop.id, plan, env.now)
                          ==> SafeAfter(st, prop, plan, quote, env))
            <==> HoldsWhatWasAsked(plan, quote) || RoomsIn(Join(RoomsQuoted(plan, quote), ',')) == {}
  {
    if HoldsWhatWasAsked(plan, quote) {
      forall st | Indexed(st, env.now) && Safe(st, env.now) && !HoldsRefuse(st, prop.id, plan, env.now)
        ensures SafeAfter(st, prop, plan, quote, env)
      {
        AskedIsSafe(st, prop, plan, quote, env);
      }
    } else if room :| room in RoomsIn(Join(RoomsQuoted(plan, quote), ',')) {
      EarlierHoldIsUnrefused(prop, plan, quote, env, room);
      EarlierHoldConflicts(prop, plan, quote, env, room);
    } else {
      forall st | Safe(st, env.now) ensures SafeAfter(st, prop, plan, quote, env) {
        assert forall night, room :: !HoldFor(prop, plan, quote, env).Covers(night, room);
        AgreeingIsSafe(st, HoldFor(prop, plan, quote, env), env.now);
      }
    }
  }

  // ---------------------------------------------------------------- re-quoting

  /** An unexpired hold of this property is for exactly the planned stay. */
  ghost predicate StayIsHeld(st: Store, property: string, plan: Plan, now: int) {
    exists t :: t in LiveOf(st, property, now) && st.holds[t].roomId == Join(plan.roomIds, ',')
                && st.holds[t].checkin == plan.checkin && st.holds[t].checkout == plan.checkout
  }

  /** Once a stay is held, a quote of it is refused by the hold check exactly when a token that has moved to another
      property blocks it. */
  lemma HeldStayRefusedIff(st: Store, property: string, plan: Plan, now: int, ttl: int)
    requires Inv(st, now, ttl)
    requires WellFormedRooms(plan.roomIds) && plan.checkin < plan.checkout
    requires StayIsHeld(st, property, plan, now)
    ensures HoldsRefuse(st, property, plan, now) <==>
              exists t :: t in ActiveTokens(st, property, now) && st.holds[t].property != property
                  && Blocks(st.holds[t], plan)
  {
    var own :| own in LiveOf(st, property, now) && st.holds[own].roomId == Join(plan.roomIds, ',')
                && st.holds[own].checkin == plan.checkin && st.holds[own].checkout == plan.checkout;
    RoomsOfJoined(plan.roomIds);
    forall t | t in ActiveTokens(st, property, now) && st.holds[t].property == property
      ensures !Blocks(st.holds[t], plan)
    {
      assert Live(st, t, now) && Live(st, own, now);
      if !(plan.priorToken != "" && st.holds[t].token == plan.priorToken) {
        BlocksMeansClash(st.holds[t], plan);
        if night, room :|
          st.holds[t].Covers(night, room) && NightOf(night, plan.checkin, plan.checkout) && room in plan.roomIds
        {
          assert st.holds[own].Covers(night, room);
        }
      }
    }
  }

  /** While every token stays with one property, a held stay can always be quoted again, with or without its token. */
  lemma HeldStayIsNeverRefused(st: Store, property: string, plan: Plan, now: int, ttl: int)
    requires Inv(st, now, ttl)
    requires WellFormedRooms(plan.roomIds) && plan.checkin < plan.checkout
    requires StayIsHeld(st, property, plan, now)
    requires !HasForeign(st, property, now)
    ensures !HoldsRefuse(st, property, plan, now)
  {
    HeldStayRefusedIff(st, property, plan, now, ttl);
  }

  /** The token a request's hold is filed under: the one the caller sent, else a fresh one. */
  function TokenOf(body: Body, env: Env): string {
    var sent := TrimSpace(StringOr(Field(body, "hold_token")));
    if sent == "" then env.freshToken else sent
  }

  lemma OfferKeepsToken(body: Body, offer: Offer)
    requires ApplyOffer(body, offer).Ok?
    ensures Field(ApplyOffer(body, offer).value, "hold_token") == Field(body, "hold_token")
  {
  }

  lemma PlanKeepsToken(offers: map<string, Offer>, prop: Property, body: Body, env: Env)
    requires Prepare(offers, prop, body, env).Ok?
    ensures Prepare(offers, prop, body, env).value.priorToken == TrimSpace(StringOr(Field(body, "hold_token")))
  {
    match SelectOffer(offers, prop, body, env) {
      case Ok(None) =>
      case Ok(Some(offer)) => OfferKeepsToken(body, offer);
      case Err(_) =>
    }
  }

  /** Settling leaves the store alone or files exactly one hold, under the plan's token and for the property. */
  lemma SettleFilesOne(st: Store, prop: Property, plan: Plan, quote: Quote, env: Env)
    ensures var (after, answer) := Settle(st, prop, plan, quote, env);
            if answer.Quoted? && answer.hold.Some? then
              var h := answer.hold.value;
              h.token == (if plan.priorToken == "" then env.freshToken else plan.priorToken) && h.property == prop.id
              && env.now < h.expiresAt && after == Placed(st, h, env.now)
            else after == st
  {
  }

  lemma PlanStepFilesOne(st: Store, prop: Property, plan: Plan, env: Env)
    ensures var (after, answer) := PlanStep(st, prop, plan, env);
            if answer.Quoted? && answer.hold.Some? then
              var h := answer.hold.value;
              h.token == (if plan.priorToken == "" then env.freshToken else plan.priorToken) && h.property == prop.id
              && env.now < h.expiresAt && after == Placed(Pruned(st, prop.id, env.now), h, env.now)
            else after == st || after == Pruned(st, prop.id, env.now)
  {
    if env.pms(plan.Query()).Some? {
      SettleFilesOne(Pruned(st, prop.id, env.now), prop, plan, env.pms(plan.Query()).value, env);
    }
  }

  /** A request leaves the table alone or files exactly one hold, under its own token and for its own property. */
  lemma OneTokenMoves(st: Store, offers: map<string, Offer>, prop: Property, body: Body, env: Env)
    ensures var (after, answer) := QuoteStep(st, offers, prop, body, env);
            if answer.Quoted? && answer.hold.Some? then
              var h := answer.hold.value;
              h.token == TokenOf(body, env) && h.property == prop.id && env.now < h.expiresAt
              && after == Placed(Pruned(st, prop.id, env.now), h, env.now)
            else after.holds == st.holds && (after == st || after == Pruned(st, prop.id, env.now))
  {
    if Prepare(offers, prop, body, env).Ok? {
      PlanKeepsToken(offers, prop, body, env);
      PlanStepFilesOne(st, prop, Prepare(offers, prop, body, env).value, env);
    }
  }

  /** A caller only sends back a token at the property that issued it. */
  ghost predicate TokenStays(w: World, e: Event) {
    e.Request? ==>
      forall property :: property != e.prop.id ==> TokenOf(e.body, e.env) !in Members(w.store, property, w.now)
  }

  ghost predicate TokensStay(w: World, events: seq<Event>)
    decreases events
  {
    events == [] || (TokenStays(w, events[0]) && TokensStay(Step(w, events[0]), events[1..]))
  }

  ghost predicate NoForeign(w: World) {
    forall property :: !HasForeign(w.store, property, w.now)
  }

  lemma StepKeepsNoForeign(w: World, e: Event, ttl: int)
    requires Inv(w.store, w.now, ttl) && NoForeign(w)
    requires Admissible(w, e, ttl) && TokenStays(w, e)
    ensures NoForeign(Step(w, e))
  {
    match e {
      case Wait(seconds) =>
        var later := w.now + seconds;
        forall property ensures !HasForeign(w.store, property, later) {
          assert !HasForeign(w.store, property, w.now);
          assert forall t :: t in ActiveTokens(w.store, property, later) ==>
                   t in ActiveTokens(w.store, property, w.now);
        }
      case Listing(p) =>
        PruneKeepsInv(w.store, p, w.now, ttl);
        forall property ensures !HasForeign(Pruned(w.store, p, w.now), property, w.now) {
          assert !HasForeign(w.store, property, w.now);
        }
      case Request(offers, prop, body, env) => RequestKeepsNoForeign(w, offers, prop, body, env, ttl);
    }
  }

  lemma FilingKeepsNoForeign(st: Store, h: Hold, now: int)
    requires now < h.expiresAt
    requires forall property :: !HasForeign(st, property, now)
    requires forall property :: property != h.property ==> h.token !in Members(st, property, now)
    ensures forall property :: !HasForeign(Placed(st, h, now), property, now)
  {
    forall property ensures !HasForeign(Placed(st, h, now), property, now) {
      assert !HasForeign(st, property, now);
      ForeignAfterPlace(st, h, property, now);
    }
  }

  lemma PruningKeepsNoForeign(st: Store, p: string, now: int, ttl: int)
    requires Inv(st, now, ttl) && forall property :: !HasForeign(st, property, now)
    ensures forall property :: !HasForeign(Pruned(st, p, now), property, now)
    ensures forall property :: Members(Pruned(st, p, now), property, now) <= Members(st, property, now)
  {
    PruneKeepsInv(st, p, now, ttl);
    forall property ensures !HasForeign(Pruned(st, p, now), property, now) {
      assert !HasForeign(st, property, now);
      assert ActiveTokens(Pruned(st, p, now), property, now) == ActiveTokens(st, property, now);
    }
  }

  lemma RequestKeepsNoForeign(w: World, offers: map<string, Offer>, prop: Property, body: Body, env: Env, ttl: int)
    requires Inv(w.store, w.now, ttl) && NoForeign(w) && env.now == w.now
    requires TokenStays(w, Request(offers, prop, body, env))
    ensures NoForeign(Step(w, Request(offers, prop, body, env)))
  {
    PruningKeepsNoForeign(w.store, prop.id, w.now, ttl);
    OneTokenMoves(w.store, offers, prop, body, env);
    var answer := QuoteStep(w.store, offers, prop, body, env).1;
    if answer.Quoted? && answer.hold.Some? {
      FilingKeepsNoForeign(Pruned(w.store, prop.id, w.now), answer.hold.value, w.now);
    } else {
      var after := QuoteStep(w.store, offers, prop, body, env).0;
      assert after == w.store || after == Pruned(w.store, prop.id, w.now);
    }
  }

  lemma {:induction false} RunKeepsNoForeign(w: World, events: seq<Event>, ttl: int)
    requires Inv(w.store, w.now, ttl) && 0 < ttl && NoForeign(w)
    requires AdmissibleRun(w, events, ttl) && TokensStay(w, events)
    ensures NoForeign(Run(w, events)) && Inv(Run(w, events).store, Run(w, events).now, ttl)
    decreases events
  {
    RunKeepsInv(w, events, ttl);
    if events != [] {
      StepKeepsNoForeign(w, events[0], ttl);
      assert Inv(Step(w, events[0]).store, Step(w, events[0]).now, ttl) by {
        RunKeepsInv(w, [events[0]], ttl);
        assert Run(w, [events[0]]) == Run(Step(w, events[0]), []);
      }
      RunKeepsNoForeign(Step(w, events[0]), events[1..], ttl);
    }
  }

  /** After any run in which tokens stay with their property, a stay that is held can be quoted again by anyone,
      whatever others quoted in between. */
  lemma RequoteNeverRefused(events: seq<Event>, ttl: int, property: string, plan: Plan)
    requires 0 < ttl && AdmissibleRun(START, events, ttl) && TokensStay(START, events)
    requires WellFormedRooms(plan.roomIds) && plan.checkin < plan.checkout
    requires StayIsHeld(Run(START, events).store, property, plan, Run(START, events).now)
    ensures !HoldsRefuse(Run(START, events).store, property, plan, Run(START, events).now)
  {
    assert forall t :: !Live(EMPTY, t, 0);
    assert NoForeign(START);
    RunKeepsNoForeign(START, events, ttl);
    var w := Run(START, events);
    HeldStayIsNeverRefused(w.store, property, plan, w.now, ttl);
  }

  /** Without that discipline the promise fails: a token still listed at this property is sent at another one, for
      an overlapping but different stay in rooms of the same name. The stay held here can then no longer be quoted
      without its own token. */
  lemma MovedTokenRefusesHeldStay(st: Store, property: string, plan: Plan, moved: Hold, now: int, ttl: int)
    requires Inv(st, now, ttl) && now < moved.expiresAt && WellFormedHold(moved)
    requires WellFormedRooms(plan.roomIds) && plan.checkin < plan.checkout
    requires StayIsHeld(st, property, plan, now) && plan.priorToken == ""
    requires moved.property != property && moved.token in Members(st, property, now)
    requires exists t ::
               && t != moved.token && t in LiveOf(st, property, now) && st.holds[t].roomId == Join(plan.roomIds, ',')
               && st.holds[t].checkin == plan.checkin && st.holds[t].checkout == plan.checkout
    requires moved.roomId == Join(plan.roomIds, ',') && moved.Overlaps(plan.checkin, plan.checkout)
             && moved.checkin != plan.checkin
    ensures StayIsHeld(Placed(st, moved, now), property, plan, now)
            && HoldsRefuse(Placed(st, moved, now), property, plan, now)
  {
    var after := Placed(st, moved, now);
    var own :| own != moved.token && own in LiveOf(st, property, now) && st.holds[own].roomId == Join(plan.roomIds, ',')
                         && st.holds[own].checkin == plan.checkin && st.holds[own].checkout == plan.checkout;
    assert own in LiveOf(after, property, now);
    RoomsOfJoined(plan.roomIds);
    StrictIsTrimmed(plan.roomIds[0]);
    assert TrimSpace(Split(moved.roomId, ',')[0]) in plan.roomIds;
    assert moved.token in ActiveTokens(after, property, now) && Blocks(after.holds[moved.token], plan);
  }

  /** A guest's request for some rooms, under a token, at a time when the PMS has them. */
  function Ask(property: string, rooms: seq<string>, from: string, to: string, token: string,
               calendar: string -> Option<int>, ttl: int): Event
  {
    Request(map[], Property(property, "", ""),
            map["room_ids" := AsStrings(rooms), "checkin" := Str(from), "checkout" := Str(to),
                "hold_token" := Str(token)],
            Env(0, ttl, calendar, EngineOn, true, true, true, q => Some(Quote([], "", 0.0, "", true)), ""))
  }

  /** Such a request, if no hold refuses it, files its hold. */
  lemma AskFiles(w: World, property: string, rooms: seq<string>, from: string, to: string, token: string,
                 calendar: string -> Option<int>, ttl: int)
    requires w.now == 0 && 0 < ttl && WellFormedRooms(rooms) && token != "" && TrimSpace(token) == token
    requires from != "" && to != "" && calendar(from).Some? && calendar(to).Some?
    requires calendar(from).value < calendar(to).value
    requires var plan := Plan(rooms, calendar(from).value, calendar(to).value, 1, 0, token, None);
             !HoldsRefuse(w.store, property, plan, 0)
    ensures Admissible(w, Ask(property, rooms, from, to, token, calendar, ttl), ttl)
    ensures var h := Hold(token, property, Join(rooms, ','), "", calendar(from).value, calendar(to).value, ttl);
            Step(w, Ask(property, rooms, from, to, token, calendar, ttl)) ==
              w.(store := Placed(Pruned(w.store, property, 0), h, 0))
  {
    var e := Ask(property, rooms, from, to, token, calendar, ttl);
    var plan := Plan(rooms, calendar(from).value, calendar(to).value, 1, 0, token, None);
    RoomListRoundTrip(rooms);
    assert SelectOffer(e.offers, e.prop, e.body, e.env) == Ok(None);
    assert Prepare(e.offers, e.prop, e.body, e.env) == Ok(plan);
    assert e.env.pms(plan.Query()) == Some(Quote([], "", 0.0, "", true));
  }

  /** The store after "t" and then "o" have quoted the same stay at property A. */
  function TwoHolds(rooms: seq<string>, checkin: int, checkout: int, ttl: int): Store {
    var first := Hold("t", "A", Join(rooms, ','), "", checkin, checkout, ttl);
    Placed(Placed(EMPTY, first, 0), first.(token := "o"), 0)
  }

  lemma TwoHoldsArise(rooms: seq<string>, from: string, to: string, calendar: string -> Option<int>, ttl: int)
    requires 0 < ttl && WellFormedRooms(rooms)
    requires from != "" && to != "" && calendar(from).Some? && calendar(to).Some?
    requires calendar(from).value < calendar(to).value
    ensures var a, b := Ask("A", rooms, from, to, "t", calendar, ttl), Ask("A", rooms, from, to, "o", calendar, ttl);
            && Admissible(START, a, ttl) && Admissible(Step(START, a), b, ttl)
            && Step(Step(START, a), b) == World(TwoHolds(rooms, calendar(from).value, calendar(to).value, ttl), 0)
  {
    var first := Hold("t", "A", Join(rooms, ','), "", calendar(from).value, calendar(to).value, ttl);
    CleanPrune(EMPTY, "A", 0);
    AskFiles(START, "A", rooms, from, to, "t", calendar, ttl);
    var w := World(Placed(EMPTY, first, 0), 0);
    assert ActiveTokens(w.store, "A", 0) == {"t"};
    CleanPrune(w.store, "A", 0);
    AskFiles(w, "A", rooms, from, to, "o", calendar, ttl);
  }

  /** Pruning an index without dead tokens changes nothing. */
  lemma CleanPrune(st: Store, property: string, now: int)
    requires property in st.index ==> st.index[property] == ActiveTokens(st, property, now)
    ensures Pruned(st, property, now) == st
  {
    if property in st.index {
      assert st.index[property := st.index[property]] == st.index;
    }
  }

  /** After these quotes "t" can be sent at property B for a stay that starts a day earlier: nothing refuses it
      there. */
  lemma TokenMoves(rooms: seq<string>, from: string, to: string, earlier: string, calendar: string -> Option<int>,
                   ttl: int)
    requires 0 < ttl && WellFormedRooms(rooms)
    requires from != "" && to != "" && earlier != ""
    requires calendar(from).Some? && calendar(to).Some? && calendar(earlier).Some?
    requires calendar(earlier).value < calendar(from).value < calendar(to).value
    ensures var w := World(TwoHolds(rooms, calendar(from).value, calendar(to).value, ttl), 0);
            var moved := Hold("t", "B", Join(rooms, ','), "", calendar(earlier).value, calendar(to).value, ttl);
            && Admissible(w, Ask("B", rooms, earlier, to, "t", calendar, ttl), ttl)
            && Step(w, Ask("B", rooms, earlier, to, "t", calendar, ttl)) == w.(store := Placed(w.store, moved, 0))
  {
    var w := World(TwoHolds(rooms, calendar(from).value, calendar(to).value, ttl), 0);
    assert ActiveTokens(w.store, "B", 0) == {};
    CleanPrune(w.store, "B", 0);
    AskFiles(w, "B", rooms, earlier, to, "t", calendar, ttl);
  }

  lemma ThreeQuotes(own: Plan, from: string, to: string, earlier: string, calendar: string -> Option<int>, ttl: int)
    returns (events: seq<Event>)
    requires WellFormedRooms(own.roomIds) && own.checkin < own.checkout && 0 < ttl
    requires from != "" && to != "" && earlier != ""
    requires calendar(from) == Some(own.checkin) && calendar(to) == Some(own.checkout)
    requires calendar(earlier) == Some(own.checkin - 1)
    ensures AdmissibleRun(START, events, ttl)
    ensures var moved := Hold("t", "B", Join(own.roomIds, ','), "", own.checkin - 1, own.checkout, ttl);
            Run(START, events) == World(Placed(TwoHolds(own.roomIds, own.checkin, own.checkout, ttl), moved, 0), 0)
  {
    var rooms := own.roomIds;
    var a, b := Ask("A", rooms, from, to, "t", calendar, ttl), Ask("A", rooms, from, to, "o", calendar, ttl);
    var c := Ask("B", rooms, earlier, to, "t", calendar, ttl);
    events := [a, b, c];
    TwoHoldsArise(rooms, from, to, calendar, ttl);
    TokenMoves(rooms, from, to, earlier, calendar, ttl);
    ThreeSteps(a, b, c, ttl);
  }

  /** For every stay three accepted quotes lead there: "t" and "o" quote it at property A, then "t" is sent at property
      B for a longer stay that starts a day earlier. Property A now lists a hold of B, and refuses the stay it holds. */
  lemma MovedTokenArises(own: Plan, ttl: int)
    requires WellFormedRooms(own.roomIds) && own.checkin < own.checkout && own.priorToken == "" && 0 < ttl
    ensures exists events ::
              && AdmissibleRun(START, events, ttl) && Run(START, events).now == 0
              && HasForeign(Run(START, events).store, "A", 0)
              && StayIsHeld(Run(START, events).store, "A", own, 0)
              && HoldsRefuse(Run(START, events).store, "A", own, 0)
  {
    var calendar := (s: string) => if |s| == 1 then Some(own.checkin - 1) else if |s| == 2 then Some(own.checkin)
                                   else if |s| == 3 then Some(own.checkout) else None;
    var events := ThreeQuotes(own, "in", "out", "-", calendar, ttl);
    MovedTokenInTwoHolds(own, Hold("t", "B", Join(own.roomIds, ','), "", own.checkin - 1, own.checkout, ttl), ttl);
  }

  lemma OneStep(w: World, e: Event, events: seq<Event>, ttl: int)
    ensures Run(w, [e] + events) == Run(Step(w, e), events)
    ensures AdmissibleRun(w, [e] + events, ttl) <==> Admissible(w, e, ttl) && AdmissibleRun(Step(w, e), events, ttl)
  {
    assert ([e] + events)[1..] == events;
  }

  lemma ThreeSteps(a: Event, b: Event, c: Event, ttl: int)
    ensures Run(START, [a, b, c]) == Step(Step(Step(START, a), b), c)
    ensures AdmissibleRun(START, [a, b, c], ttl) <==>
              && Admissible(START, a, ttl) && Admissible(Step(START, a), b, ttl)
              && Admissible(Step(Step(START, a), b), c, ttl)
  {
    assert [a, b, c] == [a] + [b, c] && [b, c] == [b] + [c] && [c] == [c] + [];
    OneStep(START, a, [b, c], ttl);
    OneStep(Step(START, a), b, [c], ttl);
    OneStep(Step(Step(START, a), b), c, [], ttl);
  }

  lemma MovedTokenInTwoHolds(own: Plan, moved: Hold, ttl: int)
    requires WellFormedRooms(own.roomIds) && own.checkin < own.checkout && own.priorToken == "" && 0 < ttl
    requires moved == Hold("t", "B", Join(own.roomIds, ','), "", own.checkin - 1, own.checkout, ttl)
    ensures var after := Placed(TwoHolds(own.roomIds, own.checkin, own.checkout, ttl), moved, 0);
            HasForeign(after, "A", 0) && StayIsHeld(after, "A", own, 0) && HoldsRefuse(after, "A", own, 0)
  {
    var first := Hold("t", "A", Join(own.roomIds, ','), "", own.checkin, own.checkout, ttl);
    var held := first.(token := "o");
    RoomsOfJoined(own.roomIds);
    assert forall t :: !Live(EMPTY, t, 0);
    PlaceKeepsInv(EMPTY, first, 0, ttl);
    var st1 := Placed(EMPTY, first, 0);
    assert Agrees(st1, held, 0);
    PlaceKeepsInv(st1, held, 0, ttl);
    var st := Placed(st1, held, 0);
    assert "o" in LiveOf(st, "A", 0);
    MovedTokenRefusesHeldStay(st, "A", own, moved, 0, ttl);
    assert "t" in ActiveTokens(Placed(st, moved, 0), "A", 0);
  }
}
