/** The guest-facing service: quoting with soft holds, searching around them, and offers that pin a search result. */
module Storefront {
  import opened Results
  import opened Text
  import opened Payload
  import opened Holds
  import opened Quoting

  datatype RoomOffer = RoomOffer(roomIds: seq<string>, isAvailable: bool, totalPrice: real, currency: string)

  datatype StayQuery = StayQuery(checkin: int, checkout: int, adults: int, children: int, rooms: int)

  datatype SearchError = SearchRefused(why: QuoteError) | SearchFailed | SearchHoldsUnavailable

  /** The rooms covered by the active holds of a property that overlap a stay, leaving out one token's hold. */
  ghost function HeldRooms(st: Store, property: string, from: int, to: int, exclude: string, now: int): set<string> {
    set t, room | t in ActiveTokens(st, property, now) && !(exclude != "" && st.holds[t].token == exclude)
                  && st.holds[t].Overlaps(from, to) && room in RoomsIn(st.holds[t].roomId) :: room
  }

  predicate Touches(held: set<string>, roomIds: seq<string>) {
    exists i :: 0 <= i < |roomIds| && roomIds[i] in held
  }

  /** The available offers that touch no held room, in their original order. */
  function Offerable(offers: seq<RoomOffer>, held: set<string>): seq<RoomOffer> {
    if offers == [] then []
    else
      (if offers[0].isAvailable && !Touches(held, offers[0].roomIds) then [offers[0]] else [])
      + Offerable(offers[1..], held)
  }

  function SearchQuery(body: Body, checkin: int, checkout: int): StayQuery {
    StayQuery(checkin, checkout, IntOr(Field(body, "adults"), 1), IntOr(Field(body, "children"), 0),
              IntOr(Field(body, "rooms"), 1))
  }

  ghost function SearchResult(st: Store, prop: Property, body: Body, env: Env, pms: StayQuery -> Option<seq<RoomOffer>>)
    : Result<seq<RoomOffer>, SearchError>
  {
    if env.engine.EngineError? then Err(SearchRefused(EngineUnknown))
    else if env.engine.EngineOff? then Err(SearchRefused(EngineDisabled))
    else
      match ParseDateRange(body, env.parseDay)
      case Err(e) => Err(SearchRefused(e))
      case Ok((checkin, checkout)) =>
        var answer := pms(SearchQuery(body, checkin, checkout));
        if answer.None? then Err(SearchFailed)
        else if !env.holdsUp then Err(SearchHoldsUnavailable)
        else Ok(Offerable(answer.value, HeldRooms(st, prop.id, checkin, checkout, "", env.now)))
  }

  method OfferTouchesHeldRoom(held: set<string>, roomIds: seq<string>) returns (touches: bool)
    ensures touches <==> Touches(held, roomIds)
  {
    for i := 0 to |roomIds|
      invariant forall n :: 0 <= n < i ==> roomIds[n] !in held
    {
      if roomIds[i] in held {
        return true;
      }
    }
    return false;
  }

  method WithoutHeld(offered: seq<RoomOffer>, held: set<string>) returns (rooms: seq<RoomOffer>)
    ensures rooms == Offerable(offered, held)
  {
    rooms := [];
    for k := 0 to |offered|
      invariant rooms == Offerable(offered[..k], held)
    {
      assert offered[..k + 1] == offered[..k] + [offered[k]];
      OfferableAppend(offered[..k], [offered[k]], held);
      var touches := OfferTouchesHeldRoom(held, offered[k].roomIds);
      if !offered[k].isAvailable || touches {
        continue;
      }
      rooms := rooms + [offered[k]];
    }
    assert offered[..|offered|] == offered;
  }

  /** A raw stay from a search, before it is turned into stored offers. */
  datatype RawStay = RawStay(checkIn: string, checkOut: string, nights: int, offers: seq<RoomOffer>)

  datatype ListedOffer = ListedOffer(offerId: string, amount: real, currency: string, roomIds: seq<string>,
                                     expiresAt: int)

  datatype StayOption = StayOption(stayId: string, checkIn: string, checkOut: string, nights: int,
                                   offers: seq<ListedOffer>)

  /** A listed offer resolves to one stored snapshot of the same stay, price and rooms. */
  ghost predicate Resolves(offers: map<string, Offer>, prop: Property, option: StayOption, listed: ListedOffer,
                           adults: int, children: int, rooms: int, searchId: string)
  {
    && listed.offerId in offers
    && var o := offers[listed.offerId];
       && o.id == listed.offerId && o.propertyId == prop.id && o.stayId == option.stayId
       && o.checkIn == option.checkIn && o.checkOut == option.checkOut && o.nights == option.nights
       && o.totalAmount == listed.amount && o.currency == listed.currency
       && o.roomIds == listed.roomIds && o.expiresAt == listed.expiresAt
       && o.adults == adults && o.children == children && o.requestedRooms == rooms && o.searchId == searchId
  }

  ghost predicate OptionResolves(offers: map<string, Offer>, prop: Property, option: StayOption, adults: int,
                                 children: int, rooms: int, searchId: string)
  {
    forall j :: 0 <= j < |option.offers| ==>
          Resolves(offers, prop, option, option.offers[j], adults, children, rooms, searchId)
  }

  ghost predicate AllResolve(offers: map<string, Offer>, prop: Property, options: seq<StayOption>, adults: int,
                             children: int, rooms: int, searchId: string)
  {
    forall i :: 0 <= i < |options| ==> OptionResolves(offers, prop, options[i], adults, children, rooms, searchId)
  }

  function OptionFor(raw: RawStay, stayId: string, listed: seq<ListedOffer>): StayOption {
    StayOption(stayId, raw.checkIn, raw.checkOut, raw.nights, listed)
  }

  /** No stored offer was lost or changed. */
  ghost predicate Keeps(before: map<string, Offer>, after: map<string, Offer>) {
    forall id :: id in before ==> id in after && after[id] == before[id]
  }

  /** The ids of the listed offers, stay by stay. */
  function OfferIds(options: seq<StayOption>): seq<string> {
    if options == [] then [] else OfferIds(options[..|options| - 1]) + IdsOf(options[|options| - 1].offers)
  }

  function IdsOf(listed: seq<ListedOffer>): seq<string> {
    seq(|listed|, j requires 0 <= j < |listed| => listed[j].offerId)
  }

  /** Different ids that name offers stored since. */
  ghost predicate NewIds(ids: seq<string>, before: map<string, Offer>, after: map<string, Offer>) {
    Distinct(ids) && forall id :: id in ids ==> id !in before && id in after
  }

  ghost predicate Distinct(ids: seq<string>) {
    forall i, j :: 0 <= i < j < |ids| ==> ids[i] != ids[j]
  }

  lemma DistinctConcat(a: seq<string>, b: seq<string>)
    requires Distinct(a) && Distinct(b) && forall id :: id in b ==> id !in a
    ensures Distinct(a + b)
  {
    forall i, j | 0 <= i < j < |a + b| ensures (a + b)[i] != (a + b)[j] {
      if i < |a| <= j {
        assert b[j - |a|] in b && a[i] in a;
      }
    }
  }

  lemma OneMoreId(ids: seq<string>, id: string, start: map<string, Offer>, before: map<string, Offer>,
                  after: map<string, Offer>)
    requires NewIds(ids, start, before) && Keeps(start, before) && Keeps(before, after)
    requires id !in before && id in after
    ensures NewIds(ids + [id], start, after)
  {
    DistinctConcat(ids, [id]);
  }

  /** The first offers of a stay, listed in order under new ids. */
  ghost predicate ListedSoFar(raw: seq<RoomOffer>, listed: seq<ListedOffer>, prop: Property,
                              start: map<string, Offer>, offers: map<string, Offer>, putUp: string -> bool, at: int)
  {
    && Keeps(start, offers) && NewIds(IdsOf(listed), start, offers) && (forall id :: id in IdsOf(listed) ==> putUp(id))
    && Mirrors(raw, listed, prop) && Expires(listed, at)
  }

  lemma OneMoreListed(raw: seq<RoomOffer>, k: nat, listed: seq<ListedOffer>, item: ListedOffer, prop: Property,
                      start: map<string, Offer>, before: map<string, Offer>, after: map<string, Offer>,
                      putUp: string -> bool, at: int)
    requires k < |raw| && ListedSoFar(raw[..k], listed, prop, start, before, putUp, at) && Keeps(before, after)
    requires item.offerId !in before && item.offerId in after && putUp(item.offerId)
    requires item.roomIds == raw[k].roomIds && item.amount == raw[k].totalPrice && item.expiresAt == at
    requires item.currency == CurrencyOr(raw[k].currency, prop.defaultCurrency)
    ensures ListedSoFar(raw[..k + 1], listed + [item], prop, start, after, putUp, at)
  {
    OneMoreId(IdsOf(listed), item.offerId, start, before, after);
    assert IdsOf(listed + [item]) == IdsOf(listed) + [item.offerId];
  }

  lemma OneMoreResolves(before: map<string, Offer>, after: map<string, Offer>, prop: Property, option: StayOption,
                        item: ListedOffer, adults: int, children: int, rooms: int, searchId: string)
    requires OptionResolves(before, prop, option, adults, children, rooms, searchId) && Keeps(before, after)
    requires Resolves(after, prop, option, item, adults, children, rooms, searchId)
    ensures OptionResolves(after, prop, option.(offers := option.offers + [item]), adults, children, rooms, searchId)
  {
    var more := option.(offers := option.offers + [item]);
    forall j | 0 <= j < |more.offers|
      ensures Resolves(after, prop, more, more.offers[j], adults, children, rooms, searchId)
    {
      if j < |option.offers| {
        assert Resolves(before, prop, option, option.offers[j], adults, children, rooms, searchId);
      }
    }
  }

  lemma MoreIds(options: seq<StayOption>, option: StayOption, start: map<string, Offer>, before: map<string, Offer>,
                after: map<string, Offer>)
    requires Keeps(start, before) && Keeps(before, after)
    requires NewIds(OfferIds(options), start, before) && NewIds(IdsOf(option.offers), before, after)
    ensures OfferIds(options + [option]) == OfferIds(options) + IdsOf(option.offers)
    ensures NewIds(OfferIds(options + [option]), start, after)
  {
    assert (options + [option])[..|options|] == options;
    DistinctConcat(OfferIds(options), IdsOf(option.offers));
  }

  /** Ids of stays that were drawn from the supply before `used`, each once. */
  ghost predicate StaysDrawn(options: seq<StayOption>, uuid: nat -> string, used: nat) {
    && (forall i :: 0 <= i < |options| ==> exists n: nat :: n < used && options[i].stayId == "stay_" + uuid(n))
    && (forall i, j :: 0 <= i < j < |options| ==> options[i].stayId != options[j].stayId)
  }

  lemma StayDrawn(options: seq<StayOption>, option: StayOption, uuid: nat -> string, used: nat, next: nat)
    requires StaysDrawn(options, uuid, used) && option.stayId == "stay_" + uuid(used) && used < next
    requires forall i, j :: i != j ==> uuid(i) != uuid(j)
    ensures StaysDrawn(options + [option], uuid, next)
  {
    forall i | 0 <= i < |options| ensures options[i].stayId != option.stayId {
      var n: nat :| n < used && options[i].stayId == "stay_" + uuid(n);
      assert options[i].stayId[5..] == uuid(n) && option.stayId[5..] == uuid(used);
    }
  }

  /** What holds of the options issued so far: offers stored before are kept, the listed ones are new, stored and
      different, and so are the stays. */
  ghost predicate Issued(options: seq<StayOption>, start: map<string, Offer>, offers: map<string, Offer>,
                         putUp: string -> bool, uuid: nat -> string, used: nat)
  {
    && Keeps(start, offers) && NewIds(OfferIds(options), start, offers)
    && (forall id :: id in OfferIds(options) ==> putUp(id))
    && StaysDrawn(options, uuid, used)
  }

  lemma IssuedKept(options: seq<StayOption>, start: map<string, Offer>, before: map<string, Offer>,
                   after: map<string, Offer>, putUp: string -> bool, uuid: nat -> string, drawn: nat, used: nat)
    requires Issued(options, start, before, putUp, uuid, drawn) && Keeps(before, after) && drawn <= used
    ensures Issued(options, start, after, putUp, uuid, used)
  {
    forall i | 0 <= i < |options| ensures exists n: nat :: n < used && options[i].stayId == "stay_" + uuid(n) {
      var n: nat :| n < drawn && options[i].stayId == "stay_" + uuid(n);
    }
  }

  lemma IssuedMore(options: seq<StayOption>, option: StayOption, start: map<string, Offer>, before: map<string, Offer>,
                   after: map<string, Offer>, putUp: string -> bool, uuid: nat -> string, drawn: nat, used: nat)
    requires Issued(options, start, before, putUp, uuid, drawn) && Keeps(before, after) && drawn < used
    requires NewIds(IdsOf(option.offers), before, after) && forall id :: id in IdsOf(option.offers) ==> putUp(id)
    requires option.stayId == "stay_" + uuid(drawn) && forall i, j :: i != j ==> uuid(i) != uuid(j)
    ensures Issued(options + [option], start, after, putUp, uuid, used)
  {
    MoreIds(options, option, start, before, after);
    StayDrawn(options, option, uuid, drawn, used);
  }

  predicate Expires(listed: seq<ListedOffer>, at: int) {
    forall j :: 0 <= j < |listed| ==> listed[j].expiresAt == at
  }

  /** The options are the given stays one for one, with their offers priced in order and expiring together. */
  ghost predicate Describes(stays: seq<RawStay>, options: seq<StayOption>, prop: Property, expiresAt: int) {
    && |options| == |stays|
    && forall i :: 0 <= i < |options| ==>
         && options[i].checkIn == stays[i].checkIn && options[i].checkOut == stays[i].checkOut
             && options[i].nights == stays[i].nights
         && Mirrors(stays[i].offers, options[i].offers, prop) && Expires(options[i].offers, expiresAt)
  }

  /** `listed` is the raw offers of one stay with the property's currency filled in, in order. */
  predicate Mirrors(raw: seq<RoomOffer>, listed: seq<ListedOffer>, prop: Property) {
    && |listed| == |raw|
    && forall j :: 0 <= j < |raw| ==>
         && listed[j].roomIds == raw[j].roomIds && listed[j].amount == raw[j].totalPrice
         && listed[j].currency == CurrencyOr(raw[j].currency, prop.defaultCurrency)
  }

  /** The stays that have at least one offer. */
  function Offered(stays: seq<RawStay>): seq<RawStay> {
    if stays == [] then []
       else Offered(stays[..|stays| - 1]) + (if stays[|stays| - 1].offers == [] then [] else [stays[|stays| - 1]])
  }

  lemma OneMoreOptionResolves(offers: map<string, Offer>, prop: Property, options: seq<StayOption>, option: StayOption,
                              adults: int, children: int, rooms: int, searchId: string)
    requires AllResolve(offers, prop, options, adults, children, rooms, searchId)
    requires OptionResolves(offers, prop, option, adults, children, rooms, searchId)
    ensures AllResolve(offers, prop, options + [option], adults, children, rooms, searchId)
  {
  }

  lemma EmptyStayIsSkipped(stays: seq<RawStay>, s: nat)
    requires s < |stays| && stays[s].offers == []
    ensures Offered(stays[..s + 1]) == Offered(stays[..s])
  {
    assert stays[..s + 1][..s] == stays[..s] && stays[..s + 1][s] == stays[s];
  }

  lemma OneMoreOption(stays: seq<RawStay>, options: seq<StayOption>, option: StayOption, prop: Property, expiresAt: int,
                      s: nat)
    requires s < |stays| && Describes(Offered(stays[..s]), options, prop, expiresAt)
    requires option.checkIn == stays[s].checkIn && option.checkOut == stays[s].checkOut
             && option.nights == stays[s].nights
    requires Mirrors(stays[s].offers, option.offers, prop) && Expires(option.offers, expiresAt) && option.offers != []
    ensures Describes(Offered(stays[..s + 1]), options + [option], prop, expiresAt)
  {
    assert stays[..s + 1][..s] == stays[..s] && stays[..s + 1][s] == stays[s];
    assert Offered(stays[..s + 1]) == Offered(stays[..s]) + [stays[s]];
  }

  /** From `used` on, the id supply never repeats and names no stored offer. */
  ghost predicate Unused(uuid: nat -> string, used: nat, offers: map<string, Offer>) {
    && (forall i, j :: i != j ==> uuid(i) != uuid(j))
    && (forall n: nat :: n >= used ==> "off_" + uuid(n) !in offers)
  }

  lemma NextUnused(uuid: nat -> string, used: nat, offers: map<string, Offer>)
    requires Unused(uuid, used, offers)
    ensures "off_" + uuid(used) !in offers && Unused(uuid, used + 1, offers)
    ensures forall n: nat :: n > used ==> "off_" + uuid(n) != "off_" + uuid(used)
  {
    forall n: nat | n > used ensures "off_" + uuid(n) != "off_" + uuid(used) {
      assert ("off_" + uuid(n))[4..] == uuid(n) && ("off_" + uuid(used))[4..] == uuid(used);
    }
  }

  lemma KeptResolve(before: map<string, Offer>, after: map<string, Offer>, prop: Property, options: seq<StayOption>,
                    adults: int, children: int, rooms: int, searchId: string)
    requires Keeps(before, after) && AllResolve(before, prop, options, adults, children, rooms, searchId)
    ensures AllResolve(after, prop, options, adults, children, rooms, searchId)
  {
    forall i | 0 <= i < |options| ensures OptionResolves(after, prop, options[i], adults, children, rooms, searchId) {
      assert OptionResolves(before, prop, options[i], adults, children, rooms, searchId);
      forall j | 0 <= j < |options[i].offers|
          ensures Resolves(after, prop, options[i], options[i].offers[j], adults, children, rooms, searchId)
      {
        assert Resolves(before, prop, options[i], options[i].offers[j], adults, children, rooms, searchId);
      }
    }
  }

  const DEFAULT_HOLD_TTL := 600
  const OFFER_TTL := 300

  class Service {
    const store: HoldStore
    const holdTtl: int
    var offers: map<string, Offer>
    ghost var asked: seq<QuoteQuery>   // the quote queries sent to the PMS, in order

    constructor (holds: HoldStore, ttl: int)
      ensures store == holds && holdTtl > 0 && (ttl > 0 ==> holdTtl == ttl) && offers == map[] && asked == []
    {
      store := holds;
      holdTtl := if ttl <= 0 then DEFAULT_HOLD_TTL else ttl;
      offers := map[];
      asked := [];
    }

    method HeldRoomsExcluding(property: string, from: int, to: int, exclude: string, now: int)
      returns (held: set<string>)
      modifies store
      ensures store.View() == Pruned(old(store.View()), property, now)
      ensures held == HeldRooms(old(store.View()), property, from, to, exclude, now)
    {
      ghost var st := store.View();
      var active, order := store.ActiveForProperty(property, now);
      held := {};
      for k := 0 to |active|
        invariant forall room :: room in held <==>
          exists j :: 0 <= j < k && !(exclude != "" && active[j].token == exclude) && active[j].Overlaps(from, to)
              && room in RoomsIn(active[j].roomId)
      {
        var h := active[k];
        if exclude != "" && h.token == exclude {
          continue;
        }
        if h.Overlaps(from, to) {
          var pieces := Split(h.roomId, ',');
          ghost var before := held;
          for i := 0 to |pieces|
            invariant forall room :: room in held <==>
              room in before || exists n :: 0 <= n < i && TrimSpace(pieces[n]) == room && room != ""
          {
            var id := TrimSpace(pieces[i]);
            if id != "" {
              held := held + {id};
            }
          }
          assert forall room :: room in RoomsIn(h.roomId) <==>
                   exists n :: 0 <= n < |pieces| && TrimSpace(pieces[n]) == room && room != "";
        }
      }
      HeldFromList(st, property, from, to, exclude, now, active, order, held);
    }

    /** `search_availability`: the PMS's offers without those that touch a room held on a night of the stay. */
    method SearchAvailability(prop: Property, body: Body, env: Env, pms: StayQuery -> Option<seq<RoomOffer>>)
      returns (r: Result<seq<RoomOffer>, SearchError>)
      modifies store
      ensures r == SearchResult(old(store.View()), prop, body, env, pms)
      ensures store.View() == if r.Ok? then Pruned(old(store.View()), prop.id, env.now) else old(store.View())
    {
      if env.engine.EngineError? {
        return Err(SearchRefused(EngineUnknown));
      }
      if env.engine.EngineOff? {
        return Err(SearchRefused(EngineDisabled));
      }
      var range := ParseDateRange(body, env.parseDay);
      if range.Err? {
        return Err(SearchRefused(range.error));
      }
      var (checkin, checkout) := range.value;
      var answer := pms(SearchQuery(body, checkin, checkout));
      if answer.None? {
        return Err(SearchFailed);
      }
      if !env.holdsUp {
        return Err(SearchHoldsUnavailable);
      }
      var held := HeldRoomsExcluding(prop.id, checkin, checkout, "", env.now);
      var rooms := WithoutHeld(answer.value, held);
      return Ok(rooms);
    }

    /** Stores one offer per raw offer of a stay, under ids from `used` on. */
    method IssueStay(prop: Property, searchId: string, adults: int, children: int, rooms: int, raw: RawStay,
                     stayId: string,
                     now: int, putUp: string -> bool, uuid: nat -> string, used: nat)
      returns (listed: Option<seq<ListedOffer>>, next: nat)
      requires Unused(uuid, used, offers)
      modifies this`offers
      ensures Keeps(old(offers), offers)
      ensures next >= used && Unused(uuid, next, offers)
      ensures listed.None? ==> exists n: nat :: n < next && !putUp("off_" + uuid(n))
      ensures listed.Some? ==> forall id :: id in IdsOf(listed.value) ==> putUp(id)
      ensures listed.Some? ==> NewIds(IdsOf(listed.value), old(offers), offers)
      ensures listed.Some? ==>
        && Mirrors(raw.offers, listed.value, prop)
        && OptionResolves(offers, prop, OptionFor(raw, stayId, listed.value), adults, children, rooms, searchId)
        && Expires(listed.value, now + OFFER_TTL)
    {
      var out: seq<ListedOffer> := [];
      next := used;
      for k := 0 to |raw.offers|
        invariant next >= used && Unused(uuid, next, offers)
        invariant OptionResolves(offers, prop, OptionFor(raw, stayId, out), adults, children, rooms, searchId)
        invariant ListedSoFar(raw.offers[..k], out, prop, old(offers), offers, putUp, now + OFFER_TTL)
      {
        ghost var before := offers;
        var id := "off_" + uuid(next);
        NextUnused(uuid, next, offers);
        next := next + 1;
        var currency := CurrencyOr(raw.offers[k].currency, prop.defaultCurrency);
        var offer := Offer(id, searchId, stayId, prop.id, raw.checkIn, raw.checkOut, raw.nights,
                           adults, children, rooms, raw.offers[k].roomIds, raw.offers[k].totalPrice, currency,
                           now + OFFER_TTL);
        if !putUp(id) {
          return None, next;
        }
        offers := offers[id := offer];
        var item := ListedOffer(id, offer.totalAmount, currency, offer.roomIds, offer.expiresAt);
        OneMoreResolves(before, offers, prop, OptionFor(raw, stayId, out), item, adults, children, rooms, searchId);
        OneMoreListed(raw.offers, k, out, item, prop, old(offers), before, offers, putUp, now + OFFER_TTL);
        out := out + [item];
      }
      assert raw.offers[..|raw.offers|] == raw.offers;
      return Some(out), next;
    }

    /** Turns raw stays into stored, expiring offers. A failing offer store aborts, keeping the offers already
        stored. */
    method IssueOffers(prop: Property, searchId: string, adults: int, children: int, rooms: int, stays: seq<RawStay>,
                       now: int, putUp: string -> bool, uuid: nat -> string)
      returns (options: Option<seq<StayOption>>)
      requires Unused(uuid, 0, offers)
      modifies this`offers
      ensures Keeps(old(offers), offers)
      ensures options.None? ==> exists n: nat :: !putUp("off_" + uuid(n))
      ensures options.Some? ==>
        && (exists used :: Issued(options.value, old(offers), offers, putUp, uuid, used))
        && AllResolve(offers, prop, options.value, adults, children, rooms, searchId)
        && Describes(Offered(stays), options.value, prop, now + OFFER_TTL)
    {
      var out: seq<StayOption> := [];
      var used: nat := 0;
      for s := 0 to |stays|
        invariant Unused(uuid, used, offers)
        invariant AllResolve(offers, prop, out, adults, children, rooms, searchId)
        invariant Describes(Offered(stays[..s]), out, prop, now + OFFER_TTL)
        invariant Issued(out, old(offers), offers, putUp, uuid, used)
      {
        var raw := stays[s];
        var stayId := "stay_" + uuid(used);
        NextUnused(uuid, used, offers);
        ghost var before, drawn := offers, used;
        var listed, next := IssueStay(prop, searchId, adults, children, rooms, raw, stayId, now, putUp, uuid, used + 1);
        used := next;
        KeptResolve(before, offers, prop, out, adults, children, rooms, searchId);
        IssuedKept(out, old(offers), before, offers, putUp, uuid, drawn, used);
        if listed.None? {
          return None;
        }
        if |listed.value| == 0 {
          EmptyStayIsSkipped(stays, s);
          continue;
        }
        var option := OptionFor(raw, stayId, listed.value);
        IssuedMore(out, option, old(offers), before, offers, putUp, uuid, drawn, used);
        OneMoreOption(stays, out, option, prop, now + OFFER_TTL, s);
        OneMoreOptionResolves(offers, prop, out, option, adults, children, rooms, searchId);
        out := out + [option];
      }
      assert stays[..|stays|] == stays;
      return Some(out);
    }

    /** The part of `get_quote` before the hold store is read: the offer, if one is named, then rooms and dates. */
    method ReadRequest(prop: Property, body: Body, env: Env) returns (r: Result<Plan, QuoteError>)
      ensures r == Prepare(offers, prop, body, env)
    {
      if env.engine.EngineError? {
        return Err(EngineUnknown);
      }
      if env.engine.EngineOff? {
        return Err(EngineDisabled);
      }
      var request := body;
      var selected: Option<Offer> := None;
      var offerId := TrimSpace(StringOr(Field(body, "offer_id")));
      if offerId != "" {
        if !env.offersUp {
          return Err(OfferStoreDown);
        }
        if offerId !in offers || offers[offerId].expiresAt <= env.now {
          return Err(OfferNotFound);
        }
        var offer := offers[offerId];
        if offer.propertyId != prop.id {
          return Err(OfferOfAnotherProperty);
        }
        var applied := ApplyOffer(request, offer);
        if applied.Err? {
          return Err(applied.error);
        }
        request := applied.value;
        selected := Some(offer);
      }
      var ids := StrictStringArray(Field(request, "room_ids"));
      if ids.Err? {
        return Err(BadRoomIds(ids.error));
      }
      var range := ParseDateRange(request, env.parseDay);
      if range.Err? {
        return Err(range.error);
      }
      return Ok(Plan(ids.value, range.value.0, range.value.1, IntOr(Field(request, "adults"), 1),
                     IntOr(Field(request, "children"), 0),
                     TrimSpace(StringOr(Field(request, "hold_token"))), selected));
    }

    /** The hold check of `get_quote`: scans the active holds for one that blocks the plan. */
    method HeldByAnother(property: string, plan: Plan, now: int) returns (refused: bool)
      modifies store
      ensures store.View() == Pruned(old(store.View()), property, now)
      ensures refused <==> HoldsRefuse(old(store.View()), property, plan, now)
    {
      ghost var st := store.View();
      var active, order := store.ActiveForProperty(property, now);
      var requestedRooms := RoomSet(plan.roomIds);
      for k := 0 to |active|
        invariant forall j :: 0 <= j < k ==> !Blocks(active[j], plan)
      {
        var h := active[k];
        if plan.priorToken != "" && h.token == plan.priorToken {
          continue;
        }
        if h.roomId == Join(plan.roomIds, ',') && h.checkin == plan.checkin && h.checkout == plan.checkout {
          continue;
        }
        if !h.Overlaps(plan.checkin, plan.checkout) {
          continue;
        }
        var pieces := Split(h.roomId, ',');
        for i := 0 to |pieces|
          invariant forall n :: 0 <= n < i ==> TrimSpace(pieces[n]) !in plan.roomIds
        {
          if TrimSpace(pieces[i]) in requestedRooms {
            assert order[k] in ActiveTokens(st, property, now) && Blocks(st.holds[order[k]], plan);
            return true;
          }
        }
      }
      forall t | t in ActiveTokens(st, property, now) ensures !Blocks(st.holds[t], plan) {
        assert t in order;
        var k :| 0 <= k < |order| && order[k] == t;
        assert active[k] == st.holds[t];
      }
      return false;
    }

    /** `get_quote`: checks the stay against the soft holds, prices it, and places or refreshes one hold. */
    method GetQuote(prop: Property, body: Body, env: Env) returns (out: Outcome)
      requires env.ttl == holdTtl
      modifies store, this`asked
      ensures (store.View(), out) == QuoteStep(old(store.View()), offers, prop, body, env)
      ensures asked == old(asked) + QueriesOf(old(store.View()), offers, prop, body, env)
    {
      var request := ReadRequest(prop, body, env);
      if request.Err? {
        return Refused(request.error);
      }
      var plan := request.value;
      if !env.holdsUp {
        return Refused(HoldsUnavailable);
      }
      var refused := HeldByAnother(prop.id, plan, env.now);
      if refused {
        return Refused(RoomHeld);
      }
      var query := QuoteQuery(plan.roomIds, plan.checkin, plan.checkout, plan.adults, plan.children);
      var answer := env.pms(query);
      asked := asked + [query];
      if answer.None? {
        return Refused(PmsFailed);
      }
      out := SettleQuote(prop, plan, answer.value, env);
    }

    /** The tail of `get_quote`: the PMS has priced a stay that no hold blocks. */
    method SettleQuote(prop: Property, plan: Plan, quote: Quote, env: Env) returns (out: Outcome)
      requires env.ttl == holdTtl
      modifies store
      ensures (store.View(), out) == Settle(old(store.View()), prop, plan, quote, env)
    {
      var currency := CurrencyOr(quote.currency, prop.defaultCurrency);
      if plan.offer.Some? && quote.isAvailable {
        if quote.totalPrice != plan.offer.value.totalAmount || currency != plan.offer.value.currency {
          return Refused(OfferPriceChanged);
        }
      }
      var quoteIds := quote.roomIds;
      if |quoteIds| == 0 {
        quoteIds := plan.roomIds;
      }
      out := Quoted(quoteIds, quote, currency, if plan.offer.Some? then plan.offer.value.id else "", None);
      if !quote.isAvailable {
        return;
      }
      var holdToken := plan.priorToken;
      if holdToken == "" {
        holdToken := env.freshToken;
      }
      var hold := Hold(holdToken, prop.id, Join(quoteIds, ','), quote.roomType, plan.checkin, plan.checkout,
                       env.now + holdTtl);
      var placed := store.Place(hold, env.now, env.placeUp);
      if !placed {
        return Refused(HoldNotPlaced);
      }
      out := out.(hold := Some(hold));
    }
  }

  method RoomSet(ids: seq<string>) returns (rooms: set<string>)
    ensures forall id :: id in rooms <==> id in ids
  {
    rooms := {};
    for k := 0 to |ids|
      invariant forall id :: id in rooms <==> id in ids[..k]
    {
      rooms := rooms + {ids[k]};
    }
    assert ids[..|ids|] == ids;
  }

  /** The queries one request sends to the PMS: the plan's, if the request survives the hold check, and no other. */
  ghost function QueriesOf(st: Store, offers: map<string, Offer>, prop: Property, body: Body, env: Env): seq<QuoteQuery>
  {
    match Prepare(offers, prop, body, env)
    case Err(_) => []
    case Ok(plan) => if !env.holdsUp || HoldsRefuse(st, prop.id, plan, env.now) then [] else [plan.Query()]
  }

  lemma HeldFromList(st: Store, property: string, from: int, to: int, exclude: string, now: int, active: seq<Hold>,
                     order: seq<string>, held: set<string>)
    requires Lists(st, property, now, active, order)
    requires forall room :: room in held <==>
      exists j :: 0 <= j < |active| && !(exclude != "" && active[j].token == exclude) && active[j].Overlaps(from, to)
          && room in RoomsIn(active[j].roomId)
    ensures held == HeldRooms(st, property, from, to, exclude, now)
  {
    var want := HeldRooms(st, property, from, to, exclude, now);
    forall room | room in held ensures room in want {
      var j :| 0 <= j < |active| && !(exclude != "" && active[j].token == exclude) && active[j].Overlaps(from, to)
          && room in RoomsIn(active[j].roomId);
      assert order[j] in ActiveTokens(st, property, now);
    }
    forall room | room in want ensures room in held {
      var t :| t in ActiveTokens(st, property, now) && !(exclude != "" && st.holds[t].token == exclude)
               && st.holds[t].Overlaps(from, to) && room in RoomsIn(st.holds[t].roomId);
      assert t in order;
      var j :| 0 <= j < |order| && order[j] == t;
      assert active[j] == st.holds[t];
    }
  }

  // ---------------------------------------------------------------- search and quote agree

  /** A room is held over a stay exactly when some active hold covers it on a night of the stay. */
  lemma HeldMeansCoveredNight(st: Store, property: string, from: int, to: int, now: int, ttl: int, room: string)
    requires Filed(st, now, ttl) && from < to
    ensures room in HeldRooms(st, property, from, to, "", now) <==>
              exists t, night :: t in ActiveTokens(st, property, now) && NightOf(night, from, to)
                  && st.holds[t].Covers(night, room)
  {
    if room in HeldRooms(st, property, from, to, "", now) {
      var t :| t in ActiveTokens(st, property, now) && st.holds[t].Overlaps(from, to)
          && room in RoomsIn(st.holds[t].roomId);
      assert Live(st, t, now);
      OverlapsIsSharedNight(st.holds[t], from, to);
      var night :| NightOf(night, from, to) && NightOf(night, st.holds[t].checkin, st.holds[t].checkout);
      assert st.holds[t].Covers(night, room);
    }
    if t, night :| t in ActiveTokens(st, property, now) && NightOf(night, from, to) && st.holds[t].Covers(night, room) {
      assert Live(st, t, now);
      assert NightOf(night, st.holds[t].checkin, st.holds[t].checkout);
      OverlapsIsSharedNight(st.holds[t], from, to);
    }
  }

  /** What a search returns is the available, untouched offers and nothing else. */
  lemma {:induction false} OfferableMembers(offers: seq<RoomOffer>, held: set<string>, o: RoomOffer)
    ensures o in Offerable(offers, held) <==> o in offers && o.isAvailable && !Touches(held, o.roomIds)
  {
    if offers != [] {
      OfferableMembers(offers[1..], held, o);
      assert offers == [offers[0]] + offers[1..];
    }
  }

  /** Searching the two halves of a list one after the other gives the same answer, so order is kept. */
  lemma {:induction false} OfferableAppend(a: seq<RoomOffer>, b: seq<RoomOffer>, held: set<string>)
    ensures Offerable(a + b, held) == Offerable(a, held) + Offerable(b, held)
  {
    if a == [] {
      assert a + b == b;
    } else {
      assert (a + b)[1..] == a[1..] + b;
      OfferableAppend(a[1..], b, held);
    }
  }

  /** Any offer a search returns passes the hold check of a quote for it in the same state, with any token. */
  lemma SearchedOfferPassesHoldCheck(st: Store, property: string, offers: seq<RoomOffer>, o: RoomOffer, plan: Plan,
                                     now: int, ttl: int)
    requires Filed(st, now, ttl)
    requires o in Offerable(offers, HeldRooms(st, property, plan.checkin, plan.checkout, "", now))
    requires plan.roomIds == o.roomIds && WellFormedRooms(plan.roomIds) && plan.checkin < plan.checkout
    ensures !HoldsRefuse(st, property, plan, now)
    ensures !HoldsRefuse(Pruned(st, property, now), property, plan, now)
  {
    var held := HeldRooms(st, property, plan.checkin, plan.checkout, "", now);
    OfferableMembers(offers, held, o);
    forall t | t in ActiveTokens(st, property, now) ensures !Blocks(st.holds[t], plan) {
      var h := st.holds[t];
      assert Live(st, t, now);
      forall i | h.Overlaps(plan.checkin, plan.checkout) && 0 <= i < |Split(h.roomId, ',')|
        ensures TrimSpace(Split(h.roomId, ',')[i]) !in plan.roomIds
      {
        RoomsOfHold(h, Split(h.roomId, ',')[i]);
        assert Split(h.roomId, ',')[i] in held;
      }
    }
  }

  // ---------------------------------------------------------------- quoting by offer

  /** An applied offer writes its dates, adults and rooms over the body and leaves the children alone. */
  lemma AppliedFields(body: Body, o: Offer)
    requires ApplyOffer(body, o).Ok?
    ensures var resolved := ApplyOffer(body, o).value;
            && Field(resolved, "room_ids") == AsStrings(o.roomIds) && Field(resolved, "adults") == Int(o.adults)
            && Field(resolved, "checkin") == Str(o.checkIn) && Field(resolved, "checkout") == Str(o.checkOut)
            && Field(resolved, "children") == Field(body, "children")
    ensures "children" in body ==> IntOr(body["children"], -1) == o.children
  {
  }

  lemma PlanOfOffer(body: Body, o: Offer, env: Env)
    requires WellFormedRooms(o.roomIds) && ApplyOffer(body, o).Ok?
             && PlanOf(ApplyOffer(body, o).value, Some(o), env).Ok?
    ensures var plan := PlanOf(ApplyOffer(body, o).value, Some(o), env).value;
            && plan.offer == Some(o) && plan.roomIds == o.roomIds && plan.adults == o.adults
            && env.parseDay(o.checkIn) == Some(plan.checkin) && env.parseDay(o.checkOut) == Some(plan.checkout)
            && ("children" in body && o.children >= 0 ==> plan.children == o.children)
            && ("children" !in body ==> plan.children == 0)
  {
    AppliedFields(body, o);
    RoomListRoundTrip(o.roomIds);
  }

  lemma PreparedByOffer(offers: map<string, Offer>, prop: Property, body: Body, env: Env, id: string)
    requires TrimSpace(StringOr(Field(body, "offer_id"))) == id && id != "" && id in offers
    requires Prepare(offers, prop, body, env).Ok?
    ensures offers[id].propertyId == prop.id && env.now < offers[id].expiresAt && ApplyOffer(body, offers[id]).Ok?
    ensures Prepare(offers, prop, body, env) == PlanOf(ApplyOffer(body, offers[id]).value, Some(offers[id]), env)
  {
  }

  /** A request that names a live offer of this property can only ask the PMS about the offer's own stay and rooms, for
      its adults. It asks for the offer's children exactly when the request repeats them or there are none. */
  lemma OfferFixesTheQuery(offers: map<string, Offer>, prop: Property, body: Body, env: Env, id: string)
    requires TrimSpace(StringOr(Field(body, "offer_id"))) == id && id != "" && id in offers
    requires WellFormedRooms(offers[id].roomIds)
    requires Prepare(offers, prop, body, env).Ok?
    ensures var o, plan := offers[id], Prepare(offers, prop, body, env).value;
            && plan.offer == Some(o) && o.propertyId == prop.id && env.now < o.expiresAt
            && plan.roomIds == o.roomIds && plan.adults == o.adults
            && env.parseDay(o.checkIn) == Some(plan.checkin) && env.parseDay(o.checkOut) == Some(plan.checkout)
            && (o.children >= 0 ==> (plan.children == o.children <==> "children" in body || o.children == 0))
            && ("children" !in body ==> plan.children == 0)
  {
    PreparedByOffer(offers, prop, body, env, id);
    PlanOfOffer(body, offers[id], env);
  }

  /** Rooms sent along with an offer id must be the offer's rooms, in its order. */
  lemma OfferFixesTheRooms(body: Body, o: Offer)
    requires WellFormedRooms(o.roomIds) && "room_ids" in body && ApplyOffer(body, o).Ok?
    ensures RoomList(body["room_ids"]) == Ok(o.roomIds)
  {
    var given := RoomList(body["room_ids"]).value;
    RoomListSound(body["room_ids"]);
    StrictIsNulFree(given);
    StrictIsNulFree(o.roomIds);
    JoinInjective(given, o.roomIds, NUL);
  }

  lemma StrictIsNulFree(ids: seq<string>)
    requires WellFormedRooms(ids)
    ensures AllFree(ids, NUL)
  {
    forall i | 0 <= i < |ids| ensures NUL !in ids[i] {
      assert forall k :: 0 <= k < |ids[i]| ==> RoomIdChar(ids[i][k]);
    }
  }

  /** Every query a request by offer sends to the PMS is about the offer's own rooms, nights and adults. */
  lemma OfferQueries(st: Store, offers: map<string, Offer>, prop: Property, body: Body, env: Env, id: string,
                     q: QuoteQuery)
    requires TrimSpace(StringOr(Field(body, "offer_id"))) == id && id != "" && id in offers
    requires WellFormedRooms(offers[id].roomIds)
    requires q in QueriesOf(st, offers, prop, body, env)
    ensures q.roomIds == offers[id].roomIds && q.adults == offers[id].adults
    ensures env.parseDay(offers[id].checkIn) == Some(q.checkin) && env.parseDay(offers[id].checkOut) == Some(q.checkout)
  {
    OfferFixesTheQuery(offers, prop, body, env, id);
  }

  /** A request by offer places a hold only for the offer's nights and only at the offer's price and currency. */
  lemma QuoteByOffer(st: Store, offers: map<string, Offer>, prop: Property, body: Body, env: Env, id: string)
    requires TrimSpace(StringOr(Field(body, "offer_id"))) == id && id != "" && id in offers
    requires WellFormedRooms(offers[id].roomIds)
    requires var answer := QuoteStep(st, offers, prop, body, env).1; answer.Quoted? && answer.hold.Some?
    ensures var answer, o := QuoteStep(st, offers, prop, body, env).1, offers[id];
            && answer.offerId == o.id
            && answer.quote.totalPrice == o.totalAmount && answer.currency == o.currency
            && env.parseDay(o.checkIn) == Some(answer.hold.value.checkin)
            && env.parseDay(o.checkOut) == Some(answer.hold.value.checkout)
  {
    OfferFixesTheQuery(offers, prop, body, env, id);
    var plan := Prepare(offers, prop, body, env).value;
    var quote := env.pms(plan.Query()).value;
    assert QuoteStep(st, offers, prop, body, env).1 == Settle(Pruned(st, prop.id, env.now), prop, plan, quote, env).1;
  }

  /** A live offer of the property can be quoted by its id alone: nothing before the hold check stands in the way. */
  lemma OfferIdSuffices(offers: map<string, Offer>, prop: Property, body: Body, env: Env, id: string)
    requires body == map["offer_id" := Str(id)] && TrimSpace(id) == id && id != "" && id in offers
    requires WellFormedRooms(offers[id].roomIds) && offers[id].checkIn != "" && offers[id].checkOut != ""
    ensures Prepare(offers, prop, body, env).Ok? <==>
              && env.engine == EngineOn && env.offersUp
              && env.now < offers[id].expiresAt && offers[id].propertyId == prop.id
              && env.parseDay(offers[id].checkIn).Some? && env.parseDay(offers[id].checkOut).Some?
              && env.parseDay(offers[id].checkIn).value < env.parseDay(offers[id].checkOut).value
  {
    var o := offers[id];
    assert TrimSpace("") == "";
    assert ApplyOffer(body, o).Ok?;
    RoomListRoundTrip(o.roomIds);
    AppliedFields(body, o);
  }
}
