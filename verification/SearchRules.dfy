/** What a search answers, in terms of the request, the PMS's offers and the holds: never through the steps in
    between. */
module SearchRules {
  import opened Results
  import opened Text
  import opened Payload
  import opened Holds
  import opened Quoting
  import opened QuoteRules
  import opened Storefront

  /** What the PMS is asked: the stay of the body, and its party and rooms. */
  ghost predicate AsksFor(q: StayQuery, body: Body, parseDay: string -> Option<int>) {
    && SaysStay(body, parseDay, q.checkin, q.checkout)
    && q.adults == IntOr(Field(body, "adults"), 1) && q.children == IntOr(Field(body, "children"), 0)
    && q.rooms == IntOr(Field(body, "rooms"), 1)
  }

  /** Some active hold of the property covers a room of the offer on a night of the stay. */
  ghost predicate OfferHeld(st: Store, property: string, o: RoomOffer, from: int, to: int, now: int) {
    exists t, night, room ::
      && t in ActiveTokens(st, property, now) && from <= night < to && room in o.roomIds
      && st.holds[t].Covers(night, room)
  }

  /** A search succeeds exactly when the channel is on, the body says a stay, the PMS answers and the holds can be
      read. */
  lemma SearchSucceedsIff(st: Store, prop: Property, body: Body, env: Env, pms: StayQuery -> Option<seq<RoomOffer>>)
    ensures SearchResult(st, prop, body, env, pms).Ok? <==>
              && env.engine == EngineOn && env.holdsUp
              && exists q :: AsksFor(q, body, env.parseDay) && pms(q).Some?
  {
    if ParseDateRange(body, env.parseDay).Ok? {
      var dates := ParseDateRange(body, env.parseDay).value;
      DatesReadIff(body, env.parseDay, dates.0, dates.1);
      assert AsksFor(SearchQuery(body, dates.0, dates.1), body, env.parseDay);
    }
    if q :| AsksFor(q, body, env.parseDay) && pms(q).Some? {
      DatesReadIff(body, env.parseDay, q.checkin, q.checkout);
      assert q == SearchQuery(body, q.checkin, q.checkout);
    }
  }

  /** An offer is in the answer exactly when the PMS offered it for what the body asks, it is available, and no active
      hold covers one of its rooms on a night from check-in up to check-out. */
  lemma SearchAnswerIff(st: Store, prop: Property, body: Body, env: Env, pms: StayQuery -> Option<seq<RoomOffer>>,
                        ttl: int, q: StayQuery, o: RoomOffer)
    requires Filed(st, env.now, ttl) && AsksFor(q, body, env.parseDay)
    requires SearchResult(st, prop, body, env, pms).Ok?
    ensures pms(q).Some?
    ensures o in SearchResult(st, prop, body, env, pms).value <==>
              o in pms(q).value && o.isAvailable && !OfferHeld(st, prop.id, o, q.checkin, q.checkout, env.now)
  {
    DatesReadIff(body, env.parseDay, q.checkin, q.checkout);
    assert q == SearchQuery(body, q.checkin, q.checkout);
    var held := HeldRooms(st, prop.id, q.checkin, q.checkout, "", env.now);
    OfferableMembers(pms(q).value, held, o);
    TouchesIff(st, prop.id, o, q.checkin, q.checkout, env.now, ttl);
  }

  lemma TouchesIff(st: Store, property: string, o: RoomOffer, from: int, to: int, now: int, ttl: int)
    requires Filed(st, now, ttl) && from < to
    ensures Touches(HeldRooms(st, property, from, to, "", now), o.roomIds) <==>
              OfferHeld(st, property, o, from, to, now)
  {
    var held := HeldRooms(st, property, from, to, "", now);
    if Touches(held, o.roomIds) {
      var i :| 0 <= i < |o.roomIds| && o.roomIds[i] in held;
      HeldMeansCoveredNight(st, property, from, to, now, ttl, o.roomIds[i]);
      var t, night :| t in ActiveTokens(st, property, now) && NightOf(night, from, to)
                      && st.holds[t].Covers(night, o.roomIds[i]);
      assert o.roomIds[i] in o.roomIds;
    }
    if t, night, room :|
      && t in ActiveTokens(st, property, now) && from <= night < to && room in o.roomIds
      && st.holds[t].Covers(night, room)
    {
      assert NightOf(night, from, to);
      HeldMeansCoveredNight(st, property, from, to, now, ttl, room);
      var i :| 0 <= i < |o.roomIds| && o.roomIds[i] == room;
      assert o.roomIds[i] in held;
    }
  }

  /** `part` is `whole` with some elements left out, in the same order. */
  predicate Subsequence<T(==)>(part: seq<T>, whole: seq<T>) {
    if part == [] then true
    else whole != [] && (Subsequence(part, whole[1..]) || (part[0] == whole[0] && Subsequence(part[1..], whole[1..])))
  }

  lemma {:induction false} OfferableIsSubsequence(offers: seq<RoomOffer>, held: set<string>)
    ensures Subsequence(Offerable(offers, held), offers)
  {
    if offers != [] {
      OfferableIsSubsequence(offers[1..], held);
      var rest := Offerable(offers[1..], held);
      assert Offerable(offers, held) == [offers[0]] + rest || Offerable(offers, held) == rest;
      assert ([offers[0]] + rest)[1..] == rest;
    }
  }

  lemma {:induction false} OfferableCounts(offers: seq<RoomOffer>, held: set<string>, o: RoomOffer)
    ensures multiset(Offerable(offers, held))[o] ==
              if o.isAvailable && !Touches(held, o.roomIds) then multiset(offers)[o] else 0
  {
    if offers != [] {
      OfferableCounts(offers[1..], held, o);
      assert offers == [offers[0]] + offers[1..];
    }
  }

  /** The answer keeps the PMS's order, and each offer as often as the PMS made it. */
  lemma SearchKeepsOrder(st: Store, prop: Property, body: Body, env: Env, pms: StayQuery -> Option<seq<RoomOffer>>,
                         q: StayQuery, o: RoomOffer)
    requires AsksFor(q, body, env.parseDay) && SearchResult(st, prop, body, env, pms).Ok?
    ensures pms(q).Some? && Subsequence(SearchResult(st, prop, body, env, pms).value, pms(q).value)
    ensures o in SearchResult(st, prop, body, env, pms).value ==>
              multiset(SearchResult(st, prop, body, env, pms).value)[o] == multiset(pms(q).value)[o]
  {
    DatesReadIff(body, env.parseDay, q.checkin, q.checkout);
    assert q == SearchQuery(body, q.checkin, q.checkout);
    var held := HeldRooms(st, prop.id, q.checkin, q.checkout, "", env.now);
    OfferableIsSubsequence(pms(q).value, held);
    OfferableCounts(pms(q).value, held, o);
  }

  /** Every offer of an answer can be quoted for the body's dates in the same state, with any token. */
  lemma SearchedOfferCanBeQuoted(st: Store, prop: Property, body: Body, env: Env,
                                 pms: StayQuery -> Option<seq<RoomOffer>>, ttl: int, o: RoomOffer, plan: Plan)
    requires Filed(st, env.now, ttl) && WellFormedRooms(o.roomIds)
    requires SearchResult(st, prop, body, env, pms).Ok? && o in SearchResult(st, prop, body, env, pms).value
    requires plan.roomIds == o.roomIds && SaysStay(body, env.parseDay, plan.checkin, plan.checkout)
    ensures !HoldsRefuse(st, prop.id, plan, env.now)
  {
    DatesReadIff(body, env.parseDay, plan.checkin, plan.checkout);
    var q := SearchQuery(body, plan.checkin, plan.checkout);
    assert AsksFor(q, body, env.parseDay);
    SearchedOfferPassesHoldCheck(st, prop.id, pms(q).value, o, plan, env.now, ttl);
  }
}
