/** What a `get_quote` request is read as, when it places a hold, what that hold says, and how long it lives. */
module QuoteRules {
  import opened Results
  import opened Text
  import opened Payload
  import opened Holds
  import opened Quoting
  import opened Storefront

  /** The first currency that is given, and dollars if none is. */
  lemma CurrencyFallsBack(quoted: string, local: string)
    ensures quoted != "" ==> CurrencyOr(quoted, local) == quoted
    ensures quoted == "" && local != "" ==> CurrencyOr(quoted, local) == local
    ensures CurrencyOr("", "") == "USD"
  {
  }

  /** The body names two days by text, in order. */
  ghost predicate SaysStay(body: Body, parseDay: string -> Option<int>, checkin: int, checkout: int) {
    exists from, to ::
      && from != "" && to != "" && Field(body, "checkin") == Str(from) && Field(body, "checkout") == Str(to)
      && parseDay(from) == Some(checkin) && parseDay(to) == Some(checkout) && checkin < checkout
  }

  lemma DatesReadIff(body: Body, parseDay: string -> Option<int>, checkin: int, checkout: int)
    ensures ParseDateRange(body, parseDay) == Ok((checkin, checkout)) <==> SaysStay(body, parseDay, checkin, checkout)
  {
    var from, to := StringOr(Field(body, "checkin")), StringOr(Field(body, "checkout"));
    if ParseDateRange(body, parseDay) == Ok((checkin, checkout)) {
      assert Field(body, "checkin") == Str(from) && Field(body, "checkout") == Str(to);
    }
  }

  /** Why dates are not read: the first fault. */
  lemma DatesFailFor(body: Body, parseDay: string -> Option<int>)
    ensures var r := ParseDateRange(body, parseDay);
            var from, to := StringOr(Field(body, "checkin")), StringOr(Field(body, "checkout"));
            && (r == Err(DatesMissing) <==> from == "" || to == "")
            && (r == Err(BadCheckin) <==> from != "" && to != "" && parseDay(from).None?)
            && (r == Err(BadCheckout) <==> from != "" && to != "" && parseDay(from).Some? && parseDay(to).None?)
            && (r == Err(EmptyStay) <==>
                  from != "" && to != "" && parseDay(from).Some? && parseDay(to).Some?
                  && parseDay(to).value <= parseDay(from).value)
            && (r.Err? ==> r.error in {DatesMissing, BadCheckin, BadCheckout, EmptyStay})
  {
  }

  /** Why an offer cannot be used. */
  lemma OfferFailsFor(offers: map<string, Offer>, prop: Property, body: Body, env: Env, id: string)
    requires TrimSpace(StringOr(Field(body, "offer_id"))) == id && id != "" && env.engine == EngineOn
    ensures var r := Prepare(offers, prop, body, env);
            && (!env.offersUp ==> r == Err(OfferStoreDown))
            && (env.offersUp && (id !in offers || offers[id].expiresAt <= env.now) ==> r == Err(OfferNotFound))
            && (env.offersUp && id in offers && env.now < offers[id].expiresAt ==>
                  && (offers[id].propertyId != prop.id ==> r == Err(OfferOfAnotherProperty))
                  && (offers[id].propertyId == prop.id && ApplyOffer(body, offers[id]).Err? ==>
                        r == Err(ApplyOffer(body, offers[id]).error)))
  {
  }

  /** Which contradiction is reported: the first of dates, adults, children, rooms and room ids. */
  lemma OfferConflictsFor(body: Body, o: Offer)
    ensures var r := ApplyOffer(body, o);
            var dates := TrimSpace(StringOr(Field(body, "checkin"))) in {"", o.checkIn}
                         && TrimSpace(StringOr(Field(body, "checkout"))) in {"", o.checkOut};
            var adults := IntOr(Field(body, "adults"), 0) in {0, o.adults};
            var children := "children" in body ==> IntOr(body["children"], -1) == o.children;
            var rooms := "rooms" in body ==> IntOr(body["rooms"], 0) == o.requestedRooms;
            && (r == Err(DatesConflict) <==> !dates)
            && (r == Err(AdultsConflict) <==> dates && !adults)
            && (r == Err(ChildrenConflict) <==> dates && adults && !children)
            && (r == Err(RoomsConflict) <==> dates && adults && children && !rooms)
            && (r.Err? && r.error.BadRoomIds? <==>
                  dates && adults && children && rooms && "room_ids" in body && RoomList(body["room_ids"]).Err?)
            && (r.Err? && r.error.BadRoomIds? ==> r.error.why == RoomList(body["room_ids"]).error)
  {
  }

  /** A request without an offer: when it is accepted, and that every part of its plan is what the body says. */
  lemma BareRequestReadIff(offers: map<string, Offer>, prop: Property, body: Body, env: Env, plan: Plan)
    requires TrimSpace(StringOr(Field(body, "offer_id"))) == ""
    ensures Prepare(offers, prop, body, env) == Ok(plan) <==>
              && env.engine == EngineOn
              && RoomList(Field(body, "room_ids")) == Ok(plan.roomIds)
              && SaysStay(body, env.parseDay, plan.checkin, plan.checkout)
              && plan.adults == IntOr(Field(body, "adults"), 1) && plan.children == IntOr(Field(body, "children"), 0)
              && plan.priorToken == TrimSpace(StringOr(Field(body, "hold_token"))) && plan.offer == None
  {
    DatesReadIff(body, env.parseDay, plan.checkin, plan.checkout);
  }

  /** Nothing the caller sent along contradicts the offer. */
  ghost predicate AgreesWithOffer(body: Body, o: Offer) {
    && TrimSpace(StringOr(Field(body, "checkin"))) in {"", o.checkIn}
    && TrimSpace(StringOr(Field(body, "checkout"))) in {"", o.checkOut}
    && IntOr(Field(body, "adults"), 0) in {0, o.adults}
    && ("children" in body ==> IntOr(body["children"], -1) == o.children)
    && ("rooms" in body ==> IntOr(body["rooms"], 0) == o.requestedRooms)
    && ("room_ids" in body ==>
          RoomList(body["room_ids"]).Ok? && Join(RoomList(body["room_ids"]).value, NUL) == Join(o.roomIds, NUL))
  }

  lemma AppliedIff(body: Body, o: Offer)
    ensures ApplyOffer(body, o).Ok? <==> AgreesWithOffer(body, o)
  {
  }

  /** The offer's own days, in order. */
  ghost predicate OfferDays(o: Offer, parseDay: string -> Option<int>, checkin: int, checkout: int) {
    && o.checkIn != "" && o.checkOut != "" && checkin < checkout
    && parseDay(o.checkIn) == Some(checkin) && parseDay(o.checkOut) == Some(checkout)
  }

  /** A request by offer: when it is accepted, and that its plan is the offer's, but for children and token. */
  lemma OfferRequestReadIff(offers: map<string, Offer>, prop: Property, body: Body, env: Env, id: string, plan: Plan)
    requires TrimSpace(StringOr(Field(body, "offer_id"))) == id && id != ""
    ensures Prepare(offers, prop, body, env) == Ok(plan) <==>
              && env.engine == EngineOn && env.offersUp
              && id in offers && env.now < offers[id].expiresAt && offers[id].propertyId == prop.id
              && AgreesWithOffer(body, offers[id])
              && RoomList(AsStrings(offers[id].roomIds)) == Ok(plan.roomIds)
              && OfferDays(offers[id], env.parseDay, plan.checkin, plan.checkout)
              && plan.adults == offers[id].adults && plan.children == IntOr(Field(body, "children"), 0)
              && plan.priorToken == TrimSpace(StringOr(Field(body, "hold_token"))) && plan.offer == Some(offers[id])
  {
    if id in offers && ApplyOffer(body, offers[id]).Ok? {
      OfferPlanIff(body, offers[id], env, plan);
    }
    if id in offers {
      AppliedIff(body, offers[id]);
    }
  }

  lemma OfferPlanIff(body: Body, o: Offer, env: Env, plan: Plan)
    requires ApplyOffer(body, o).Ok?
    ensures PlanOf(ApplyOffer(body, o).value, Some(o), env) == Ok(plan) <==>
              && RoomList(AsStrings(o.roomIds)) == Ok(plan.roomIds)
              && OfferDays(o, env.parseDay, plan.checkin, plan.checkout)
              && plan.adults == o.adults && plan.children == IntOr(Field(body, "children"), 0)
              && plan.priorToken == TrimSpace(StringOr(Field(body, "hold_token"))) && plan.offer == Some(o)
  {
    AppliedFields(body, o);
    OfferKeepsToken(body, o);
    DatesReadIff(ApplyOffer(body, o).value, env.parseDay, plan.checkin, plan.checkout);
  }

  /** The fresh price and currency are the offer's. */
  predicate PriceStands(o: Offer, quote: Quote, prop: Property) {
    quote.totalPrice == o.totalAmount
    && (if quote.currency != "" then quote.currency
        else if prop.defaultCurrency != "" then prop.defaultCurrency else "USD") == o.currency
  }

  /** A hold is placed exactly when the request is accepted, no hold refuses it, the PMS quotes it available, at the
      offer's price if it names an offer, and the store takes a hold that has not expired already. */
  lemma HoldPlacedIff(st: Store, offers: map<string, Offer>, prop: Property, body: Body, env: Env)
    ensures var (after, answer) := QuoteStep(st, offers, prop, body, env);
            (answer.Quoted? && answer.hold.Some?) <==>
              exists plan, quote ::
                && Prepare(offers, prop, body, env) == Ok(plan) && env.holdsUp
                && !HoldsRefuse(st, prop.id, plan, env.now)
                && env.pms(QuoteQuery(plan.roomIds, plan.checkin, plan.checkout, plan.adults, plan.children))
                   == Some(quote)
                && quote.isAvailable && (plan.offer.Some? ==> PriceStands(plan.offer.value, quote, prop))
                && env.placeUp && 0 < env.ttl
  {
    var answer := QuoteStep(st, offers, prop, body, env).1;
    if Prepare(offers, prop, body, env).Ok? {
      var plan := Prepare(offers, prop, body, env).value;
      if env.pms(plan.Query()).Some? {
        var quote := env.pms(plan.Query()).value;
        SettlePlacesIff(Pruned(st, prop.id, env.now), prop, plan, quote, env);
        assert plan.Query() == QuoteQuery(plan.roomIds, plan.checkin, plan.checkout, plan.adults, plan.children);
        if answer.Quoted? && answer.hold.Some? {
          assert Prepare(offers, prop, body, env) == Ok(plan) && env.pms(plan.Query()) == Some(quote);
        }
      }
    }
  }

  lemma SettlePlacesIff(st: Store, prop: Property, plan: Plan, quote: Quote, env: Env)
    ensures var (after, answer) := Settle(st, prop, plan, quote, env);
            (answer.Quoted? && answer.hold.Some?) <==>
              && quote.isAvailable && (plan.offer.Some? ==> PriceStands(plan.offer.value, quote, prop))
              && env.placeUp && 0 < env.ttl
  {
    CurrencyFallsBack(quote.currency, prop.defaultCurrency);
  }

  /** What a placed hold says, and that no other hold changes; without a placed hold none changes at all. */
  lemma HoldSays(st: Store, offers: map<string, Offer>, prop: Property, body: Body, env: Env)
    ensures var (after, answer) := QuoteStep(st, offers, prop, body, env);
            if answer.Quoted? && answer.hold.Some? then
              var plan, h := Prepare(offers, prop, body, env).value, answer.hold.value;
              && Prepare(offers, prop, body, env).Ok? && env.pms(plan.Query()) == Some(answer.quote)
              && after.holds == st.holds[h.token := h] && h.property == prop.id
              && h.token == (if plan.priorToken != "" then plan.priorToken else env.freshToken)
              && h.roomId == Join(if answer.quote.roomIds != [] then answer.quote.roomIds else plan.roomIds, ',')
              && h.roomTypeId == answer.quote.roomType
              && h.checkin == plan.checkin && h.checkout == plan.checkout && h.expiresAt == env.now + env.ttl
            else after.holds == st.holds
  {
    if Prepare(offers, prop, body, env).Ok? {
      PlanStepSays(st, prop, Prepare(offers, prop, body, env).value, env);
    }
  }

  lemma PlanStepSays(st: Store, prop: Property, plan: Plan, env: Env)
    ensures var (after, answer) := PlanStep(st, prop, plan, env);
            if answer.Quoted? && answer.hold.Some? then
              var h := answer.hold.value;
              && env.pms(plan.Query()) == Some(answer.quote)
              && after.holds == st.holds[h.token := h] && h.property == prop.id
              && h.token == (if plan.priorToken != "" then plan.priorToken else env.freshToken)
              && h.roomId == Join(if answer.quote.roomIds != [] then answer.quote.roomIds else plan.roomIds, ',')
              && h.roomTypeId == answer.quote.roomType
              && h.checkin == plan.checkin && h.checkout == plan.checkout && h.expiresAt == env.now + env.ttl
            else after.holds == st.holds
  {
    if env.pms(plan.Query()).Some? {
      SettleSays(Pruned(st, prop.id, env.now), prop, plan, env.pms(plan.Query()).value, env);
    }
  }

  lemma SettleSays(st: Store, prop: Property, plan: Plan, quote: Quote, env: Env)
    ensures var (after, answer) := Settle(st, prop, plan, quote, env);
            && (answer.Quoted? ==> answer.quote == quote)
            && if answer.Quoted? && answer.hold.Some? then
                 var h := answer.hold.value;
                 && after.holds == st.holds[h.token := h] && h.property == prop.id
                 && h.token == (if plan.priorToken != "" then plan.priorToken else env.freshToken)
                 && h.roomId == Join(if quote.roomIds != [] then quote.roomIds else plan.roomIds, ',')
                 && h.roomTypeId == quote.roomType && h.checkin == plan.checkin && h.checkout == plan.checkout
                 && h.expiresAt == env.now + env.ttl
               else after.holds == st.holds
  {
  }

  /** What the guest is told: the quoted rooms, or those asked for; the currency; the offer's id. And why a request that
      the PMS priced is refused after all. */
  lemma QuoteAnswers(st: Store, offers: map<string, Offer>, prop: Property, body: Body, env: Env, plan: Plan,
                     quote: Quote)
    requires Prepare(offers, prop, body, env) == Ok(plan) && env.holdsUp && !HoldsRefuse(st, prop.id, plan, env.now)
    requires env.pms(plan.Query()) == Some(quote)
    ensures var answer := QuoteStep(st, offers, prop, body, env).1;
            && (answer == Refused(OfferPriceChanged) <==>
                  quote.isAvailable && plan.offer.Some? && !PriceStands(plan.offer.value, quote, prop))
            && (answer == Refused(HoldNotPlaced) <==>
                  && quote.isAvailable && (plan.offer.Some? ==> PriceStands(plan.offer.value, quote, prop))
                  && (!env.placeUp || env.ttl <= 0))
            && (answer.Refused? ==> answer.error in {OfferPriceChanged, HoldNotPlaced})
            && (answer.Quoted? ==>
                  && answer.roomIds == (if quote.roomIds != [] then quote.roomIds else plan.roomIds)
                  && answer.quote == quote && answer.currency == CurrencyOr(quote.currency, prop.defaultCurrency)
                  && answer.offerId == match plan.offer case Some(o) => o.id case None => "")
  {
    CurrencyFallsBack(quote.currency, prop.defaultCurrency);
  }

  /** A request is refused before the PMS is asked exactly for its own faults, a store that is down, or a hold; and the
      PMS is asked once, about the plan, exactly otherwise. */
  lemma AskedIff(st: Store, offers: map<string, Offer>, prop: Property, body: Body, env: Env)
    ensures var prepared, asked := Prepare(offers, prop, body, env), QueriesOf(st, offers, prop, body, env);
            var answer := QuoteStep(st, offers, prop, body, env).1;
            && (prepared.Err? ==> answer == Refused(prepared.error))
            && (prepared.Ok? && !env.holdsUp ==> answer == Refused(HoldsUnavailable))
            && (prepared.Ok? && env.holdsUp ==>
                  (answer == Refused(RoomHeld) <==> HoldsRefuse(st, prop.id, prepared.value, env.now)))
            && if prepared.Ok? && env.holdsUp && !HoldsRefuse(st, prop.id, prepared.value, env.now) then
                 var plan := prepared.value;
                 && asked == [QuoteQuery(plan.roomIds, plan.checkin, plan.checkout, plan.adults, plan.children)]
                 && (answer == Refused(PmsFailed) <==> env.pms(asked[0]).None?)
               else asked == []
  {
    if prepared: Plan :| Prepare(offers, prop, body, env) == Ok(prepared) && env.pms(prepared.Query()).Some? {
      if env.holdsUp && !HoldsRefuse(st, prop.id, prepared, env.now) {
        QuoteAnswers(st, offers, prop, body, env, prepared, env.pms(prepared.Query()).value);
      }
    }
  }

  /** A filed hold counts until its expiry and not a second longer; its token stays listed for an hour after that. */
  lemma HoldLifetime(st: Store, h: Hold, now: int, later: int)
    ensures var after := Placed(st, h, now);
            && (Live(after, h.token, later) <==> later < h.expiresAt)
            && (h.token in Members(after, h.property, later) <==> later < h.expiresAt + 3600)
            && (h.token in ActiveTokens(after, h.property, later) <==> later < h.expiresAt)
  {
  }
}
