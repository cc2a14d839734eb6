/** Pushing to OTAs: one job per dispatch, a fan-out over a property's active channels, and rates that are saved before
    they are sent. */
module SyncJobs {
  import opened Results
  import opened Payload
  import opened Channels

  datatype Update =
    | Availability(propertyId: string, roomTypeId: string, date: int, available: int, stopSell: bool,
                   minStay: int, maxStay: int)
    | Rate(propertyId: string, roomTypeId: string, ratePlanId: string, date: int, rate: real, currency: string)

  datatype RateDay = RateDay(propertyId: string, roomTypeId: string, date: int, rate: real, currency: string)

  /** One stored inventory day; a missing bound is no restriction. */
  datatype InventoryDay =
    InventoryDay(date: int, available: int, stopSell: bool, minStay: Option<int>, maxStay: Option<int>)

  datatype JobStatus = Running | Succeeded | JobFailed

  datatype Job = Job(connectionId: string, jobType: string, status: JobStatus)

  datatype DispatchError = NoConnection | NoAdapter | NotImplemented | BreakerOpen | JobNotCreated | SendFailed

  /** Everything a dispatch meets outside: adapters with their capabilities, the breaker, the job table, and the
      OTAs. */
  datatype Env = Env(
    adapters: map<string, set<string>>,     // provider to capabilities
    allow: string -> bool,                  // breaker, by provider
    createJob: string -> bool,              // job insert, by connection
    send: (string, seq<Update>) -> bool,    // the OTA's answer, by connection
    statusUp: bool,                         // whether job status writes succeed
    listUp: bool)                           // whether the property's channels can be listed

  /** Updates that reached an OTA adapter, when `savedThen` rate days had been saved. */
  datatype Delivery = Delivery(connection: string, updates: seq<Update>, savedThen: nat)

  /** The canonical rate store in write order, `jobs` in creation order, the breaker callbacks, and what was sent. */
  datatype Log = Log(saved: seq<RateDay>, jobs: seq<Job>, callbacks: seq<bool>, sent: seq<Delivery>)

  const NOTHING := Log([], [], [], [])

  /** Why a dispatch stops before it creates a job, if it does. */
  function Refusal(conns: seq<Connection>, connection: string, capability: string, env: Env): Option<DispatchError> {
    match FindConnection(conns, connection)
    case None => Some(NoConnection)
    case Some(conn) =>
      if conn.provider !in env.adapters then Some(NoAdapter)
      else if capability !in env.adapters[conn.provider] then Some(NotImplemented)
      else if !env.allow(conn.provider) then Some(BreakerOpen)
      else if !env.createJob(connection) then Some(JobNotCreated)
      else None
  }

  /** One dispatch. */
  function DispatchStep(log: Log, conns: seq<Connection>, connection: string, jobType: string, capability: string,
                        updates: seq<Update>, env: Env): (Log, Option<DispatchError>)
  {
    match Refusal(conns, connection, capability, env)
    case Some(e) => (log, Some(e))
    case None =>
      var success := env.send(connection, updates);
      var status := if !env.statusUp then Running else if success then Succeeded else JobFailed;
      (log.(jobs := log.jobs + [Job(connection, jobType, status)], callbacks := log.callbacks + [success],
            sent := log.sent + [Delivery(connection, updates, |log.saved|)]),
       if success then None else Some(SendFailed))
  }

  /** The log and the failures after dispatching to the active ones of the first `n` channels. */
  function FanOut(log: Log, conns: seq<Connection>, channels: seq<Channel>, n: nat, jobType: string, capability: string,
                  updates: seq<Update>, env: Env)
    : (Log, seq<(string, DispatchError)>)
    requires n <= |channels|
  {
    if n == 0 then (log, [])
    else
      var (before, errors) := FanOut(log, conns, channels, n - 1, jobType, capability, updates, env);
      var ch := channels[n - 1];
      if ch.status != "active" then (before, errors)
      else
        var (after, e) := DispatchStep(before, conns, ch.connectionId, jobType, capability, updates, env);
        (after, match e case None => errors case Some(why) => errors + [(ch.provider, why)])
  }

  function CountActive(channels: seq<Channel>): nat {
    if channels == [] then 0
       else CountActive(channels[..|channels| - 1]) + if channels[|channels| - 1].status == "active" then 1 else 0
  }

  lemma CountActiveStep(channels: seq<Channel>, i: nat)
    requires i < |channels|
    ensures CountActive(channels[..i + 1]) == CountActive(channels[..i]) + if channels[i].status == "active" then 1
            else 0
  {
    assert channels[..i + 1][..i] == channels[..i];
  }

  function CountStatus(jobs: seq<Job>, status: JobStatus): nat {
    if jobs == [] then 0
       else CountStatus(jobs[..|jobs| - 1], status) + if jobs[|jobs| - 1].status == status then 1 else 0
  }

  function CountTrue(bits: seq<bool>): nat {
    if bits == [] then 0 else CountTrue(bits[..|bits| - 1]) + if bits[|bits| - 1] then 1 else 0
  }

  datatype PushReply = PushReply(pushed: int, failed: nat, errors: seq<(string, DispatchError)>, ratesSaved: nat)

  /** The rate days of one room type's entry; malformed days are skipped. */
  function DaysIn(property: string, roomTypeId: string, days: seq<Json>, parseDay: string -> Option<int>): seq<RateDay>
  {
    if days == [] then []
    else
      var d := days[|days| - 1];
      var rest := DaysIn(property, roomTypeId, days[..|days| - 1], parseDay);
      if !d.Obj? || parseDay(StringOr(Field(d.fields, "date"))).None? then rest
      else
        rest + [RateDay(property, roomTypeId, parseDay(StringOr(Field(d.fields, "date"))).value,
                        FloatOr(Field(d.fields, "price"), 0.0), "USD")]
  }

  function RateDaysIn(property: string, rates: seq<Json>, parseDay: string -> Option<int>): seq<RateDay> {
    if rates == [] then []
    else
      var r := rates[|rates| - 1];
      var rest := RateDaysIn(property, rates[..|rates| - 1], parseDay);
      if !r.Obj? || !Field(r.fields, "days").Arr? then rest
      else rest + DaysIn(property, StringOr(Field(r.fields, "room_type_id")), Field(r.fields, "days").items, parseDay)
  }

  function RateUpdate(day: RateDay): Update {
    Rate(day.propertyId, day.roomTypeId, "default", day.date, day.rate, day.currency)
  }

  function RateUpdates(days: seq<RateDay>): seq<Update> {
    seq(|days|, i requires 0 <= i < |days| => RateUpdate(days[i]))
  }

  lemma RateDaysStep(property: string, rates: seq<Json>, i: nat, parseDay: string -> Option<int>)
    requires i < |rates|
    ensures RateDaysIn(property, rates[..i + 1], parseDay) ==
              RateDaysIn(property, rates[..i], parseDay)
              + if !rates[i].Obj? || !Field(rates[i].fields, "days").Arr? then []
                else DaysIn(property, StringOr(Field(rates[i].fields, "room_type_id")),
                            Field(rates[i].fields, "days").items, parseDay)
  {
    assert rates[..i + 1][..i] == rates[..i] && rates[..i + 1][i] == rates[i];
  }

  lemma RateUpdatesConcat(a: seq<RateDay>, b: seq<RateDay>)
    ensures RateUpdates(a + b) == RateUpdates(a) + RateUpdates(b)
  {
  }

  /** The update an inventory day becomes. */
  function AvailabilityUpdate(property: string, roomTypeId: string, day: InventoryDay): Update {
    Availability(property, roomTypeId, day.date, day.available, day.stopSell,
                 if day.minStay.Some? then day.minStay.value else 0, if day.maxStay.Some? then day.maxStay.value else 0)
  }

  function AvailabilityUpdates(property: string, roomTypeId: string, days: seq<InventoryDay>): seq<Update> {
    seq(|days|, i requires 0 <= i < |days| => AvailabilityUpdate(property, roomTypeId, days[i]))
  }

  datatype PushError =
    | NoRates | SaveFailed | DatesMissing | BadCheckin | BadCheckout | NoRoomType | NoInventory | ChannelsUnavailable

  /** Two given days; their order is not checked here. */
  function DateRange(body: Body, parseDay: string -> Option<int>): Result<(int, int), PushError> {
    var checkin, checkout := StringOr(Field(body, "checkin")), StringOr(Field(body, "checkout"));
    if checkin == "" || checkout == "" then Err(DatesMissing)
    else if parseDay(checkin).None? then Err(BadCheckin)
    else if parseDay(checkout).None? then Err(BadCheckout)
    else Ok((parseDay(checkin).value, parseDay(checkout).value))
  }

  /** The fan-out of a push, once its updates are known. */
  function PushStep(log: Log, conns: seq<Connection>, channels: seq<Channel>, property: string, jobType: string,
                    capability: string, updates: seq<Update>, ratesSaved: nat, env: Env)
    : (Log, Result<PushReply, PushError>)
  {
    if !env.listUp then (log, Err(ChannelsUnavailable))
    else
      var mine := OfProperty(channels, property);
      var (after, errors) := FanOut(log, conns, mine, |mine|, jobType, capability, updates, env);
      (after, Ok(PushReply(CountActive(mine) - |errors|, |errors|, errors, ratesSaved)))
  }

  /** `push_rates`: the valid days are saved, and only then sent; a failed save sends nothing. */
  function PushRatesStep(log: Log, conns: seq<Connection>, channels: seq<Channel>, property: string, body: Body,
                         parseDay: string -> Option<int>, saveUp: bool, env: Env): (Log, Result<PushReply, PushError>)
  {
    var rates := Field(body, "rates");
    if !rates.Arr? || rates.items == [] then (log, Err(NoRates))
    else
      var days := RateDaysIn(property, rates.items, parseDay);
      if days != [] && !saveUp then (log, Err(SaveFailed))
      else
        PushStep(log.(saved := log.saved + days), conns, channels, property, "pricing_push", "push_rates",
                 RateUpdates(days), |days|, env)
  }

  /** `push_availability`: the stored inventory of the asked nights is sent. `inventory` is that store. */
  function PushAvailabilityStep(log: Log, conns: seq<Connection>, channels: seq<Channel>, property: string, body: Body,
                                parseDay: string -> Option<int>,
                                inventory: (string, int, int) -> Option<seq<InventoryDay>>, env: Env)
    : (Log, Result<PushReply, PushError>)
  {
    match DateRange(body, parseDay)
    case Err(e) => (log, Err(e))
    case Ok(dates) =>
      var roomTypeId := StringOr(Field(body, "room_type_id"));
      if roomTypeId == "" then (log, Err(NoRoomType))
      else
        match inventory(roomTypeId, dates.0, dates.1 - 1)
        case None => (log, Err(NoInventory))
        case Some(days) =>
          PushStep(log, conns, channels, property, "inventory_push", "push_availability",
                   AvailabilityUpdates(property, roomTypeId, days), 0, env)
  }

  class Service {
    var conns: seq<Connection>
    var channels: seq<Channel>
    var jobs: seq<Job>
    var saved: seq<RateDay>                       // the canonical rate store, in write order
    ghost var callbacks: seq<bool>                // breaker callbacks
    ghost var sent: seq<Delivery>                 // what reached an OTA adapter

    ghost function View(): Log
      reads this
    {
      Log(saved, jobs, callbacks, sent)
    }

    /** `dispatch`: creates a running job, calls the adapter, and closes the job with the outcome. */
    method Dispatch(connection: string, jobType: string, capability: string, updates: seq<Update>, env: Env)
      returns (r: Option<DispatchError>)
      modifies this`jobs, this`callbacks, this`sent
      ensures (View(), r) == DispatchStep(old(View()), conns, connection, jobType, capability, updates, env)
    {
      var conn := FindConnection(conns, connection);
      if conn.None? {
        return Some(NoConnection);
      }
      if conn.value.provider !in env.adapters {
        return Some(NoAdapter);
      }
      if capability !in env.adapters[conn.value.provider] {
        return Some(NotImplemented);
      }
      if !env.allow(conn.value.provider) {
        return Some(BreakerOpen);
      }
      if !env.createJob(connection) {
        return Some(JobNotCreated);
      }
      var id := |jobs|;
      jobs := jobs + [Job(connection, jobType, Running)];
      var success := env.send(connection, updates);
      sent := sent + [Delivery(connection, updates, |saved|)];
      callbacks := callbacks + [success];
      if !success {
        if env.statusUp {
          jobs := jobs[id := jobs[id].(status := JobFailed)];
        }
        assert jobs == old(jobs) + [Job(connection, jobType, if env.statusUp then JobFailed else Running)];
        return Some(SendFailed);
      }
      if env.statusUp {
        jobs := jobs[id := jobs[id].(status := Succeeded)];
      }
      assert jobs == old(jobs) + [Job(connection, jobType, if env.statusUp then Succeeded else Running)];
      return None;
    }

    /** The loop over a property's channels. */
    method DispatchAll(mine: seq<Channel>, jobType: string, capability: string, updates: seq<Update>, env: Env)
      returns (pushed: nat, failed: nat, errors: seq<(string, DispatchError)>)
      modifies this`jobs, this`callbacks, this`sent
      ensures (View(), errors) == FanOut(old(View()), conns, mine, |mine|, jobType, capability, updates, env)
      ensures failed == |errors| && pushed + failed == CountActive(mine)
    {
      pushed, failed, errors := 0, 0, [];
      for i := 0 to |mine|
        invariant (View(), errors) == FanOut(old(View()), conns, mine, i, jobType, capability, updates, env)
        invariant failed == |errors| && pushed + failed == CountActive(mine[..i])
      {
        CountActiveStep(mine, i);
        if mine[i].status != "active" {
          continue;
        }
        var e := Dispatch(mine[i].connectionId, jobType, capability, updates, env);
        if e.Some? {
          errors := errors + [(mine[i].provider, e.value)];
          failed := failed + 1;
          continue;
        }
        pushed := pushed + 1;
      }
      assert mine[..|mine|] == mine;
    }

    /** The end of both pushes: list the property's channels and dispatch to the active ones. */
    method Push(property: string, jobType: string, capability: string, updates: seq<Update>, ratesSaved: nat, env: Env)
      returns (r: Result<PushReply, PushError>)
      modifies this`jobs, this`callbacks, this`sent
      ensures (View(), r) ==
              PushStep(old(View()), conns, channels, property, jobType, capability, updates, ratesSaved, env)
      ensures r.Err? <==> !env.listUp
      ensures r.Ok? ==>
                && r.value.failed == |r.value.errors| && r.value.pushed >= 0
                && r.value.pushed + r.value.failed == CountActive(OfProperty(channels, property))
    {
      if !env.listUp {
        return Err(ChannelsUnavailable);
      }
      var pushed, failed, errors := DispatchAll(OfProperty(channels, property), jobType, capability, updates, env);
      return Ok(PushReply(pushed, failed, errors, ratesSaved));
    }

    method CollectDays(property: string, roomTypeId: string, items: seq<Json>, parseDay: string -> Option<int>)
      returns (days: seq<RateDay>, updates: seq<Update>)
      ensures days == DaysIn(property, roomTypeId, items, parseDay) && updates == RateUpdates(days)
    {
      days, updates := [], [];
      for j := 0 to |items|
        invariant days == DaysIn(property, roomTypeId, items[..j], parseDay) && updates == RateUpdates(days)
      {
        var d := items[j];
        assert items[..j + 1][..j] == items[..j] && items[..j + 1][j] == d;
        if !d.Obj? {
          continue;
        }
        var date := parseDay(StringOr(Field(d.fields, "date")));
        if date.None? {
          continue;
        }
        var price := FloatOr(Field(d.fields, "price"), 0.0);
        days := days + [RateDay(property, roomTypeId, date.value, price, "USD")];
        updates := updates + [Rate(property, roomTypeId, "default", date.value, price, "USD")];
      }
      assert items[..|items|] == items;
    }

    /** The valid days of the payload, each with the update that is prepared alongside. */
    method CollectRates(property: string, rates: seq<Json>, parseDay: string -> Option<int>)
      returns (days: seq<RateDay>, updates: seq<Update>)
      ensures days == RateDaysIn(property, rates, parseDay) && updates == RateUpdates(days)
    {
      days, updates := [], [];
      for i := 0 to |rates|
        invariant days == RateDaysIn(property, rates[..i], parseDay) && updates == RateUpdates(days)
      {
        RateDaysStep(property, rates, i, parseDay);
        if !rates[i].Obj? {
          continue;
        }
        var roomTypeId := StringOr(Field(rates[i].fields, "room_type_id"));
        var entry := Field(rates[i].fields, "days");
        if !entry.Arr? {
          continue;
        }
        var moreDays, moreUpdates := CollectDays(property, roomTypeId, entry.items, parseDay);
        RateUpdatesConcat(days, moreDays);
        days, updates := days + moreDays, updates + moreUpdates;
      }
      assert rates[..|rates|] == rates;
    }

    /** `push_rates`: canonical first; a failed save sends nothing. */
    method PushRates(property: string, body: Body, parseDay: string -> Option<int>, saveUp: bool, env: Env)
      returns (r: Result<PushReply, PushError>)
      modifies this`jobs, this`callbacks, this`sent, this`saved
      ensures (View(), r) == PushRatesStep(old(View()), conns, channels, property, body, parseDay, saveUp, env)
    {
      var rates := Field(body, "rates");
      if !rates.Arr? || |rates.items| == 0 {
        return Err(NoRates);
      }
      var days, updates := CollectRates(property, rates.items, parseDay);
      var ratesSaved := 0;
      if |days| > 0 {
        if !saveUp {
          return Err(SaveFailed);
        }
        saved := saved + days;
        ratesSaved := |days|;
      }
      assert saved == old(saved) + days;
      r := Push(property, "pricing_push", "push_rates", updates, ratesSaved, env);
    }

    /** `push_availability`: stored inventory to every active channel. */
    method PushAvailability(property: string, body: Body, parseDay: string -> Option<int>,
                            inventory: (string, int, int) -> Option<seq<InventoryDay>>, env: Env)
      returns (r: Result<PushReply, PushError>)
      modifies this`jobs, this`callbacks, this`sent
      ensures (View(), r) ==
              PushAvailabilityStep(old(View()), conns, channels, property, body, parseDay, inventory, env)
    {
      var dates := DateRange(body, parseDay);
      if dates.Err? {
        return Err(dates.error);
      }
      var roomTypeId := StringOr(Field(body, "room_type_id"));
      if roomTypeId == "" {
        return Err(NoRoomType);
      }
      var days := inventory(roomTypeId, dates.value.0, dates.value.1 - 1);
      if days.None? {
        return Err(NoInventory);
      }
      var updates := [];
      for i := 0 to |days.value|
        invariant updates == AvailabilityUpdates(property, roomTypeId, days.value[..i])
      {
        updates := updates + [AvailabilityUpdate(property, roomTypeId, days.value[i])];
      }
      assert days.value[..|days.value|] == days.value;
      r := Push(property, "inventory_push", "push_availability", updates, 0, env);
    }
  }

  // ---------------------------------------------------------------- job lifecycle

  /** Every job is closed, and jobs and breaker callbacks agree one for one. */
  ghost predicate Settled(log: Log) {
    && |log.jobs| == |log.callbacks| == |log.sent|
    && forall i :: 0 <= i < |log.jobs| ==>
         && log.jobs[i].status == (if log.callbacks[i] then Succeeded else JobFailed)
         && log.jobs[i].connectionId == log.sent[i].connection
  }

  /** Closing is exactly the status write: after a dispatch from a settled log, every job is closed with the outcome its
      breaker callback reported if and only if no job was created or the status write went through. */
  lemma DispatchSettledIff(log: Log, conns: seq<Connection>, connection: string, jobType: string, capability: string,
                           updates: seq<Update>, env: Env)
    requires Settled(log)
    ensures Settled(DispatchStep(log, conns, connection, jobType, capability, updates, env).0) <==>
              Refusal(conns, connection, capability, env).Some? || env.statusUp
  {
    var after := DispatchStep(log, conns, connection, jobType, capability, updates, env).0;
    if Refusal(conns, connection, capability, env).None? {
      assert after.jobs[|log.jobs|].connectionId == after.sent[|log.jobs|].connection;
    }
  }

  lemma {:induction false} FanOutSettled(log: Log, conns: seq<Connection>, channels: seq<Channel>, n: nat,
                                         jobType: string, capability: string, updates: seq<Update>, env: Env)
    requires Settled(log) && env.statusUp && n <= |channels|
    ensures Settled(FanOut(log, conns, channels, n, jobType, capability, updates, env).0)
  {
    if n > 0 {
      FanOutSettled(log, conns, channels, n - 1, jobType, capability, updates, env);
      DispatchSettledIff(FanOut(log, conns, channels, n - 1, jobType, capability, updates, env).0, conns,
                         channels[n - 1].connectionId, jobType, capability, updates, env);
    }
  }

  /** A push leaves what was there and sends nothing but its updates, one delivery per new job and callback. */
  lemma {:induction false} FanOutSendsUpdates(log: Log, conns: seq<Connection>, channels: seq<Channel>, n: nat,
                                              jobType: string, capability: string, updates: seq<Update>, env: Env)
    requires n <= |channels| && |log.jobs| == |log.callbacks| == |log.sent|
    ensures var after := FanOut(log, conns, channels, n, jobType, capability, updates, env).0;
            && log.jobs <= after.jobs && log.callbacks <= after.callbacks && log.sent <= after.sent
            && |after.jobs| == |after.callbacks| == |after.sent| && after.saved == log.saved
            && (forall i :: |log.sent| <= i < |after.sent| ==>
                  after.sent[i].updates == updates && after.sent[i].savedThen == |log.saved|)
  {
    if n > 0 {
      FanOutSendsUpdates(log, conns, channels, n - 1, jobType, capability, updates, env);
    }
  }

  /** A push pushes exactly the channels whose jobs succeeded, and creates no other jobs. */
  lemma {:induction false} FanOutConserves(log: Log, conns: seq<Connection>, channels: seq<Channel>, n: nat,
                                           jobType: string, capability: string, updates: seq<Update>, env: Env)
    requires n <= |channels|
    ensures var (after, errors) := FanOut(log, conns, channels, n, jobType, capability, updates, env);
            && CountActive(channels[..n]) - |errors| == CountTrue(after.callbacks) - CountTrue(log.callbacks)
            && (env.statusUp ==>
                  CountActive(channels[..n]) - |errors| ==
                    CountStatus(after.jobs, Succeeded) - CountStatus(log.jobs, Succeeded))
  {
    if n == 0 {
      assert channels[..0] == [];
    } else {
      FanOutConserves(log, conns, channels, n - 1, jobType, capability, updates, env);
      CountActiveStep(channels, n - 1);
      var before := FanOut(log, conns, channels, n - 1, jobType, capability, updates, env).0;
      DispatchCounts(before, conns, channels[n - 1].connectionId, jobType, capability, updates, env);
    }
  }

  /** A dispatch adds one success to the callbacks, and to the jobs while status writes work, exactly if it succeeds. */
  lemma DispatchCounts(log: Log, conns: seq<Connection>, connection: string, jobType: string, capability: string,
                       updates: seq<Update>, env: Env)
    ensures var (after, e) := DispatchStep(log, conns, connection, jobType, capability, updates, env);
            var won := if e.None? then 1 else 0;
            && CountTrue(after.callbacks) == CountTrue(log.callbacks) + won
            && (env.statusUp ==> CountStatus(after.jobs, Succeeded) == CountStatus(log.jobs, Succeeded) + won)
  {
    var after := DispatchStep(log, conns, connection, jobType, capability, updates, env).0;
    if Refusal(conns, connection, capability, env).None? {
      assert after.jobs[..|after.jobs| - 1] == log.jobs;
      assert after.callbacks[..|after.callbacks| - 1] == log.callbacks;
    }
  }

  // ---------------------------------------------------------------- who is reached, and with what

  /** A connection can be reached: it exists, its provider's adapter has the capability, the breaker lets calls pass,
      and a job can be created. */
  ghost predicate Reachable(conns: seq<Connection>, connection: string, capability: string, env: Env) {
    exists c ::
      && c in conns && c.id == connection && c.provider in env.adapters && capability in env.adapters[c.provider]
      && env.allow(c.provider) && env.createJob(connection)
  }

  /** A dispatch is refused exactly when its connection cannot be reached, for the first reason in this order. */
  lemma RefusalIff(conns: seq<Connection>, connection: string, capability: string, env: Env)
    requires DistinctConns(conns)
    ensures Refusal(conns, connection, capability, env).None? <==> Reachable(conns, connection, capability, env)
    ensures Refusal(conns, connection, capability, env) == Some(NoConnection) <==>
              forall c :: c in conns ==> c.id != connection
    ensures forall c :: c in conns && c.id == connection ==>
              var r := Refusal(conns, connection, capability, env);
              var able := c.provider in env.adapters && capability in env.adapters[c.provider];
              && (r == Some(NoAdapter) <==> c.provider !in env.adapters)
              && (r == Some(NotImplemented) <==> c.provider in env.adapters && !able)
              && (r == Some(BreakerOpen) <==> able && !env.allow(c.provider))
              && (r == Some(JobNotCreated) <==> able && env.allow(c.provider) && !env.createJob(connection))
  {
    FindConnectionIs(conns, connection);
    if FindConnection(conns, connection).Some? {
      var found := FindConnection(conns, connection).value;
      forall c | c in conns && c.id == connection ensures c == found {
        OneConnectionPerId(conns, c, found);
      }
    }
  }

  lemma OneConnectionPerId(conns: seq<Connection>, a: Connection, b: Connection)
    requires DistinctConns(conns) && a in conns && b in conns && a.id == b.id
    ensures a == b
  {
    var i :| 0 <= i < |conns| && conns[i] == a;
    var j :| 0 <= j < |conns| && conns[j] == b;
    assert i == j;
  }

  /** The active channels whose connections can be reached, in order. */
  function Reached(conns: seq<Connection>, channels: seq<Channel>, capability: string, env: Env): seq<Channel> {
    if channels == [] then []
    else
      var rest, ch := Reached(conns, channels[..|channels| - 1], capability, env), channels[|channels| - 1];
      if ch.status == "active" && Refusal(conns, ch.connectionId, capability, env).None? then rest + [ch] else rest
  }

  /** Why a channel was not pushed, if it was not: refused, or turned away by its OTA. */
  function Failure(conns: seq<Connection>, ch: Channel, capability: string, updates: seq<Update>, env: Env)
    : Option<DispatchError>
  {
    match Refusal(conns, ch.connectionId, capability, env)
    case Some(e) => Some(e)
    case None => if env.send(ch.connectionId, updates) then None else Some(SendFailed)
  }

  /** The active channels that failed, in order, each with its provider and reason. */
  function Failures(conns: seq<Connection>, channels: seq<Channel>, capability: string, updates: seq<Update>, env: Env)
    : seq<(string, DispatchError)>
  {
    if channels == [] then []
    else
      var rest := Failures(conns, channels[..|channels| - 1], capability, updates, env);
      var ch := channels[|channels| - 1];
      var failure := Failure(conns, ch, capability, updates, env);
      if ch.status == "active" && failure.Some? then rest + [(ch.provider, failure.value)] else rest
  }

  lemma {:induction false} ReachedMembers(conns: seq<Connection>, channels: seq<Channel>, capability: string, env: Env,
                                          ch: Channel)
    ensures ch in Reached(conns, channels, capability, env) <==>
              ch in channels && ch.status == "active" && Refusal(conns, ch.connectionId, capability, env).None?
    ensures ch in Reached(conns, channels, capability, env) ==>
              multiset(Reached(conns, channels, capability, env))[ch] == multiset(channels)[ch]
  {
    if channels != [] {
      var init := channels[..|channels| - 1];
      ReachedMembers(conns, init, capability, env, ch);
      assert channels == init + [channels[|channels| - 1]];
      if ch !in init {
        assert multiset(init)[ch] == 0;
      }
    }
  }

  function JobsFor(channels: seq<Channel>, jobType: string, updates: seq<Update>, env: Env): seq<Job> {
    seq(|channels|, i requires 0 <= i < |channels| =>
      Job(channels[i].connectionId, jobType,
          if !env.statusUp then Running
             else if env.send(channels[i].connectionId, updates) then Succeeded else JobFailed))
  }

  function DeliveriesTo(channels: seq<Channel>, updates: seq<Update>, saved: nat): seq<Delivery> {
    seq(|channels|, i requires 0 <= i < |channels| => Delivery(channels[i].connectionId, updates, saved))
  }

  /** Whom a fan-out reaches: one delivery and one job for each reachable active channel, on its own connection and in
      order, and nobody else; the errors are exactly the active channels that were refused or turned away. */
  lemma {:induction false} FanOutReaches(log: Log, conns: seq<Connection>, channels: seq<Channel>, n: nat,
                                         jobType: string, capability: string, updates: seq<Update>, env: Env)
    requires n <= |channels|
    ensures var (after, errors) := FanOut(log, conns, channels, n, jobType, capability, updates, env);
            var reached := Reached(conns, channels[..n], capability, env);
            && after.sent == log.sent + DeliveriesTo(reached, updates, |log.saved|)
            && after.jobs == log.jobs + JobsFor(reached, jobType, updates, env)
            && errors == Failures(conns, channels[..n], capability, updates, env)
  {
    if n == 0 {
      assert channels[..0] == [];
    } else {
      FanOutReaches(log, conns, channels, n - 1, jobType, capability, updates, env);
      assert channels[..n][..n - 1] == channels[..n - 1] && channels[..n][n - 1] == channels[n - 1];
      FanOutSavesNothing(log, conns, channels, n - 1, jobType, capability, updates, env);
    }
  }

  lemma RefusedPushSendsNothing(log: Log, conns: seq<Connection>, channels: seq<Channel>, property: string, body: Body,
                                parseDay: string -> Option<int>, saveUp: bool, env: Env)
    requires PushRatesStep(log, conns, channels, property, body, parseDay, saveUp, env).1.Err?
    ensures PushRatesStep(log, conns, channels, property, body, parseDay, saveUp, env).0.sent == log.sent
  {
    RatePushRefusedIff(log, conns, channels, property, body, parseDay, saveUp, env);
  }

  /** A rate push reaches exactly the property's active channels whose adapters can take rates, under pricing jobs. */
  lemma RatePushReaches(log: Log, conns: seq<Connection>, channels: seq<Channel>, property: string, body: Body,
                        parseDay: string -> Option<int>, saveUp: bool, env: Env)
    requires PushRatesStep(log, conns, channels, property, body, parseDay, saveUp, env).1.Ok?
    ensures var (after, r) := PushRatesStep(log, conns, channels, property, body, parseDay, saveUp, env);
            var mine := OfProperty(channels, property);
            var reached := Reached(conns, mine, "push_rates", env);
            var updates := RateUpdates(RateDaysIn(property, Field(body, "rates").items, parseDay));
            && after.sent == log.sent + DeliveriesTo(reached, updates, |after.saved|)
            && after.jobs == log.jobs + JobsFor(reached, "pricing_push", updates, env)
            && r.value.errors == Failures(conns, mine, "push_rates", updates, env)
            && r.value.failed == |r.value.errors| && r.value.pushed == CountActive(mine) - r.value.failed
  {
    RatePushRefusedIff(log, conns, channels, property, body, parseDay, saveUp, env);
    var days, mine := RateDaysIn(property, Field(body, "rates").items, parseDay), OfProperty(channels, property);
    FanOutReaches(log.(saved := log.saved + days), conns, mine, |mine|, "pricing_push", "push_rates", RateUpdates(days),
                  env);
    assert mine[..|mine|] == mine;
  }

  /** An availability push reaches exactly those whose adapters can take availability, with the inventory stored for the
      nights from check-in to the one before check-out. */
  lemma AvailabilityPushReaches(log: Log, conns: seq<Connection>, channels: seq<Channel>, property: string, body: Body,
                                parseDay: string -> Option<int>,
                                inventory: (string, int, int) -> Option<seq<InventoryDay>>, env: Env,
                                checkin: int, checkout: int)
    requires DateRange(body, parseDay) == Ok((checkin, checkout))
    ensures var (after, r) := PushAvailabilityStep(log, conns, channels, property, body, parseDay, inventory, env);
            var roomType, mine := StringOr(Field(body, "room_type_id")), OfProperty(channels, property);
            var stored := inventory(roomType, checkin, checkout - 1);
            && (r.Ok? <==> roomType != "" && stored.Some? && env.listUp)
            && (r.Err? ==> after == log)
            && (r.Ok? ==>
                  var updates := AvailabilityUpdates(property, roomType, stored.value);
                  var reached := Reached(conns, mine, "push_availability", env);
                  && after.sent == log.sent + DeliveriesTo(reached, updates, |log.saved|)
                  && after.jobs == log.jobs + JobsFor(reached, "inventory_push", updates, env)
                  && r.value.errors == Failures(conns, mine, "push_availability", updates, env)
                  && after.saved == log.saved && r.value.ratesSaved == 0)
  {
    var roomType, mine := StringOr(Field(body, "room_type_id")), OfProperty(channels, property);
    var stored := inventory(roomType, checkin, checkout - 1);
    if roomType != "" && stored.Some? && env.listUp {
      var updates := AvailabilityUpdates(property, roomType, stored.value);
      FanOutReaches(log, conns, mine, |mine|, "inventory_push", "push_availability", updates, env);
      FanOutSavesNothing(log, conns, mine, |mine|, "inventory_push", "push_availability", updates, env);
      assert mine[..|mine|] == mine;
    }
  }

  /** The dates of a push are two days given as text, in any order. */
  lemma PushDatesIff(body: Body, parseDay: string -> Option<int>, checkin: int, checkout: int)
    ensures DateRange(body, parseDay) == Ok((checkin, checkout)) <==>
              exists from, to ::
                && from != "" && to != "" && Field(body, "checkin") == Str(from) && Field(body, "checkout") == Str(to)
                && parseDay(from) == Some(checkin) && parseDay(to) == Some(checkout)
  {
    var from, to := StringOr(Field(body, "checkin")), StringOr(Field(body, "checkout"));
    if DateRange(body, parseDay) == Ok((checkin, checkout)) {
      assert Field(body, "checkin") == Str(from) && Field(body, "checkout") == Str(to);
    }
  }

  /** What a rate day and an inventory day become on the way to an OTA. */
  lemma UpdatesSay(day: RateDay, property: string, roomTypeId: string, stored: InventoryDay)
    ensures var u := RateUpdate(day);
            && u.Rate? && DayOf(u) == day && u.ratePlanId == "default"
    ensures var u := AvailabilityUpdate(property, roomTypeId, stored);
            && u.Availability? && u.propertyId == property && u.roomTypeId == roomTypeId && u.date == stored.date
            && u.available == stored.available && u.stopSell == stored.stopSell
            && (stored.minStay.Some? ==> u.minStay == stored.minStay.value) && (stored.minStay.None? ==> u.minStay == 0)
            && (stored.maxStay.Some? ==> u.maxStay == stored.maxStay.value) && (stored.maxStay.None? ==> u.maxStay == 0)
  {
  }

  /** A day of the payload is well formed: an object with a date that can be read. */
  predicate GoodDay(d: Json, parseDay: string -> Option<int>) {
    d.Obj? && parseDay(StringOr(Field(d.fields, "date"))).Some?
  }

  /** Days accumulate entry by entry, in order: a well-formed entry adds its day at its price, in dollars; any other
      adds nothing. */
  lemma DaysAppend(property: string, roomTypeId: string, days: seq<Json>, d: Json, parseDay: string -> Option<int>)
    ensures DaysIn(property, roomTypeId, [], parseDay) == []
    ensures GoodDay(d, parseDay) ==>
              DaysIn(property, roomTypeId, days + [d], parseDay) ==
                DaysIn(property, roomTypeId, days, parseDay)
                + [RateDay(property, roomTypeId, parseDay(StringOr(Field(d.fields, "date"))).value,
                           FloatOr(Field(d.fields, "price"), 0.0), "USD")]
    ensures !GoodDay(d, parseDay) ==>
              DaysIn(property, roomTypeId, days + [d], parseDay) == DaysIn(property, roomTypeId, days, parseDay)
  {
    assert (days + [d])[..|days|] == days;
  }

  // ---------------------------------------------------------------- pushes

  /** When a rate push is refused, and what it has changed by then: nothing is ever sent, and days are only saved when
      it is the channel listing that fails. */
  lemma RatePushRefusedIff(log: Log, conns: seq<Connection>, channels: seq<Channel>, property: string, body: Body,
                           parseDay: string -> Option<int>, saveUp: bool, env: Env)
    ensures var (after, r) := PushRatesStep(log, conns, channels, property, body, parseDay, saveUp, env);
            var rates := Field(body, "rates");
            var days := if rates.Arr? then RateDaysIn(property, rates.items, parseDay) else [];
            && (r.Err? <==> !rates.Arr? || rates.items == [] || (days != [] && !saveUp) || !env.listUp)
            && (r.Err? ==> after == log.(saved := after.saved))
            && (r.Err? && after.saved != log.saved ==> r == Err(ChannelsUnavailable))
            && (r.Ok? ==> after.saved == log.saved + days && r.value.ratesSaved == |days|)
  {
    var rates := Field(body, "rates");
    if rates.Arr? {
      var days, mine := RateDaysIn(property, rates.items, parseDay), OfProperty(channels, property);
      FanOutSavesNothing(log.(saved := log.saved + days), conns, mine, |mine|, "pricing_push", "push_rates",
                         RateUpdates(days), env);
    }
  }

  lemma {:induction false} FanOutSavesNothing(log: Log, conns: seq<Connection>, channels: seq<Channel>, n: nat,
                                              jobType: string, capability: string, updates: seq<Update>, env: Env)
    requires n <= |channels|
    ensures FanOut(log, conns, channels, n, jobType, capability, updates, env).0.saved == log.saved
  {
    if n > 0 {
      FanOutSavesNothing(log, conns, channels, n - 1, jobType, capability, updates, env);
    }
  }

  /** One push with the tables and the outside world as they are then. */
  datatype Event =
    | RatePush(conns: seq<Connection>, channels: seq<Channel>, property: string, body: Body,
               parseDay: string -> Option<int>, saveUp: bool, env: Env)
    | AvailabilityPush(conns: seq<Connection>, channels: seq<Channel>, property: string, body: Body,
                       parseDay: string -> Option<int>, inventory: (string, int, int) -> Option<seq<InventoryDay>>,
                       env: Env)

  function Step(log: Log, e: Event): Log {
    match e
    case RatePush(conns, channels, property, body, parseDay, saveUp, env) =>
      PushRatesStep(log, conns, channels, property, body, parseDay, saveUp, env).0
    case AvailabilityPush(conns, channels, property, body, parseDay, inventory, env) =>
      PushAvailabilityStep(log, conns, channels, property, body, parseDay, inventory, env).0
  }

  function Run(log: Log, events: seq<Event>): Log
    decreases events
  {
    if events == [] then log else Run(Step(log, events[0]), events[1..])
  }

  /** The saved day a rate update stands for. */
  function DayOf(u: Update): RateDay
    requires u.Rate?
  {
    RateDay(u.propertyId, u.roomTypeId, u.date, u.rate, u.currency)
  }

  /** When the delivery went out, every rate in it had been saved. */
  ghost predicate SavedFirst(saved: seq<RateDay>, d: Delivery) {
    d.savedThen <= |saved| && forall u :: u in d.updates && u.Rate? ==> DayOf(u) in saved[..d.savedThen]
  }

  ghost predicate Canonical(log: Log) {
    && |log.jobs| == |log.callbacks| == |log.sent|
    && forall i :: 0 <= i < |log.sent| ==> SavedFirst(log.saved, log.sent[i])
  }

  lemma SavedFirstStays(saved: seq<RateDay>, more: seq<RateDay>, d: Delivery)
    requires SavedFirst(saved, d)
    ensures SavedFirst(saved + more, d)
  {
    assert (saved + more)[..d.savedThen] == saved[..d.savedThen];
  }

  lemma SavingKeepsCanonical(log: Log, days: seq<RateDay>)
    requires Canonical(log)
    ensures Canonical(log.(saved := log.saved + days))
  {
    forall i | 0 <= i < |log.sent| ensures SavedFirst(log.saved + days, log.sent[i]) {
      SavedFirstStays(log.saved, days, log.sent[i]);
    }
  }

  /** A push whose rates are all saved keeps the log canonical, whatever the OTAs and the breaker answer. */
  lemma PushKeepsCanonical(log: Log, conns: seq<Connection>, channels: seq<Channel>, property: string, jobType: string,
                           capability: string, updates: seq<Update>, ratesSaved: nat, env: Env)
    requires Canonical(log) && forall u :: u in updates && u.Rate? ==> DayOf(u) in log.saved
    ensures Canonical(PushStep(log, conns, channels, property, jobType, capability, updates, ratesSaved, env).0)
  {
    if env.listUp {
      var mine := OfProperty(channels, property);
      FanOutSendsUpdates(log, conns, mine, |mine|, jobType, capability, updates, env);
      var after := FanOut(log, conns, mine, |mine|, jobType, capability, updates, env).0;
      assert after.saved[..|log.saved|] == log.saved;
      forall i | 0 <= i < |after.sent| ensures SavedFirst(after.saved, after.sent[i]) {
        if i < |log.sent| {
          assert after.sent[i] == log.sent[i];
        }
      }
    }
  }

  lemma RatesAreOfDays(days: seq<RateDay>, u: Update)
    requires u in RateUpdates(days)
    ensures u.Rate? && DayOf(u) in days
  {
    var k :| 0 <= k < |days| && RateUpdates(days)[k] == u;
    assert days[k] in days;
  }

  lemma StepKeepsCanonical(log: Log, e: Event)
    requires Canonical(log)
    ensures Canonical(Step(log, e))
  {
    match e {
      case RatePush(conns, channels, property, body, parseDay, saveUp, env) =>
        var rates := Field(body, "rates");
        if rates.Arr? {
          var days := RateDaysIn(property, rates.items, parseDay);
          var next := log.(saved := log.saved + days);
          SavingKeepsCanonical(log, days);
          forall u | u in RateUpdates(days) && u.Rate? ensures DayOf(u) in next.saved {
            RatesAreOfDays(days, u);
          }
          PushKeepsCanonical(next, conns, channels, property, "pricing_push", "push_rates", RateUpdates(days), |days|,
                             env);
        }
      case AvailabilityPush(conns, channels, property, body, parseDay, inventory, env) =>
        var roomTypeId := StringOr(Field(body, "room_type_id"));
        if DateRange(body, parseDay).Ok? {
          var dates := DateRange(body, parseDay).value;
          if inventory(roomTypeId, dates.0, dates.1 - 1).Some? {
            var updates := AvailabilityUpdates(property, roomTypeId, inventory(roomTypeId, dates.0, dates.1 - 1).value);
            assert forall u :: u in updates ==> u.Availability?;
            PushKeepsCanonical(log, conns, channels, property, "inventory_push", "push_availability", updates, 0, env);
          }
        }
    }
  }

  lemma {:induction false} RunKeepsCanonical(log: Log, events: seq<Event>)
    requires Canonical(log)
    ensures Canonical(Run(log, events))
    decreases events
  {
    if events != [] {
      StepKeepsCanonical(log, events[0]);
      RunKeepsCanonical(Step(log, events[0]), events[1..]);
    }
  }

  /** After any run of rate and availability pushes, with any failures: every rate that ever reached an OTA had been
      saved in the canonical store before it was sent. */
  lemma SentRatesWereSaved(events: seq<Event>, i: nat, u: Update)
    requires i < |Run(NOTHING, events).sent|
    requires u in Run(NOTHING, events).sent[i].updates && u.Rate?
    ensures var log := Run(NOTHING, events);
            log.sent[i].savedThen <= |log.saved| && DayOf(u) in log.saved[..log.sent[i].savedThen]
  {
    RunKeepsCanonical(NOTHING, events);
    assert SavedFirst(Run(NOTHING, events).saved, Run(NOTHING, events).sent[i]);
  }

  /** After any run in which job status writes succeed, every job is closed as its breaker callback reported. */
  lemma {:induction false} RunIsSettled(log: Log, events: seq<Event>)
    requires Settled(log) && forall i :: 0 <= i < |events| ==> events[i].env.statusUp
    ensures Settled(Run(log, events))
    decreases events
  {
    if events != [] {
      StepKeepsSettled(log, events[0]);
      RunIsSettled(Step(log, events[0]), events[1..]);
    }
  }

  lemma StepKeepsSettled(log: Log, e: Event)
    requires Settled(log) && e.env.statusUp
    ensures Settled(Step(log, e))
  {
    var mine := OfProperty(e.channels, e.property);
    match e {
      case RatePush(conns, _, property, body, parseDay, _, env) =>
        var rates := Field(body, "rates");
        if rates.Arr? {
          var days := RateDaysIn(property, rates.items, parseDay);
          FanOutSettled(log.(saved := log.saved + days), conns, mine, |mine|, "pricing_push", "push_rates",
                        RateUpdates(days), env);
        }
      case AvailabilityPush(conns, _, property, body, parseDay, inventory, env) =>
        var roomTypeId := StringOr(Field(body, "room_type_id"));
        if DateRange(body, parseDay).Ok? {
          var dates := DateRange(body, parseDay).value;
          if inventory(roomTypeId, dates.0, dates.1 - 1).Some? {
            var updates := AvailabilityUpdates(property, roomTypeId, inventory(roomTypeId, dates.0, dates.1 - 1).value);
            FanOutSettled(log, conns, mine, |mine|, "inventory_push", "push_availability", updates, env);
          }
        }
    }
  }
}
