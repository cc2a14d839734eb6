# Channel manager: a verified model of its stateful core

This project models the parts of a hotel channel manager whose correctness depends on more than one call, and proves
what they keep over whole runs.

| file | what it models |
|---|---|
| `Results.dfy`, `Text.dfy`, `Decimal.dfy`, `Payload.dfy` | option and result values, string joining, splitting and trimming, decimal numerals, decoded request bodies and room-id lists |
| `Holds.dfy` | the soft-hold store: an expiring token table with a lazily pruned index per property |
| `Quoting.dfy` | one `get_quote` request as a step on that store, and every run of such steps |
| `Storefront.dfy` | the quoting and searching service, and offers that pin a search result |
| `QuoteRules.dfy`, `SearchRules.dfy` | what a quote and a search mean in terms of the request, the PMS's answer and the holds |
| `Ledger.dfy` | canonical reservations guarded by in-process idempotency keys |
| `BookingRules.dfy` | what a booking request is read as, and what its reply and rows say |
| `Booking.dfy`, `BookingRuns.dfy` | the booking saga with idempotent replay, and every run of bookings, mirrors, ingests, restarts and waits |
| `Policy.dfy`, `RoleBinder.dfy`, `Access.dfy` | roles and the access decision, the binder with its memo and failing enforcer, and every run of role changes and restarts |
| `Catalog.dfy`, `Reconciliation.dfy` | catalog synchronisation and what it leaves behind |
| `Channels.dfy`, `SyncJobs.dfy` | connections, channels and their join; dispatch, fan-out and sync jobs |
| `Promo.dfy`, `Discount.dfy` | the redemption counter and the discount arithmetic |
| `Paging.dfy`, `Slug.dfy`, `ApiKeys.dfy` | offset paging, organization slugs, and API-key text |

Conventions. Objects the service updates in place are classes; each of their methods is proved equal to a function on
plain values, and the theorems are lemmas about those functions. The clock, the calendar, the PMS, OTA adapters, fresh
ids, map iteration order and every failure of a store are arguments (`Env` datatypes, function parameters). Each call is
one serial step. Times are whole seconds, days are whole numbers, amounts are reals.

Where the code does not meet its own documentation, the code is modelled and the exact condition is proved:

- `HoldStore.ActiveForProperty` is documented to return the unexpired holds of a property. A token that is sent again at
  another property stays listed at the first one, so it can return a foreign hold, and a guest whose own stay is held
  can be refused (`PortContractIff`, `HeldStayRefusedIff`, `MovedTokenArises`).
- One stay per room and night survives one more hold, in all stores, exactly when that hold is for the rooms that were
  asked about or names no well-formed room; the PMS's room ids are not checked (`SafetyIffHoldMatchesRequest`). Where
  ill-formed rooms are held already, only a hold for no room is as safe (`SafetyInAnyRoomsIff`).
- Reservation keys are not scoped by organization or property: a booking whose key was used elsewhere is confirmed with
  nothing pending and leaves no canonical row (`SharedKeyLosesTheReservation`, `SharedKeyArises`,
  `EveryStayHasARowIff`, `NothingPendingIff`).
- The seen keys live in the process: after a restart a saved key can be saved again (`RestartForgets`, `SaveAddsRowIff`,
  `PersistKeepsUniqueIff`).
- A user id that is a role name joins the role of that name. Its decisions, and through the user id "member" those of all
  members, can then exceed the role it was given (`RaisedMembersArise`, `NamedUserArises`, `LastRoleDecidesIff`,
  `EnsureChangesAnyoneIff`, `UnboundIsDeniedIff`).
- A room type the store rejects costs its rooms their place in the catalog (`RejectedTypeRetiresItsRooms`), and a room
  type whose code changed at the PMS stays active twice (`RenamedTypeStaysTwice`, `ActiveRowsOfListedId`).
- The promo limit is kept by the table's constraint, not by the update action (`UpdateNeedsTheConstraint`).
- Clamping the promo counter at zero does not keep a double release from making room (`DoubleReleaseOversells`,
  `ReleaseKeepsExactIff`, `HeldWithinLimitIff`).
- A booking whose reply could not be stored is asked of the PMS again by the same request (`RetryAsksAgainIff`).
- A price with a fraction of a cent can go up when discounted (`FractionsCanGoUp`, `NeverAboveIff`).
- A bare offer id for a party with children is quoted for no children (`OfferFixesTheQuery`).
- Two organizations with different names and short, dashed ids can share a slug (`DashedIdsMeet`, `SlugsCollideIff`).

## Model

| member | source | states |
|---|---|---|
| Payload.StrictStringArray | services/storefront/usecases/service.go:1563-1583 | the loop with its seen-set returns what `RoomList` says, errors included |
| Payload.RoomListSound | services/storefront/usecases/service.go:1563-1583 | an accepted value is an array whose trimmed strings are the returned ids: non-empty, well-formed, pairwise different |
| Payload.RoomListComplete | services/storefront/usecases/service.go:1563-1583 | every array that reads as a well-formed list without repeats is accepted as exactly that list |
| Payload.RoomListFault | services/storefront/usecases/service.go:1563-1583 | a rejected array is rejected for its first faulty element, malformed or repeated; anything else is not a non-empty array |
| Payload.RoomsJoinSplit | services/storefront/usecases/service.go:890-915 | splitting the comma join of a well-formed room list gives the list back |
| Payload.NumbersRead | services/storefront/usecases/service.go:1585-1600 | a number off the wire loses its fraction towards zero, a Go int is kept, anything else is the default |
| Payload.RoomIdIs | services/storefront/usecases/service.go:1549 | a room id has 1 to 128 characters, all letters, digits or unreserved marks |
| Holds.OverlapsIsSharedNight | services/storefront/domain/models.go:56-61 | two non-empty half-open stays overlap exactly when they share a night |
| Holds.HoldStore.Place | services/storefront/adapters/redis/holds.go:80-99 | refuses an already expired hold; otherwise files it under its token and lists the token at its property with a longer-lived index |
| Holds.HoldStore.ActiveForProperty | services/storefront/adapters/redis/holds.go:135-160 | returns each listed unexpired hold once, in some order, and prunes the dead tokens from the index |
| Holds.IndexIsComplete | services/storefront/adapters/redis/holds.go:80-99 | the index never misses an unexpired hold of its property |
| Holds.PortContractIff | services/storefront/ports/ports.go:79-81 | the listing is exactly the unexpired holds of the property if and only if no listed token now belongs to another property |
| Holds.ForeignAfterPlace | services/storefront/adapters/redis/holds.go:90-94 | after a placement a property lists a foreign hold exactly if it lists the placed token for another property or listed another foreign one before |
| Holds.PruneKeepsInv | services/storefront/adapters/redis/holds.go:155-158 | pruning keeps the store invariant and changes no property's listing |
| Holds.PlaceKeepsInv | services/storefront/usecases/service.go:978-989 | placing a well-formed hold that agrees with the holds it meets keeps the invariant |
| Quoting.BlocksMeansClash | services/storefront/usecases/service.go:899-920 | a well-formed hold of another token blocks a stay exactly when they share a night and a room and are not the same stay |
| Quoting.RefusedIff | services/storefront/usecases/service.go:899-920 | the hold check refuses exactly when some listed unexpired hold of another token, not for this very stay, shares a night and a room with it |
| Quoting.SettleKeepsInv | services/storefront/usecases/service.go:939-989 | a hold written after an unrefused check, for the rooms asked about, keeps the store invariant |
| Quoting.QuoteKeepsInv | services/storefront/usecases/service.go:828-1000 | no request, accepted or refused, breaks the invariant while the PMS echoes the rooms |
| Quoting.RunKeepsInv | services/storefront/usecases/service.go:887-989 | every run of quotes, listings and waits keeps the invariant |
| Quoting.OneStayPerRoomNight | services/storefront/usecases/service.go:887-989 | from an empty store, all unexpired holds on one night of one room of a property are for one identical stay |
| Quoting.SubstitutionBreaksSafety | services/storefront/usecases/service.go:939-987 | if the hold written is for other rooms, one of them well formed, some invariant store that does not refuse the request becomes unsafe |
| Quoting.SafetyIffHoldMatchesRequest | services/storefront/usecases/service.go:939-987 | for every PMS answer that is placed: safety survives in all invariant stores if and only if the hold is for the rooms asked about, or names no well-formed room |
| Quoting.SafetyInAnyRoomsIff | services/storefront/usecases/service.go:939-987 | in stores that may hold ill-formed rooms as well: if and only if the hold is for the rooms asked about, or for none |
| Quoting.HeldStayRefusedIff | services/storefront/usecases/service.go:899-920 | a stay that is held is refused exactly when a listed hold of another property blocks it |
| Quoting.HeldStayIsNeverRefused | services/storefront/usecases/service.go:903-911 | without foreign tokens in the index a held stay is never refused, with or without its token |
| Quoting.RequoteNeverRefused | services/storefront/usecases/service.go:899-920 | after every run in which tokens stay with their property, a held stay can be quoted again by anyone |
| Quoting.MovedTokenRefusesHeldStay | services/storefront/usecases/service.go:971-987 | sending a listed token at another property for an overlapping different stay makes the held stay refused |
| Quoting.MovedTokenArises | services/storefront/usecases/service.go:971-987 | for every stay three accepted quotes from an empty store make a property list another property's hold and refuse the stay it holds |
| Quoting.OneTokenMoves | services/storefront/usecases/service.go:971-989 | a request files exactly one hold, under its own token and property, or none; every other token keeps its hold |
| QuoteRules.HoldPlacedIff | services/storefront/usecases/service.go:964-989 | a hold is placed exactly when the request is accepted, no hold refuses it, the PMS quotes it available, a named offer's price and currency stand, and the store takes it |
| QuoteRules.HoldSays | services/storefront/usecases/service.go:971-987 | a placed hold carries the token, property, quoted or asked rooms, dates and life; no other hold changes, and none does without a placed one |
| QuoteRules.QuoteAnswers | services/storefront/usecases/service.go:932-966 | what the guest is told, and exactly when a priced quote is refused after all |
| QuoteRules.AskedIff | services/storefront/usecases/service.go:894-931 | the reasons before the PMS is asked, and that it is asked once, for the plan, exactly without them |
| QuoteRules.HoldLifetime | services/storefront/adapters/redis/holds.go:80-99 | a hold counts until its expiry, its token is listed an hour longer |
| QuoteRules.BareRequestReadIff | services/storefront/usecases/service.go:878-891 | without an offer: when a request is accepted, and that its plan is what the body says, field by field |
| QuoteRules.OfferRequestReadIff | services/storefront/usecases/service.go:833-885 | with an offer: when it is accepted, and that its plan is the offer's but for children and token |
| QuoteRules.OfferFailsFor | services/storefront/usecases/service.go:833-842 | which reason makes an offer unusable |
| QuoteRules.OfferConflictsFor | services/storefront/usecases/service.go:843-875 | which contradiction with an offer is reported |
| QuoteRules.DatesReadIff | services/storefront/usecases/service.go:1529-1547 | dates are read exactly from two parsable days in order |
| QuoteRules.DatesFailFor | services/storefront/usecases/service.go:1529-1547 | which fault of the dates is reported |
| QuoteRules.CurrencyFallsBack | services/storefront/usecases/service.go:1612-1619 | the first currency given, and dollars if none is |
| Storefront.Service.GetQuote | services/storefront/usecases/service.go:828-1000 | the method's answer and new store are `QuoteStep`'s, and it asks the PMS only for the plan, after the hold check |
| Storefront.Service.ReadRequest | services/storefront/usecases/service.go:829-885 | offer lookup, conflict checks, room list and dates give the plan or the first error |
| Storefront.Service.HeldByAnother | services/storefront/usecases/service.go:891-920 | the scan refuses exactly when some active hold blocks the plan |
| Storefront.Service.SettleQuote | services/storefront/usecases/service.go:932-999 | price check, room fallback, token reuse and placement as in `Settle` |
| Storefront.Service.HeldRoomsExcluding | services/storefront/usecases/service.go:805-825 | collects exactly the rooms of overlapping active holds other than the excluded token's |
| Storefront.OfferTouchesHeldRoom | services/storefront/usecases/service.go:786-793 | true exactly when some room of the offer is held |
| Storefront.Service.SearchAvailability | services/storefront/usecases/service.go:576-646 | the answer is the PMS's offers filtered by the rooms held over the stay, or the first error |
| Storefront.HeldMeansCoveredNight | services/storefront/usecases/service.go:805-825 | a room counts as held exactly when an active hold covers it on a night of the stay |
| Storefront.OfferableMembers | services/storefront/usecases/service.go:603-607 | an offer is returned exactly if it was offered, is available and touches no held room |
| Storefront.OfferableAppend | services/storefront/usecases/service.go:603-625 | filtering distributes over concatenation, so order is kept |
| Storefront.SearchedOfferPassesHoldCheck | services/storefront/usecases/service.go:899-920 | any returned offer passes the hold check of a quote for it in the same state, with any token |
| SearchRules.SearchSucceedsIff | services/storefront/usecases/service.go:576-601 | a search succeeds exactly when the channel is on, the body says a stay, the PMS answers and the holds can be read |
| SearchRules.SearchAnswerIff | services/storefront/usecases/service.go:576-625 | an offer is answered exactly if the PMS offered it for the body's stay and party, it is available, and no active hold covers a room of it on a night of that stay |
| SearchRules.SearchKeepsOrder | services/storefront/usecases/service.go:602-625 | the answer keeps the PMS's order and multiplicities |
| SearchRules.SearchedOfferCanBeQuoted | services/storefront/usecases/service.go:899-920 | every answered offer passes the hold check for the body's own dates, with any token |
| Storefront.Service.IssueOffers | services/storefront/usecases/service.go:473-516 | every listed offer resolves to its own new snapshot of its search, stay, price and rooms; stays are told apart, those without offers dropped; no stored offer changes; it fails only with the offer store |
| Storefront.OfferFixesTheQuery | services/storefront/usecases/service.go:832-877 | a request by offer id can only plan the offer's rooms, nights and adults, and plans its children exactly if they are sent or there are none |
| Storefront.OfferFixesTheRooms | services/storefront/usecases/service.go:862-876 | rooms sent along with an offer must be the offer's rooms in its order |
| Storefront.OfferQueries | services/storefront/usecases/service.go:922-928 | every query such a request sends is about the offer's rooms, nights and adults |
| Storefront.QuoteByOffer | services/storefront/usecases/service.go:932-987 | it places a hold only for the offer's nights and only at the offer's price and currency |
| Storefront.OfferIdSuffices | services/storefront/usecases/service.go:832-885 | a bare offer id reaches the hold check exactly when channel and store answer, the offer is live and of this property, and its dates are a stay |
| Ledger.ReservationService.Persist | services/reservations/usecases/service.go:60-82 | seen keys are refused, status is defaulted, the row is saved, the key remembered, and only published rows announced |
| Ledger.ReservationService.IngestReservation | services/reservations/usecases/service.go:43-50 | saves and announces exactly the saved row |
| Ledger.ReservationService.RecordReservation | services/reservations/usecases/service.go:52-58 | saves and announces nothing |
| Ledger.PersistKeepsUniqueIff | services/reservations/usecases/service.go:62-82 | one more save keeps keys unique exactly when the key is blank, remembered, new, or the save fails |
| BookingRules.PersistAdds | services/reservations/usecases/service.go:62-82 | when a save adds a row, which, and when it is a duplicate |
| BookingRules.KnownOtaIsRewritten | services/reservations/adapters/postgres/repo.go:132-151 | saving a known OTA reservation rewrites its stay, status and price and nothing else |
| BookingRules.SaveIsAddedIff | services/reservations/adapters/postgres/repo.go:132-169 | a save adds a row exactly unless channel and confirmation id are both given and some row has the same two |
| Ledger.SaveAddsRowIff | services/reservations/adapters/postgres/repo.go:132-169 | a save adds a row exactly if no earlier save was of the same OTA reservation; direct bookings always add one |
| Ledger.RestartForgets | services/reservations/usecases/service.go:21-31 | a remembered key is refused; once the key set is lost the same save is made again, and is a second row exactly if it is not of a known OTA reservation |
| Booking.StoreKeyInjective | services/storefront/usecases/service.go:1221-1224 | scopes with NUL-free organization and property ids never share a store key |
| Booking.StoreKeyIsUniqueIff | services/storefront/usecases/service.go:1221-1224 | a scope has its store key to itself among all texts exactly when none of its parts contains a NUL |
| Booking.PaddingIsInvisible | services/storefront/usecases/service.go:1016-1025 | white space around the key changes neither key nor fingerprint |
| Booking.StayKeysDistinct | services/storefront/usecases/service.go:1151-1154 | the stays of one booking get pairwise different keys |
| BookingRules.StayKeyIs | services/storefront/usecases/service.go:1151-1154 | the caller's key, with the stay's number behind a colon if there are several |
| Booking.Service.CreateBooking | services/storefront/usecases/service.go:1012-1211 | the method's stores, answer and stay outcomes are `BookStep`'s, and it sends the PMS at most the one validated booking |
| Booking.Service.PersistReservation | services/storefront/usecases/service.go:1226-1282 | a duplicate is not pending, a failed write or a missing tenant is, and nothing is announced |
| Booking.Service.PersistStays | services/storefront/usecases/service.go:1136-1158 | ids and the pending flag follow from the outcome of each stay |
| Booking.Service.RecordDirectReservation | services/storefront/usecases/service.go:1294-1357 | records the mirrored booking, or reports a duplicate or a failure |
| BookingRuns.FateIs | services/storefront/usecases/service.go:1139-1158 | each stay's outcome follows from tenant, keys seen before the call, and its own save |
| BookingRuns.NothingPendingIff | services/storefront/usecases/service.go:1271-1281 | nothing is pending exactly when the tenant is known and every stay's key was used before or is saved now |
| BookingRuns.EveryStayHasARowIff | services/storefront/usecases/service.go:1139-1158 | every confirmed stay gets its own row exactly when the tenant is known, all saves work and no key was used before |
| BookingRuns.SharedKeyLosesTheReservation | services/storefront/usecases/service.go:1271-1276 | a booking whose key is already seen, wherever, is confirmed with nothing pending and adds no row |
| BookingRuns.SharedKeyArises | services/storefront/usecases/service.go:1271-1276 | one fetched OTA booking under the same key leads there from an empty start |
| BookingRuns.WrittenRowsCarryTheBooking | services/storefront/usecases/service.go:1256-1271 | new rows carry the caller's organization, the property, the stay, price, currency and the PMS's confirmation number |
| BookingRules.RowsNameTheGuest | services/storefront/usecases/service.go:1250-1260 | the room type and guest of new rows |
| BookingRuns.InputIsSane | services/storefront/usecases/service.go:1042-1095 | what reaches the PMS is a non-empty stay at a positive price for named rooms or one to twenty of a type |
| BookingRules.InputReadIff | services/storefront/usecases/service.go:1042-1084 | a body is accepted exactly when it describes a booking, and is read as that booking field by field, the number of rooms included |
| BookingRules.InputFailsFor | services/storefront/usecases/service.go:1042-1069 | which fault of a body is reported |
| BookingRules.AskedIff | services/storefront/usecases/service.go:1012-1084 | the PMS is asked exactly when the channel is on, the key fits and is unused, and the body describes a booking; and for that one |
| BookingRules.BookingSucceedsIff | services/storefront/usecases/service.go:1110-1135 | a first call succeeds exactly when the PMS confirms stays under one number |
| BookingRules.ReplySays | services/storefront/usecases/service.go:1172-1210 | every field of the reply and of the stored record |
| BookingRules.BookingFailsFor | services/storefront/usecases/service.go:1012-1024 | which reason is reported, and that a failure changes nothing |
| BookingRules.PmsRejectsIff | services/storefront/usecases/service.go:1110-1122 | a call that is turned away by the PMS says so, and only such a call |
| BookingRules.RecordLivesADay | services/storefront/adapters/redis/holds.go:21 | a stored reply is replayed for a day and no longer |
| BookingRules.FingerprintIff | services/storefront/usecases/service.go:1213-1219 | fingerprints agree exactly if the trimmed key and all other fields do |
| BookingRuns.MirrorTwice | services/storefront/usecases/service.go:1339-1345 | mirroring again under the same key changes nothing and says so |
| BookingRules.MirrorRecordsIff | services/storefront/usecases/service.go:1294-1357 | a described mirror is recorded exactly if its key is new and the save works, as a row with the body's fields |
| BookingRules.MirrorRefusedIff | services/storefront/usecases/service.go:1294-1310 | a body that describes no mirror is refused |
| BookingRuns.OneRowPerKey | services/reservations/usecases/service.go:62-82 | in one process lifetime no non-empty key is saved twice, whichever actions use it and whatever fails |
| BookingRuns.StaysAreConserved | services/storefront/usecases/service.go:1126-1158 | over every run each confirmed stay is a new row, a repeat, pending or an orphan, so rows never exceed confirmed stays |
| BookingRuns.BookingIsHonest | services/storefront/usecases/service.go:1012-1211 | a call returns and stores only replies whose stays are saved if nothing is pending |
| BookingRuns.NotPendingMeansSaved | services/storefront/usecases/service.go:1126-1211 | after any run, restarts included, a reply without a pending mark has every stay key saved |
| BookingRuns.RecordIsWriteOnce | services/storefront/usecases/service.go:1026-1040 | a stored record is unchanged while it lives, over any run |
| BookingRuns.ReplayHasNoEffect | services/storefront/usecases/service.go:1031-1040 | under a stored scope nothing is asked or written; the stored reply is returned exactly if channel and store answer and the request is the recorded one |
| BookingRuns.RetryReturnsTheFirstReply | services/storefront/usecases/service.go:1012-1040 | a stored booking repeated within a day, after any run, gets the same reply and no second PMS booking |
| BookingRuns.RetryAsksAgainIff | services/storefront/usecases/service.go:1012-1040 | after a successful booking, and any run outside its scope within a day, the same request reaches the PMS again exactly when the reply could not be stored |
| Policy.KeyMatchIsPrefix | platform/auth/policy.go:26-31 | a pattern ending in its only star matches exactly the paths it prefixes |
| Policy.KeyMatchIs | platform/auth/casbin_model.conf:26-27 | everything after the first star is ignored; without a star texts must be equal |
| Policy.PermissionsMeanGrants | platform/auth/policy.go:43-78 | the permission lists let members read and owners and admins do everything on absolute paths, with or without the booking-engine entries |
| RoleBinder.BindingKeyInjective | platform/auth/policy.go:110-112 | memo keys are unambiguous when role and org hold no NUL |
| RoleBinder.Enforcer.AddPolicy | platform/auth/casbin_adapter.go:131-137 | adds a missing rule to memory and table together, or changes nothing on failure |
| RoleBinder.Enforcer.RemoveGroupingPolicy | platform/auth/casbin_adapter.go:139-161 | removes a binding from memory and table together, or changes nothing on failure |
| RoleBinder.Enforcer.LoadPolicy | platform/auth/casbin_adapter.go:76-104 | a restart reads the rules back from the table |
| RoleBinder.Service.Ensure | platform/auth/policy.go:132-172 | memo check, grants, unbinding and binding as in `EnsureStep`, for every failure and iteration order; a no-op without enforcer |
| Access.LinksCollapse | platform/auth/casbin_model.conf:20-27 | a user reaches its own name, the role it is bound to, and more only from an owner or admin binding or a raised member binding |
| Access.LinksAreBindings | platform/auth/casbin_model.conf:20-27 | where no role name is bound itself, a user reaches exactly the roles it is bound to |
| Access.DecisionIs | platform/auth/interceptor.go:35-62 | for any user id: a request is allowed exactly by a rule of the user's own name or by its role, lifted if the user id "member" holds a higher role |
| Access.DecisionIsTheBinding | platform/auth/interceptor.go:35-62 | for ids that are no role names, exactly when the (lifted) bound role grants it, with or without the booking-engine rules |
| Access.EnsureKeeps | platform/auth/policy.go:114-172 | one Ensure for any user id, whatever fails, keeps the invariant and all other bindings, and ends with the new role, or on failure at most the old |
| Access.EnsureFailsOnly | platform/auth/policy.go:132-172 | an Ensure fails only when an enforcer call does, and does nothing without a user or organization or on a memo hit |
| Access.MemoAgrees | platform/auth/policy.go:86-102 | a memo entry means the role's rules exist and it is the user's one binding in the org |
| Access.MemoHitEqualsRerun | platform/auth/policy.go:141-144 | skipping on a memo hit equals re-running the body |
| Access.RunKeeps | platform/auth/policy.go:99-172 | every run with failures and restarts, for any user ids, keeps memo, enforcer and table in agreement |
| Access.DecisionIsTheLastRole | platform/auth/interceptor.go:20-62 | from an empty policy, over every run: a request is decided by the last successfully ensured role, for members by that of the user id "member" if there is one; only upper bounds while a later change failed |
| Access.EnsuredDecision | platform/auth/interceptor.go:35-62 | after any run and one more Ensure: an ordinary user may call a method exactly if its path is absolute and it claimed owner or admin, or the method begins with Get or List |
| Access.ReadsIff | platform/auth/interceptor.go:50-62 | a procedure reads exactly when its method name begins with Get or List |
| Access.NoSlashWrites | platform/auth/interceptor.go:50-62 | a procedure without a slash counts as a write |
| Access.RelativePathsAreDenied | platform/auth/policy.go:26-31 | after any run, a path that is not absolute is denied to everyone |
| Access.LastRoleDecidesIff | platform/auth/interceptor.go:35-62 | over every run and for every user id, the last role alone decides exactly when it is not member or nothing raises it: no higher role of the user id "member", no write rule of the user's own name |
| Access.RaisedMembersArise | platform/auth/policy.go:132-172 | two role changes from an empty policy let an ordinary user whose last role is member write |
| Access.NamedUserArises | platform/auth/policy.go:132-172 | so do two that make anyone owner and the user id "owner" member |
| Access.EnsureIsContained | platform/auth/policy.go:114-172 | an Ensure for an id that is no role name never changes decisions about other such ids and orgs, and a failed one grants its user nothing new |
| Access.EnsureChangesOthersIff | platform/auth/policy.go:132-172 | a successful Ensure changes the decisions of another user, whose id is no role name, exactly when it raises or lowers the user id "member" in an org where the other is a member |
| Access.EnsureChangesAnyoneIff | platform/auth/policy.go:132-172 | for anyone else, role names included, exactly when one of four facts readable before the call changes |
| Access.CanDecides | platform/auth/interceptor.go:35-62 | these facts, one per pattern and action, decide every procedure |
| Access.BoundDecisionIff | platform/auth/casbin_model.conf:20-27 | in every consistent state a bound user's decisions are its role's exactly when that is not member or nothing raises it |
| Access.UnboundIsDeniedIff | platform/auth/casbin_model.conf:20-27 | a user without a binding is denied everywhere in an org exactly while no rule of a role of its name exists there |
| Catalog.Service.SyncCatalog | services/pms/usecases/service.go:184-292 | fails exactly if a room of an accepted type is rejected; otherwise tables and counts are those of `SyncAll`; after a failure the property rows are exactly known and other properties' types and rooms are as the finished prefix left them |
| Catalog.Service.UpsertListing | services/pms/usecases/service.go:212-257 | writes the last accepted listing of each type and room and collects the listed keys |
| Catalog.Service.UpsertType | services/pms/adapters/postgres/room_type_repo.go:26-106 | upsert by property and code, with the code, capacity and occupancy defaults |
| Catalog.Service.RetireTypes | services/pms/usecases/service.go:259-272 | deactivates exactly the property's types whose non-blank key is not listed |
| Catalog.Service.RetireRooms | services/pms/usecases/service.go:274-285 | deactivates exactly the property's rooms whose id is not listed |
| Reconciliation.PropertyRowAfter | services/pms/usecases/service.go:189-204 | every synchronised property ends active under its last listing |
| Reconciliation.RowsSay | services/pms/adapters/postgres/room_type_repo.go:26-60 | the rows' values and defaults |
| Reconciliation.LastTypeWins | services/pms/usecases/service.go:215-229 | the last accepted listing of a code wins |
| Reconciliation.LastRoomWins | services/pms/usecases/service.go:231-248 | the last listing of a room wins, with the code of its type |
| Reconciliation.AbortsIff | services/pms/usecases/service.go:231-247 | what ends a sync: a rejected room under an accepted type of a synchronised property |
| Reconciliation.CountsSay | services/pms/usecases/service.go:184-292 | the reported numbers count the synchronised properties and the accepted listed types |
| Reconciliation.RoomActiveIff | services/pms/usecases/service.go:231-285 | a stored room is active exactly when its id is not blank and an accepted type of the listing contains it |
| Reconciliation.RejectedTypeRetiresItsRooms | services/pms/usecases/service.go:226-229 | a room listed only under a rejected room type is not active afterwards |
| Reconciliation.ActiveTypesAreListed | services/pms/usecases/service.go:250-272 | active types have a blank or listed key, and every accepted type has an active row |
| Reconciliation.ActiveRowsOfListedId | services/pms/usecases/service.go:259-272 | exactly which rows stay active for a listed external id, including rows under an outdated code |
| Reconciliation.RenamedTypeStaysTwice | services/pms/usecases/service.go:259-272 | a room type whose code changed at the PMS ends active under both codes |
| Reconciliation.SecondSyncChangesNothing | services/pms/usecases/service.go:165-293 | synchronising any catalog again changes no row, whatever is blank, rejected, unanswered or listed twice |
| Reconciliation.TypeFoldIs | services/pms/usecases/service.go:215-272 | over a whole listing a room-type row is either determined by the listing alone or at most retired, by its external id |
| Channels.Service.Act | services/integration/usecases/service.go:355-518 | creating, linking, deleting and switching as in `ActStep` |
| Channels.Service.ConnectChannel | services/integration/usecases/service.go:446-482 | answers with an existing link or creates one |
| Channels.ConnectIff | services/integration/usecases/service.go:455-481 | links exactly when the connection exists, is not linked yet and the write works; reports an existing link and leaves it alone |
| Channels.LinkSays | services/channel/usecases/service.go:130-144 | when a link is made and what the new channel says |
| Channels.CreateSays | services/integration/usecases/service.go:355-408 | when a connection is created, what is stored, and when it is linked at once |
| Channels.ExistingLinkIsNamed | services/integration/usecases/service.go:455-466 | an existing link is answered with its own id |
| Channels.StateChangesIff | services/integration/usecases/service.go:486-518 | a state change works exactly for a channel of the property, and otherwise changes nothing |
| Channels.DeleteFailsIff | services/integration/usecases/service.go:431-444 | a missing connection cannot be deleted |
| Channels.OfPropertyAppends | services/channel/usecases/service.go:151-154 | a property's channels keep the table's order |
| Channels.DeleteCascades | services/channel/usecases/service.go:121-124 | deleting a connection removes exactly it and its channels |
| Channels.OtherChannelsAreUntouched | services/integration/usecases/service.go:492-502 | a state change never reaches another channel or one of another property |
| Channels.OwnChannelChanges | services/integration/usecases/service.go:504-518 | a property's own channel ends paused, active or gone |
| Channels.RunKeepsSound | services/integration/usecases/service.go:455-466 | any run keeps links unique per property and connection, and every channel on an existing connection of its provider |
| Channels.Service.ListConnections | services/integration/usecases/service.go:298-346 | the listing is the join through a map from connection to channel |
| Channels.MapJoinIsNestedJoinIff | services/integration/usecases/service.go:311-341 | the map join shows the nested-loop join's links exactly when no connection has two of the channels |
| Channels.ListingIsComplete | services/integration/usecases/service.go:298-346 | in every sound registry the listing is the nested-loop join and shows each channel of the property exactly once, beside its own connection |
| SyncJobs.Service.Dispatch | services/channel/usecases/service.go:227-283 | refuses before a job exists, or creates one job, reports to the breaker and closes the job with the outcome |
| SyncJobs.Service.DispatchAll | services/integration/usecases/service.go:701-717 | dispatches to the active channels in order; failures are the errors, and pushed plus failed are the active channels |
| SyncJobs.Service.PushAvailability | services/integration/usecases/service.go:679-722 | refuses missing dates, room types and inventory, else sends the stored days of the asked nights |
| SyncJobs.Service.PushRates | services/integration/usecases/service.go:725-834 | saves all valid days, then fans them out, as in `PushRatesStep` |
| SyncJobs.RatePushRefusedIff | services/integration/usecases/service.go:725-804 | a rate push is refused exactly without rates, when the save fails or when the channels cannot be listed; it then sends nothing, and has saved only in the last case |
| SyncJobs.Service.CollectRates | services/integration/usecases/service.go:731-788 | collects the valid days of the payload and one update per day |
| SyncJobs.DispatchSettledIff | services/channel/usecases/service.go:254-282 | after a dispatch every job is closed as its callback reported if and only if none was created or the status write worked |
| SyncJobs.RefusalIff | services/channel/usecases/service.go:236-252 | a dispatch is refused exactly when its connection cannot be reached, for the first reason |
| SyncJobs.FanOutReaches | services/integration/usecases/service.go:701-717 | one delivery and job per reachable active channel, on its own connection and in order, and no other; errors are exactly the channels refused or turned away |
| SyncJobs.ReachedMembers | services/integration/usecases/service.go:701-717 | these are exactly the active channels that are not refused, each as often as listed |
| SyncJobs.RatePushReaches | services/integration/usecases/service.go:806-834 | a rate push reaches those that take rates, under pricing jobs |
| SyncJobs.AvailabilityPushReaches | services/integration/usecases/service.go:679-722 | an availability push reaches those that take availability, with the stored inventory of the asked nights |
| SyncJobs.PushDatesIff | services/integration/usecases/service.go:905-920 | its dates are two parsable days in any order |
| SyncJobs.UpdatesSay | services/integration/usecases/service.go:867-888 | what a rate day and an inventory day become |
| SyncJobs.DaysAppend | services/integration/usecases/service.go:749-787 | a well-formed entry adds its day and price, any other nothing |
| SyncJobs.FanOutSettled | services/channel/usecases/service.go:254-282 | with working status writes a whole push leaves every job closed |
| SyncJobs.RunIsSettled | services/channel/usecases/service.go:254-282 | over every run of pushes with working status writes every job is closed as its breaker callback reported |
| SyncJobs.FanOutConserves | services/integration/usecases/service.go:701-717 | pushed channels are the new succeeded jobs and true callbacks |
| SyncJobs.FanOutSendsUpdates | services/integration/usecases/service.go:701-717 | a push sends its own updates and nothing else, one delivery per new job and callback |
| SyncJobs.SentRatesWereSaved | services/integration/usecases/service.go:790-826 | over every run of rate and availability pushes with any failures, each rate that reached an OTA was in the canonical store before it was sent |
| Promo.NormalizeIgnoresPaddingAndCase | services/pricing/usecases/promo_service.go:33-37 | padding and letter case, in any alphabet, do not change which code is found |
| Promo.Service.CreatePromo | services/pricing/usecases/promo_service.go:40-55 | rejects blank codes, bad percentages, limits and windows and taken codes; stores the rest unused |
| Promo.Service.UpdatePromo | services/pricing/usecases/promo_service.go:67-73 | rewrites everything but the counter, within the service's and the table's checks |
| Promo.Service.Lookup | services/pricing/usecases/promo_service.go:80-94 | returns the code and the rule it breaks, or not found |
| Promo.Service.Redeem | services/pricing/adapters/postgres/promo_repo.go:227-268 | the conditional increment, or the reason it did not happen |
| Promo.Service.ReleaseRedemption | services/pricing/adapters/postgres/promo_repo.go:270-287 | gives one use back, never below zero |
| Promo.RowMatchesIffValid | services/pricing/domain/promo.go:60-85 | the increment's condition holds exactly when validation passes |
| Promo.ValidIff | services/pricing/domain/promo.go:56-85 | when a code is valid, and which rule it is said to break |
| Promo.CreatedIff | services/pricing/usecases/promo_service.go:40-55 | when a code can be created, and that it starts unused |
| Promo.UpdatedIff | services/pricing/usecases/promo_service.go:67-73 | when a code can be updated, and that its count is kept |
| Promo.RedeemIffValid | services/pricing/usecases/promo_service.go:96-103 | a redemption succeeds exactly when a lookup at that instant is valid, and otherwise reports the same rule and changes nothing |
| Promo.RaceHasExactWinners | services/pricing/ports/ports.go:35-42 | of any number of attempts on a valid code exactly as many succeed as uses were left |
| Promo.UpdateNeedsTheConstraint | migrations/pricing/0002_promo_codes.up.sql:41-42 | an update without the table's constraint keeps the limit exactly when the service refuses it or the new limit covers the uses |
| Promo.UsesStayInBounds | services/pricing/ports/ports.go:35-46 | in every interleaving the counter is redemptions minus effective releases, not negative, within the limit and at most the redemptions still held |
| Promo.ReleaseKeepsExactIff | services/pricing/adapters/postgres/promo_repo.go:270-287 | a release keeps the counter equal to the redemptions held exactly when it is the first of its redemption or the counter is zero |
| Promo.FirstReleasesAreExact | services/pricing/adapters/postgres/promo_repo.go:270-287 | every run without double releases counts the redemptions held exactly |
| Promo.HeldWithinLimitIff | services/pricing/adapters/postgres/promo_repo.go:270-287 | however many guests follow, the redemptions held stay within the limit exactly when the counter equals them now |
| Promo.DoubleReleaseOversells | services/pricing/adapters/postgres/promo_repo.go:270-271 | for every limit a run with one double release ends with more redemptions held than the limit |
| Discount.RoundsToTheCent | services/pricing/domain/promo.go:87-92 | the result is a non-negative whole number of cents within half a cent of the exact price |
| Discount.TakesThePercentageOff | services/pricing/domain/promo.go:87-92 | the percentage is taken off the amount, to the nearest cent |
| Discount.MonotoneInAmount | services/pricing/domain/promo.go:87-92 | monotone in the amount |
| Discount.AntitoneInPercent | services/pricing/domain/promo.go:87-92 | antitone in the percentage |
| Discount.NeverAboveIff | services/pricing/domain/promo.go:87-92 | the discounted price is not above the price exactly when the exact one stays below the half cent after the price's whole cents |
| Discount.NeverAboveWholeCents | services/pricing/domain/promo.go:87-92 | never above an amount in whole cents |
| Discount.FractionsCanGoUp | services/pricing/domain/promo.go:87-92 | an amount with a fraction of a cent that goes up |
| Paging.Service.ListDirectReservations | services/bookingengine/usecases/service.go:28-46 | one page with defaulted size and offset, and the next offset exactly when the page is full |
| Paging.Service.List | services/bookingengine/adapters/connect/handler.go:33-56 | the page at a token and the next token |
| Paging.TokenRoundTrip | services/bookingengine/adapters/connect/handler.go:89-100 | parsing a written token gives the offset back, for every offset that fits an int |
| Paging.PageSizeIs | services/bookingengine/usecases/service.go:30-35 | sizes from 1 to 200 are honoured, anything else means 50 |
| Paging.SliceIs | services/bookingengine/usecases/service.go:36-45 | a slice is the rows from the offset on, as many as fit |
| Paging.PageIs | services/bookingengine/adapters/connect/handler.go:33-56 | a page announces another exactly when it is full, at the offset where it ends |
| Paging.SignedTokens | services/bookingengine/adapters/connect/handler.go:91-100 | a plus is allowed, a negative offset starts from the top |
| Paging.BadTokens | services/bookingengine/adapters/connect/handler.go:91-100 | so does anything that is not a number |
| Paging.NextPageFollows | services/bookingengine/usecases/service.go:41-45 | a page that announces another is full and the next starts where it ends |
| Paging.EveryRowOnce | services/bookingengine/usecases/service.go:28-46 | following tokens with any page sizes ends and yields the whole table in order, each row once |
| Slug.Slugify | platform/auth/identity.go:128-153 | the loop yields the squeezed, trimmed, shortened lower-cased name, a dash and the lower-cased last eight bytes, for any case table |
| Slug.BaseIsWellFormed | platform/auth/identity.go:128-147 | the base is non-empty, at most 40 characters of letters, digits and single dashes, and starts and ends alphanumeric |
| Slug.AlnumIs | platform/auth/identity.go:132-141 | a slug keeps the small letters and the digits |
| Slug.BaseIffWellFormed | platform/auth/identity.go:128-147 | the fixed points of normalisation are exactly the well-formed strings |
| Slug.BaseIsDashed | platform/auth/identity.go:128-147 | the base is the name's runs of letters and digits joined by dashes, "org" if there are none, shortened to forty characters |
| Slug.SameNameSlugsCollideIff | platform/auth/identity.go:125-153 | for one name, or names with one base, slugs are equal exactly when the suffixes are, however short the ids |
| Slug.SlugsCollideIff | platform/auth/identity.go:125-153 | for any names and ids two slugs are equal exactly when base and suffix are, or a dash in one suffix lets the other base reach into it |
| Slug.LongIdsCollideIff | platform/auth/identity.go:125-153 | with ASCII ids of eight or more characters only equal bases and suffixes meet |
| Slug.DashedIdsMeet | platform/auth/identity.go:149-153 | short ids with dashes give different names the same slug, for every case table that leaves slugs alone |
| ApiKeys.ParseIffMinted | platform/integration/keystore.go:182-193 | tokens parse to a prefix exactly when they are minted from it, whatever the secret |
| ApiKeys.MintedKeysAreRouted | platform/integration/keystore.go:49-61 | every mintable key parses to its own prefix and never has the two dots of an assertion |
| ApiKeys.AssertionHasThreeParts | platform/integration/pmsjwt.go:139-142 | a token is taken for an assertion exactly if it is three dot-free parts with dots between them |

## Left out

- Concurrency inside `getQuote`, `createBooking`, the reservation service and `RoleBinder.Ensure`: check and write are separate calls without a lock; each call is one serial step. Promo redemption is atomic in the code.
- HTTP, RPC, SQL text, row-level security, Redis pipelining and I/O deadlines: stores are maps and sequences with failing writes as arguments; a failing write changes nothing.
- One organization at a time in the catalog, channel and promo models, as row-level security shows it; organization, property and time stamps of rows that no decision reads are dropped.
- Calendar parsing and time zones: parsing is an arbitrary function from text to day.
- Floating point: amounts are reals. JSON encoding of replays and fingerprints is taken as the identity, SHA-256 as injective, UUIDs as fresh.
- Requests mutate the caller's body map in the code; here the changed body stays inside the call.
- `searchFlexibleAvailability` and the validation half of `searchUnifiedAvailability`: the same hold filter per stay, and field checks; `IssueOffers` starts from the stays they return.
- Contact details, payment marks and payment-provider ids that a booking forwards to the PMS verbatim, and fields of the PMS's answers that are only copied.
- `getBooking`, `updateBooking`, `cancelBooking`, channel configuration, health, audit records, inventory ingestion and the room lists of room types: pass-through or copying.
- Booking.StayKeysDistinct: keys of different bookings may still meet, for example "k" with several stays and a single-stay booking "k:0"; what follows is covered by the statements about seen keys.
- Casbin itself: rules are sets, an added rule that exists needs no write, links are followed to depth ten, and `keyMatch` is as in its documentation; the comma-separated round trip of `LoadPolicy` is the identity.
- Catalog.Service.SyncCatalog: errors of the deactivating upserts, which the code ignores, and connection status updates are not modelled.
- Channels: names, credentials and status of connections, the table's own unique indexes, and fetching OTA reservations.
- SyncJobs: event publishing, last-sync times and how the inventory store answers.
- Promo.Service.UpdatePromo: codes are addressed by code instead of row id.
- Slug.LongIdsCollideIff: for ASCII ids; the condition for all ids is `SlugsCollideIff`. Case tables map letter by letter.
- Key hashing, signature checks and key storage.
