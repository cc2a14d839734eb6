/** What a catalog sync leaves behind, in terms of the PMS's listing. */
module Reconciliation {
  import opened Results
  import opened Catalog

  /** Position `i` is the last one that synchronises its property, with both listings answered. */
  ghost predicate LastFull(remote: seq<RemoteProperty>, i: nat) {
    && i < |remote| && !Skipped(remote[i])
    && remote[i].types.Some? && remote[i].typesListable && remote[i].roomsListable
    && forall j :: i < j < |remote| ==> remote[j].externalId != remote[i].externalId
  }

  /** Rows of one property depend only on its last synchronisation. */
  lemma {:induction false} LaterPropertiesKeepRows(t: Tables, remote: seq<RemoteProperty>, connectionId: string, i: nat,
                                                   k: Key)
    requires i < |remote| && k.0 == remote[i].externalId
    requires forall j :: i < j < |remote| ==> remote[j].externalId != remote[i].externalId
    ensures var here, all := SyncAll(t, remote[..i + 1], connectionId), SyncAll(t, remote, connectionId);
            && (k in all.types <==> k in here.types) && (k in all.types ==> all.types[k] == here.types[k])
            && (k in all.rooms <==> k in here.rooms) && (k in all.rooms ==> all.rooms[k] == here.rooms[k])
  {
    if |remote| == i + 1 {
      assert remote[..i + 1] == remote;
    } else {
      var init, rp := remote[..|remote| - 1], remote[|remote| - 1];
      assert init[..i + 1] == remote[..i + 1];
      LaterPropertiesKeepRows(t, init, connectionId, i, k);
      var before := SyncAll(t, init, connectionId);
      if !Skipped(rp) && rp.types.Some? {
        WrittenTypeAt(before.types, rp.externalId, rp.types.value, k);
        WrittenRoomAt(before.rooms, rp.externalId, rp.types.value, k);
      }
    }
  }

  /** Every synchronised property ends active, with the values of its last listing. */
  lemma {:induction false} PropertyRowAfter(t: Tables, remote: seq<RemoteProperty>, connectionId: string, i: nat)
    requires i < |remote| && !Skipped(remote[i])
    requires forall j :: i < j < |remote| ==> remote[j].externalId != remote[i].externalId
    ensures var props, rp := SyncAll(t, remote, connectionId).props, remote[i];
            && rp.externalId in props && props[rp.externalId].active && props[rp.externalId].name == rp.name
            && props[rp.externalId].connectionId == connectionId
            && props[rp.externalId].currency == (if rp.currency != "" then rp.currency else "USD")
            && props[rp.externalId].timezone == (if rp.timezone != "" then rp.timezone else "UTC")
  {
    if |remote| > i + 1 {
      assert remote[..|remote| - 1][i] == remote[i];
      PropertyRowAfter(t, remote[..|remote| - 1], connectionId, i);
    }
  }

  lemma RoomRowAfter(t: Tables, remote: seq<RemoteProperty>, connectionId: string, i: nat, id: string)
    requires LastFull(remote, i)
    ensures var p, types := remote[i].externalId, remote[i].types.value;
            var rows := SyncAll(t, remote, connectionId).rooms;
            var before := SyncAll(t, remote[..i], connectionId).rooms;
            && ((p, id) in rows <==> (p, id) in before || LastRoom(types, id).Some?)
            && ((p, id) in rows ==>
                  rows[(p, id)] == if LastRoom(types, id).Some? then LastRoom(types, id).value.(active := id != "")
                      else before[(p, id)].(active := false))
  {
    var p, types := remote[i].externalId, remote[i].types.value;
    assert remote[..i + 1][..i] == remote[..i];
    LaterPropertiesKeepRows(t, remote, connectionId, i, (p, id));
    var before := SyncAll(t, remote[..i], connectionId);
    WrittenRoomAt(before.rooms, p, types, (p, id));
    LastRoomKeys(types, id);
    ListedRoomsAre(types, id);
  }

  /** A stored room of a synchronised property is active exactly when its external id is not blank and an accepted room
      type of the PMS's listing contains it. */
  lemma RoomActiveIff(t: Tables, remote: seq<RemoteProperty>, connectionId: string, i: nat, id: string)
    requires LastFull(remote, i)
    ensures var rows, k := SyncAll(t, remote, connectionId).rooms, (remote[i].externalId, id);
            (k in rows && rows[k].active) <==>
                  id != "" && exists n :: 0 <= n < |remote[i].types.value| && ListsRoom(remote[i].types.value[n], id)
  {
    RoomRowAfter(t, remote, connectionId, i, id);
    LastRoomKeys(remote[i].types.value, id);
  }

  /** A room type the store rejects costs its rooms their place: a room the PMS lists only there is retired. */
  lemma RejectedTypeRetiresItsRooms(t: Tables, remote: seq<RemoteProperty>, connectionId: string, i: nat, n: nat,
                                    id: string)
    requires LastFull(remote, i) && n < |remote[i].types.value|
    requires exists j :: 0 <= j < |remote[i].types.value[n].rooms| && remote[i].types.value[n].rooms[j].externalId == id
    requires forall m :: 0 <= m < |remote[i].types.value| && remote[i].types.value[m].accepted ==>
               !ListsRoom(remote[i].types.value[m], id)
    ensures var rows, k := SyncAll(t, remote, connectionId).rooms, (remote[i].externalId, id);
            k in rows ==> !rows[k].active
    ensures !remote[i].types.value[n].accepted
  {
    RoomActiveIff(t, remote, connectionId, i, id);
    assert ListsRoom(remote[i].types.value[n], id) <==> remote[i].types.value[n].accepted;
  }

  lemma TypeRowAfter(t: Tables, remote: seq<RemoteProperty>, connectionId: string, i: nat, code: string)
    requires LastFull(remote, i)
    ensures var p, types := remote[i].externalId, remote[i].types.value;
            var rows := SyncAll(t, remote, connectionId).types;
            var before := SyncAll(t, remote[..i], connectionId).types;
            && ((p, code) in rows <==> (p, code) in before || LastType(types, code).Some?)
            && ((p, code) in rows ==>
                  if LastType(types, code).Some? then rows[(p, code)] == TypeRowOf(LastType(types, code).value)
                  else
                    var row := before[(p, code)];
                    var key := ListingKey(row.externalId, code);
                    rows[(p, code)] == row.(active := row.active && (key == "" || key in ListedTypes(types))))
  {
    var p, types := remote[i].externalId, remote[i].types.value;
    assert remote[..i + 1][..i] == remote[..i];
    LaterPropertiesKeepRows(t, remote, connectionId, i, (p, code));
    WrittenTypeAt(SyncAll(t, remote[..i], connectionId).types, p, types, (p, code));
    LastTypeKeys(types, code);
    if LastType(types, code).Some? {
      var last := LastType(types, code).value;
      var n :| 0 <= n < |types| && types[n] == last;
      assert ListingKey(last.externalId, code) == ListingKey(types[n].externalId, types[n].code);
    }
  }

  /** Every active room type of a synchronised property has a blank key or one the PMS listed, and every accepted room
      type of the listing has an active row. */
  lemma ActiveTypesAreListed(t: Tables, remote: seq<RemoteProperty>, connectionId: string, i: nat, code: string)
    requires LastFull(remote, i)
    ensures var rows, k := SyncAll(t, remote, connectionId).types, (remote[i].externalId, code);
            && (k in rows && rows[k].active ==>
                  ListingKey(rows[k].externalId, code) == ""
                      || ListingKey(rows[k].externalId, code) in ListedTypes(remote[i].types.value))
            && (LastType(remote[i].types.value, code).Some? ==> k in rows && rows[k].active)
  {
    TypeRowAfter(t, remote, connectionId, i, code);
    var types := remote[i].types.value;
    LastTypeKeys(types, code);
    if LastType(types, code).Some? {
      var last := LastType(types, code).value;
      var n :| 0 <= n < |types| && types[n] == last;
      assert ListingKey(last.externalId, code) == ListingKey(types[n].externalId, types[n].code);
    }
  }

  /** Which rows stay active for a listed external id: those the sync wrote with it, and those that already had it under
      a code the listing no longer uses. A room type whose code changed at the PMS therefore stays active twice. */
  lemma ActiveRowsOfListedId(t: Tables, remote: seq<RemoteProperty>, connectionId: string, i: nat, ext: string,
                             code: string)
    requires LastFull(remote, i) && ext != "" && ext in ListedTypes(remote[i].types.value)
    ensures var p, types := remote[i].externalId, remote[i].types.value;
            var rows, before := SyncAll(t, remote, connectionId).types, SyncAll(t, remote[..i], connectionId).types;
            ((p, code) in rows && rows[(p, code)].active && rows[(p, code)].externalId == ext) <==>
              if LastType(types, code).Some? then LastType(types, code).value.externalId == ext
              else (p, code) in before && before[(p, code)].active && before[(p, code)].externalId == ext
  {
    TypeRowAfter(t, remote, connectionId, i, code);
  }

  /** A room type whose code changed at the PMS stays active twice: under the code it had, which is no longer listed,
      and under the one it has now. */
  lemma RenamedTypeStaysTwice(t: Tables, remote: seq<RemoteProperty>, connectionId: string, i: nat, ext: string,
                              was: string, now: string)
    requires LastFull(remote, i) && ext != "" && ext in ListedTypes(remote[i].types.value) && was != now
    requires LastType(remote[i].types.value, was).None?
    requires var last := LastType(remote[i].types.value, now); last.Some? && last.value.externalId == ext
    requires var p, before := remote[i].externalId, SyncAll(t, remote[..i], connectionId).types;
             (p, was) in before && before[(p, was)].active && before[(p, was)].externalId == ext
    ensures var p, rows := remote[i].externalId, SyncAll(t, remote, connectionId).types;
            forall code :: code in {was, now} ==>
              (p, code) in rows && rows[(p, code)].active && rows[(p, code)].externalId == ext
  {
    ActiveRowsOfListedId(t, remote, connectionId, i, ext, was);
    ActiveRowsOfListedId(t, remote, connectionId, i, ext, now);
  }

  // ---------------------------------------------------------------- a second sync

  /** One cell of a table: its row, if the key is there. */
  function Cell<K, V>(m: map<K, V>, k: K): Option<V> {
    if k in m then Some(m[k]) else None
  }

  lemma SameCells<K, V>(a: map<K, V>, b: map<K, V>)
    requires forall k :: Cell(a, k) == Cell(b, k)
    ensures a == b
  {
    forall k: K ensures (k in a <==> k in b) && (k in a ==> a[k] == b[k]) {
      assert Cell(a, k) == Cell(b, k);
    }
  }

  predicate Touches(rp: RemoteProperty, k: Key) {
    !Skipped(rp) && rp.types.Some? && k.0 == rp.externalId
  }

  /** What one property's synchronisation does to a single room-type cell. */
  function TypeCell(cell: Option<TypeRow>, rp: RemoteProperty, k: Key): Option<TypeRow> {
    if !Touches(rp, k) then cell
    else
      var last := LastType(rp.types.value, k.1);
      var row := if last.Some? then Some(TypeRowOf(last.value)) else cell;
      if row.None? then None
      else
        var key := ListingKey(row.value.externalId, k.1);
        if rp.typesListable && key != "" && key !in ListedTypes(rp.types.value) then Some(row.value.(active := false))
           else row
  }

  function RoomCell(cell: Option<RoomRow>, rp: RemoteProperty, k: Key): Option<RoomRow> {
    if !Touches(rp, k) then cell
    else
      var last := LastRoom(rp.types.value, k.1);
      var row := if last.Some? then last else cell;
      if row.None? then None
      else if rp.roomsListable && k.1 !in ListedRooms(rp.types.value) then Some(row.value.(active := false)) else row
  }

  lemma SyncOneCells(t: Tables, rp: RemoteProperty, connectionId: string, k: Key)
    ensures Cell(SyncOne(t, rp, connectionId).types, k) == TypeCell(Cell(t.types, k), rp, k)
    ensures Cell(SyncOne(t, rp, connectionId).rooms, k) == RoomCell(Cell(t.rooms, k), rp, k)
  {
    if !Skipped(rp) && rp.types.Some? {
      WrittenTypeAt(t.types, rp.externalId, rp.types.value, k);
      WrittenRoomAt(t.rooms, rp.externalId, rp.types.value, k);
    }
  }

  /** A cell after a whole listing, the properties folded over it in order. */
  function TypeFold(cell: Option<TypeRow>, remote: seq<RemoteProperty>, k: Key): Option<TypeRow> {
    if remote == [] then cell
    else TypeCell(TypeFold(cell, remote[..|remote| - 1], k), remote[|remote| - 1], k)
  }

  function RoomFold(cell: Option<RoomRow>, remote: seq<RemoteProperty>, k: Key): Option<RoomRow> {
    if remote == [] then cell
    else RoomCell(RoomFold(cell, remote[..|remote| - 1], k), remote[|remote| - 1], k)
  }

  function PropFold(cell: Option<PropertyRow>, remote: seq<RemoteProperty>, connectionId: string, id: string)
    : Option<PropertyRow>
  {
    if remote == [] then cell
    else
      var rp := remote[|remote| - 1];
      if !Skipped(rp) && rp.externalId == id then Some(PropertyRowOf(rp, connectionId))
      else PropFold(cell, remote[..|remote| - 1], connectionId, id)
  }

  lemma {:induction false} SyncAllCells(t: Tables, remote: seq<RemoteProperty>, connectionId: string, k: Key)
    ensures var u := SyncAll(t, remote, connectionId);
            && Cell(u.types, k) == TypeFold(Cell(t.types, k), remote, k)
            && Cell(u.rooms, k) == RoomFold(Cell(t.rooms, k), remote, k)
            && Cell(u.props, k.0) == PropFold(Cell(t.props, k.0), remote, connectionId, k.0)
  {
    if remote != [] {
      var init, rp := remote[..|remote| - 1], remote[|remote| - 1];
      SyncAllCells(t, init, connectionId, k);
      SyncOneCells(SyncAll(t, init, connectionId), rp, connectionId, k);
    }
  }

  /** Some property of the listing writes the cell. */
  predicate WritesType(remote: seq<RemoteProperty>, k: Key) {
    exists i :: 0 <= i < |remote| && Touches(remote[i], k) && LastType(remote[i].types.value, k.1).Some?
  }

  predicate WritesRoom(remote: seq<RemoteProperty>, k: Key) {
    exists i :: 0 <= i < |remote| && Touches(remote[i], k) && LastRoom(remote[i].types.value, k.1).Some?
  }

  /** No property of the listing retires a room type with this external id from a cell it does not write. */
  predicate SparesType(remote: seq<RemoteProperty>, externalId: string, k: Key) {
    var key := ListingKey(externalId, k.1);
    forall i :: 0 <= i < |remote| && Touches(remote[i], k) && remote[i].typesListable ==>
      key == "" || key in ListedTypes(remote[i].types.value)
  }

  predicate SparesRoom(remote: seq<RemoteProperty>, k: Key) {
    forall i :: 0 <= i < |remote| && Touches(remote[i], k) && remote[i].roomsListable ==>
      k.1 in ListedRooms(remote[i].types.value)
  }

  /** Over a whole listing a room-type cell is either determined by the listing alone, or at most retired, by a test on
      the external id it keeps. */
  lemma {:induction false} TypeFoldIs(c: Option<TypeRow>, d: Option<TypeRow>, remote: seq<RemoteProperty>, k: Key)
    ensures WritesType(remote, k) ==> TypeFold(c, remote, k) == TypeFold(d, remote, k)
    ensures !WritesType(remote, k) ==>
              TypeFold(c, remote, k) ==
                if c.None? then None
                else Some(c.value.(active := c.value.active && SparesType(remote, c.value.externalId, k)))
  {
    if remote != [] {
      var init, rp := remote[..|remote| - 1], remote[|remote| - 1];
      TypeFoldIs(c, d, init, k);
      assert forall i :: 0 <= i < |init| ==> remote[i] == init[i];
    }
  }

  lemma {:induction false} RoomFoldIs(c: Option<RoomRow>, d: Option<RoomRow>, remote: seq<RemoteProperty>, k: Key)
    ensures WritesRoom(remote, k) ==> RoomFold(c, remote, k) == RoomFold(d, remote, k)
    ensures !WritesRoom(remote, k) ==>
              RoomFold(c, remote, k) ==
                if c.None? then None else Some(c.value.(active := c.value.active && SparesRoom(remote, k)))
  {
    if remote != [] {
      var init, rp := remote[..|remote| - 1], remote[|remote| - 1];
      RoomFoldIs(c, d, init, k);
      assert forall i :: 0 <= i < |init| ==> remote[i] == init[i];
    }
  }

  lemma {:induction false} PropFoldTwice(
      c: Option<PropertyRow>, d: Option<PropertyRow>, remote: seq<RemoteProperty>, connectionId: string, id: string)
    ensures PropFold(c, remote, connectionId, id) == PropFold(d, remote, connectionId, id)
            || (PropFold(c, remote, connectionId, id) == c && PropFold(d, remote, connectionId, id) == d)
  {
    if remote != [] {
      PropFoldTwice(c, d, remote[..|remote| - 1], connectionId, id);
    }
  }

  /** Synchronising any catalog again changes no row: blank ids, rejected items, unanswered listings and properties
      listed several times included. */
  lemma SecondSyncChangesNothing(t: Tables, remote: seq<RemoteProperty>, connectionId: string)
    ensures SyncAll(SyncAll(t, remote, connectionId), remote, connectionId) == SyncAll(t, remote, connectionId)
  {
    var once := SyncAll(t, remote, connectionId);
    var twice := SyncAll(once, remote, connectionId);
    forall k: Key
      ensures Cell(twice.types, k) == Cell(once.types, k) && Cell(twice.rooms, k) == Cell(once.rooms, k)
      ensures Cell(twice.props, k.0) == Cell(once.props, k.0)
    {
      SyncAllCells(t, remote, connectionId, k);
      SyncAllCells(once, remote, connectionId, k);
      TypeFoldIs(Cell(t.types, k), Cell(once.types, k), remote, k);
      TypeFoldIs(Cell(once.types, k), Cell(t.types, k), remote, k);
      RoomFoldIs(Cell(t.rooms, k), Cell(once.rooms, k), remote, k);
      RoomFoldIs(Cell(once.rooms, k), Cell(t.rooms, k), remote, k);
      PropFoldTwice(Cell(t.props, k.0), Cell(once.props, k.0), remote, connectionId, k.0);
    }
    forall id: string ensures Cell(twice.props, id) == Cell(once.props, id) {
      var k: Key := (id, "");
      assert Cell(twice.props, k.0) == Cell(once.props, k.0);
    }
    SameCells(twice.types, once.types);
    SameCells(twice.rooms, once.rooms);
    SameCells(twice.props, once.props);
  }

  // ---------------------------------------------------------------- what the rows say, and the counts

  /** What a row says of its last listing: the listing's own values, with the stated defaults. */
  lemma RowsSay(t: RemoteType, rp: RemoteProperty, connectionId: string)
    ensures CodeOf(t) == (if t.code != "" then t.code else t.externalId)
    ensures var row := TypeRowOf(t);
            && row.externalId == t.externalId && row.name == t.name && row.active
            && row.capacity == (if t.maxOccupancy > 0 then t.maxOccupancy else 2)
            && row.baseOccupancy == (if t.baseOccupancy > 0 then t.baseOccupancy else row.capacity)
    ensures var row := PropertyRowOf(rp, connectionId);
            && row.name == rp.name && row.connectionId == connectionId && row.active
            && row.currency == (if rp.currency != "" then rp.currency else "USD")
            && row.timezone == (if rp.timezone != "" then rp.timezone else "UTC")
  {
  }

  /** What ends a whole sync: a rejected room under an accepted type of a property that is synchronised. */
  lemma AbortsIff(rp: RemoteProperty)
    ensures Aborts(rp) <==>
              exists i, j ::
                && Listing(rp).Some? && 0 <= i < |Listing(rp).value| && Listing(rp).value[i].accepted
                && 0 <= j < |Listing(rp).value[i].rooms| && !Listing(rp).value[i].rooms[j].accepted
  {
    if Aborts(rp) {
      var i :| 0 <= i < |rp.types.value| && rp.types.value[i].accepted && !AllAccepted(rp.types.value[i].rooms);
      var j :| 0 <= j < |rp.types.value[i].rooms| && !rp.types.value[i].rooms[j].accepted;
      assert Listing(rp).value[i].accepted && !Listing(rp).value[i].rooms[j].accepted;
    }
  }

  /** The last listing of a code wins. */
  lemma {:induction false} LastTypeWins(types: seq<RemoteType>, code: string, i: nat)
    requires i < |types| && types[i].accepted && CodeOf(types[i]) == code
    requires forall j :: i < j < |types| && types[j].accepted ==> CodeOf(types[j]) != code
    ensures LastType(types, code) == Some(types[i])
  {
    if i < |types| - 1 {
      var init := types[..|types| - 1];
      assert init[i] == types[i];
      LastTypeWins(init, code, i);
    }
  }

  lemma {:induction false} LastInWins(rooms: seq<RemoteRoom>, id: string, j: nat)
    requires j < |rooms| && rooms[j].externalId == id
    requires forall k :: j < k < |rooms| ==> rooms[k].externalId != id
    ensures LastIn(rooms, id) == Some(rooms[j])
  {
    if j < |rooms| - 1 {
      var init := rooms[..|rooms| - 1];
      assert init[j] == rooms[j];
      LastInWins(init, id, j);
    }
  }

  /** The last room listed under an id wins, with the code of its type. */
  lemma {:induction false} LastRoomWins(types: seq<RemoteType>, id: string, i: nat, j: nat)
    requires i < |types| && types[i].accepted && j < |types[i].rooms| && types[i].rooms[j].externalId == id
    requires forall k :: j < k < |types[i].rooms| ==> types[i].rooms[k].externalId != id
    requires forall k :: i < k < |types| ==> !ListsRoom(types[k], id)
    ensures LastRoom(types, id) == Some(RoomRow(CodeOf(types[i]), types[i].rooms[j].name, true))
  {
    var last := types[|types| - 1];
    if i < |types| - 1 {
      var init := types[..|types| - 1];
      assert init[i] == types[i];
      assert forall k :: i < k < |init| ==> init[k] == types[k];
      LastInKeys(last.rooms, id);
      assert !ListsRoom(last, id);
      LastRoomWins(init, id, i, j);
    } else {
      LastInWins(last.rooms, id, j);
    }
  }

  lemma {:induction false} SyncedCounted(remote: seq<RemoteProperty>)
    ensures CountSynced(remote) == |set i | 0 <= i < |remote| && remote[i].externalId != "" && remote[i].accepted|
  {
    var synced := set i | 0 <= i < |remote| && remote[i].externalId != "" && remote[i].accepted;
    if remote == [] {
      assert synced == {};
    } else {
      var init, last := remote[..|remote| - 1], |remote| - 1;
      SyncedCounted(init);
      var before := set i | 0 <= i < |init| && init[i].externalId != "" && init[i].accepted;
      assert synced == before + if Skipped(remote[last]) then {} else {last};
    }
  }

  /** The accepted room types that were listed, by position. */
  function ListedPositions(remote: seq<RemoteProperty>): set<(int, int)> {
    set i, n | 0 <= i < |remote| && Listing(remote[i]).Some? && 0 <= n < |Listing(remote[i]).value|
               && Listing(remote[i]).value[n].accepted :: (i, n)
  }

  function AcceptedPositions(types: seq<RemoteType>): set<int> {
    set n | 0 <= n < |types| && types[n].accepted
  }

  lemma OneMoreListing(remote: seq<RemoteProperty>)
    requires remote != []
    ensures var init, last := remote[..|remote| - 1], |remote| - 1;
            var types := if Listing(remote[last]).Some? then Listing(remote[last]).value else [];
            ListedPositions(remote) == ListedPositions(init) + Paired(last, AcceptedPositions(types))
  {
    var init, last := remote[..|remote| - 1], |remote| - 1;
    assert forall i :: 0 <= i < last ==> init[i] == remote[i];
  }

  lemma {:induction false} TypesCounted(remote: seq<RemoteProperty>)
    ensures CountTypes(remote) == |ListedPositions(remote)|
  {
    if remote == [] {
      assert ListedPositions(remote) == {};
    } else {
      var init, last := remote[..|remote| - 1], |remote| - 1;
      var types := if Listing(remote[last]).Some? then Listing(remote[last]).value else [];
      TypesCounted(init);
      OneMoreListing(remote);
      PairsCounted(last, types);
      assert ListedPositions(init) !! Paired(last, AcceptedPositions(types));
    }
  }

  /** The reported numbers: properties that were synchronised, and accepted room types among those that were listed. */
  lemma CountsSay(remote: seq<RemoteProperty>)
    ensures CountSynced(remote) == |set i | 0 <= i < |remote| && remote[i].externalId != "" && remote[i].accepted|
    ensures CountTypes(remote) == |ListedPositions(remote)|
  {
    SyncedCounted(remote);
    TypesCounted(remote);
  }

  /** The room types a property's listing brought, if it was synchronised and the PMS answered. */
  function Listing(rp: RemoteProperty): Option<seq<RemoteType>> {
    if rp.externalId != "" && rp.accepted then rp.types else None
  }

  function Paired(i: int, s: set<int>): set<(int, int)> {
    set n | n in s :: (i, n)
  }

  lemma {:induction false} PairsCounted(i: int, types: seq<RemoteType>)
    ensures |Paired(i, AcceptedPositions(types))| == CountAccepted(types)
  {
    var here := Paired(i, AcceptedPositions(types));
    if types == [] {
      assert here == {};
    } else {
      var init, n := types[..|types| - 1], |types| - 1;
      PairsCounted(i, init);
      assert here == Paired(i, AcceptedPositions(init)) + if types[n].accepted then {(i, n)} else {};
    }
  }
}
