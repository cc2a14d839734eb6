/** Catalog reconciliation: pulling the PMS's properties, room types and rooms into the local tables and retiring what
    the PMS no longer lists.

    A property is named by its external id and a room type by its code, which are the unique keys of their tables
    inside one organization, so generated row ids do not appear. Each remote item carries the store's answer to its
    upsert (`accepted`), and each property the answers to the two listings. */
module Catalog {
  import opened Results

  datatype RemoteRoom = RemoteRoom(externalId: string, name: string, accepted: bool)

  datatype RemoteType = RemoteType(externalId: string, code: string, name: string, maxOccupancy: int,
                                   baseOccupancy: int,
                                   rooms: seq<RemoteRoom>, accepted: bool)

  /** `types` is the PMS's room-type listing, if it answered. */
  datatype RemoteProperty = RemoteProperty(externalId: string, name: string, currency: string, timezone: string,
                                           accepted: bool,
                                           types: Option<seq<RemoteType>>, typesListable: bool, roomsListable: bool)

  datatype PropertyRow = PropertyRow(name: string, currency: string, timezone: string, connectionId: string,
                                     active: bool)
  datatype TypeRow = TypeRow(externalId: string, name: string, capacity: int, baseOccupancy: int, active: bool)
  datatype RoomRow = RoomRow(typeCode: string, name: string, active: bool)

  type Key = (string, string)   // property, then room-type code or room external id

  datatype Tables = Tables(props: map<string, PropertyRow>, types: map<Key, TypeRow>, rooms: map<Key, RoomRow>)

  function CodeOf(t: RemoteType): string {
    if t.code == "" then t.externalId else t.code
  }

  function TypeRowOf(t: RemoteType): TypeRow {
    var capacity := if t.maxOccupancy <= 0 then 2 else t.maxOccupancy;
    TypeRow(t.externalId, t.name, capacity, if t.baseOccupancy <= 0 then capacity else t.baseOccupancy, true)
  }

  function PropertyRowOf(rp: RemoteProperty, connectionId: string): PropertyRow {
    PropertyRow(rp.name, if rp.currency == "" then "USD" else rp.currency,
                if rp.timezone == "" then "UTC" else rp.timezone, connectionId, true)
  }

  /** The key under which a stored or remote room type is looked for in the PMS's listing. */
  function ListingKey(externalId: string, code: string): string {
    if externalId == "" then code else externalId
  }

  // ---------------------------------------------------------------- what a sync should leave behind

  /** The last accepted room type with a code. */
  function LastType(types: seq<RemoteType>, code: string): Option<RemoteType> {
    if types == [] then None
    else
      var t := types[|types| - 1];
      if t.accepted && CodeOf(t) == code then Some(t) else LastType(types[..|types| - 1], code)
  }

  function LastIn(rooms: seq<RemoteRoom>, id: string): Option<RemoteRoom> {
    if rooms == [] then None
    else if rooms[|rooms| - 1].externalId == id then Some(rooms[|rooms| - 1]) else LastIn(rooms[..|rooms| - 1], id)
  }

  /** The row the last listing of a room leaves, among the rooms of accepted room types. */
  function LastRoom(types: seq<RemoteType>, id: string): Option<RoomRow> {
    if types == [] then None
    else
      var t := types[|types| - 1];
      if t.accepted && LastIn(t.rooms, id).Some? then Some(RoomRow(CodeOf(t), LastIn(t.rooms, id).value.name, true))
      else LastRoom(types[..|types| - 1], id)
  }

  /** The listing keys of the accepted room types. */
  function ListedTypes(types: seq<RemoteType>): set<string> {
    set i | 0 <= i < |types| && types[i].accepted && ListingKey(types[i].externalId, types[i].code) != ""
      :: ListingKey(types[i].externalId, types[i].code)
  }

  /** The non-blank room ids under accepted room types. */
  function ListedRooms(types: seq<RemoteType>): set<string> {
    set i, j | 0 <= i < |types| && types[i].accepted && 0 <= j < |types[i].rooms| && types[i].rooms[j].externalId != ""
      :: types[i].rooms[j].externalId
  }

  function WrittenTypes(m: map<Key, TypeRow>, p: string, types: seq<RemoteType>): map<Key, TypeRow> {
    map k | k in m.Keys + (set i | 0 <= i < |types| && types[i].accepted :: (p, CodeOf(types[i]))) ::
      if k.0 == p && LastType(types, k.1).Some? then TypeRowOf(LastType(types, k.1).value)
      else if k in m then m[k] else TypeRow("", "", 0, 0, false)
  }

  function WrittenRooms(m: map<Key, RoomRow>, p: string, types: seq<RemoteType>): map<Key, RoomRow> {
    map k | k in m.Keys
        + (set i, j | 0 <= i < |types| && types[i].accepted
           && 0 <= j < |types[i].rooms| :: (p, types[i].rooms[j].externalId)) ::
      if k.0 == p && LastRoom(types, k.1).Some? then LastRoom(types, k.1).value
      else if k in m then m[k] else RoomRow("", "", false)
  }

  function RetiredTypes(m: map<Key, TypeRow>, p: string, listed: set<string>): map<Key, TypeRow> {
    map k | k in m ::
      if k.0 == p && ListingKey(m[k].externalId, k.1) != "" && ListingKey(m[k].externalId, k.1) !in listed
         then m[k].(active := false) else m[k]
  }

  function RetiredRooms(m: map<Key, RoomRow>, p: string, listed: set<string>): map<Key, RoomRow> {
    map k | k in m :: if k.0 == p && k.1 !in listed then m[k].(active := false) else m[k]
  }

  predicate Skipped(rp: RemoteProperty) {
    rp.externalId == "" || !rp.accepted
  }

  /** A room the store rejects ends the whole sync with an error. */
  predicate Aborts(rp: RemoteProperty) {
    && !Skipped(rp) && rp.types.Some?
    && exists i :: 0 <= i < |rp.types.value| && rp.types.value[i].accepted && !AllAccepted(rp.types.value[i].rooms)
  }

  predicate AllAccepted(rooms: seq<RemoteRoom>) {
    forall j :: 0 <= j < |rooms| ==> rooms[j].accepted
  }

  /** The tables after one property has been synchronised. */
  function SyncOne(t: Tables, rp: RemoteProperty, connectionId: string): Tables {
    if Skipped(rp) then t
    else
      var props := t.props[rp.externalId := PropertyRowOf(rp, connectionId)];
      if rp.types.None? then t.(props := props)
      else
        var p, types := rp.externalId, rp.types.value;
        var written, placed := WrittenTypes(t.types, p, types), WrittenRooms(t.rooms, p, types);
        Tables(props,
               if rp.typesListable then RetiredTypes(written, p, ListedTypes(types)) else written,
               if rp.roomsListable then RetiredRooms(placed, p, ListedRooms(types)) else placed)
  }

  function SyncAll(t: Tables, remote: seq<RemoteProperty>, connectionId: string): Tables {
    if remote == [] then t
       else SyncOne(SyncAll(t, remote[..|remote| - 1], connectionId), remote[|remote| - 1], connectionId)
  }

  function CountSynced(remote: seq<RemoteProperty>): nat {
    if remote == [] then 0 else CountSynced(remote[..|remote| - 1]) + if Skipped(remote[|remote| - 1]) then 0 else 1
  }

  function CountAccepted(types: seq<RemoteType>): nat {
    if types == [] then 0 else CountAccepted(types[..|types| - 1]) + if types[|types| - 1].accepted then 1 else 0
  }

  function CountTypes(remote: seq<RemoteProperty>): nat {
    if remote == [] then 0
    else
      var rp := remote[|remote| - 1];
      CountTypes(remote[..|remote| - 1]) + if Skipped(rp) || rp.types.None? then 0 else CountAccepted(rp.types.value)
  }

  // ---------------------------------------------------------------- the synchronising service

  class Service {
    var props: map<string, PropertyRow>
    var types: map<Key, TypeRow>
    var rooms: map<Key, RoomRow>

    function View(): Tables
      reads this
    {
      Tables(props, types, rooms)
    }

    method UpsertType(p: string, t: RemoteType)
      modifies this`types
      ensures types == old(types)[(p, CodeOf(t)) := TypeRowOf(t)]
    {
      var code := t.code;
      if code == "" {
        code := t.externalId;
      }
      var capacity := t.maxOccupancy;
      if capacity <= 0 {
        capacity := 2;
      }
      var base := t.baseOccupancy;
      if base <= 0 {
        base := capacity;
      }
      types := types[(p, code) := TypeRow(t.externalId, t.name, capacity, base, true)];
    }

    /** Upserts the rooms of one accepted room type; the first rejected room stops it. */
    method UpsertRooms(p: string, t: RemoteType, before: seq<RemoteType>, listed: set<string>,
                       ghost base: map<Key, RoomRow>)
      returns (ok: bool, active: set<string>)
      requires t.accepted && rooms == WrittenRooms(base, p, before) && listed == ListedRooms(before)
      modifies this`rooms
      ensures ok <==> AllAccepted(t.rooms)
      ensures ok ==> rooms == WrittenRooms(base, p, before + [t]) && active == ListedRooms(before + [t])
      ensures OthersKept(base, rooms, p)
    {
      active := listed;
      WrittenRoomsKeep(base, p, before);
      ghost var done := t.(rooms := []);
      NoRoomsAdded(base, p, before, done);
      for j := 0 to |t.rooms|
        invariant done == t.(rooms := t.rooms[..j]) && AllAccepted(t.rooms[..j])
        invariant rooms == WrittenRooms(base, p, before + [done])
        invariant active == ListedRooms(before + [done])
        invariant OthersKept(base, rooms, p)
      {
        var rm := t.rooms[j];
        if rm.externalId != "" {
          active := active + {rm.externalId};
        }
        if !rm.accepted {
          return false, active;
        }
        rooms := rooms[(p, rm.externalId) := RoomRow(CodeOf(t), rm.name, true)];
        ghost var next := t.(rooms := t.rooms[..j + 1]);
        OneMoreRoom(base, p, before, done, next, rm);
        OneMoreListed(before, done, next, rm);
        WrittenRoomsKeep(base, p, before + [next]);
        done := t.(rooms := t.rooms[..j + 1]);
      }
      assert t.rooms[..|t.rooms|] == t.rooms;
      return true, active;
    }

    /** Upserts one listed room type and its rooms; `before` are the types already dealt with. */
    method UpsertOne(p: string, t: RemoteType, before: seq<RemoteType>, listed: set<string>, placed: set<string>,
                     ghost bt: map<Key, TypeRow>, ghost br: map<Key, RoomRow>)
      returns (ok: bool, activeTypes: set<string>, activeRooms: set<string>)
      requires types == WrittenTypes(bt, p, before) && rooms == WrittenRooms(br, p, before)
      requires listed == ListedTypes(before) && placed == ListedRooms(before)
      modifies this`types, this`rooms
      ensures ok <==> (t.accepted ==> AllAccepted(t.rooms))
      ensures types == WrittenTypes(bt, p, before + [t]) && OthersKept(br, rooms, p)
      ensures ok ==> rooms == WrittenRooms(br, p, before + [t])
      ensures ok ==> activeTypes == ListedTypes(before + [t]) && activeRooms == ListedRooms(before + [t])
    {
      ok, activeTypes, activeRooms := true, listed, placed;
      OneMoreType(bt, p, before, t);
      OneMoreTypeListed(before, t);
      if !t.accepted {
        NoRoomsAdded(br, p, before, t);
        WrittenRoomsKeep(br, p, before);
        return;
      }
      UpsertType(p, t);
      ok, activeRooms := UpsertRooms(p, t, before, placed, br);
      if t.externalId != "" {
        activeTypes := activeTypes + {t.externalId};
      } else if t.code != "" {
        activeTypes := activeTypes + {t.code};
      }
    }

    /** Upserts the room types of one property and their rooms, collecting what the PMS listed. */
    method UpsertListing(p: string, remote: seq<RemoteType>)
      returns (ok: bool, activeTypes: set<string>, activeRooms: set<string>, saved: nat)
      modifies this`types, this`rooms
      ensures ok <==> forall i :: 0 <= i < |remote| && remote[i].accepted ==> AllAccepted(remote[i].rooms)
      ensures ok ==> types == WrittenTypes(old(types), p, remote) && rooms == WrittenRooms(old(rooms), p, remote)
      ensures ok ==>
                && activeTypes == ListedTypes(remote) && activeRooms == ListedRooms(remote)
                && saved == CountAccepted(remote)
      ensures OthersKept(old(types), types, p) && OthersKept(old(rooms), rooms, p)
    {
      ok, activeTypes, activeRooms, saved := true, {}, {}, 0;
      NothingWritten(types, rooms, p);
      for i := 0 to |remote|
        invariant ok && forall k :: 0 <= k < i && remote[k].accepted ==> AllAccepted(remote[k].rooms)
        invariant types == WrittenTypes(old(types), p, remote[..i])
        invariant rooms == WrittenRooms(old(rooms), p, remote[..i])
        invariant activeTypes == ListedTypes(remote[..i]) && activeRooms == ListedRooms(remote[..i])
                  && saved == CountAccepted(remote[..i])
      {
        assert remote[..i + 1] == remote[..i] + [remote[i]] && remote[..i + 1][..i] == remote[..i];
        ok, activeTypes, activeRooms := UpsertOne(p, remote[i], remote[..i], activeTypes, activeRooms, old(types),
                                                  old(rooms));
        if !ok {
          WrittenTypesKeep(old(types), p, remote[..i + 1]);
          return;
        }
        if remote[i].accepted {
          saved := saved + 1;
        }
      }
      assert remote[..|remote|] == remote;
      WrittenTypesKeep(old(types), p, remote);
      WrittenRoomsKeep(old(rooms), p, remote);
    }

    /** Deactivates the active room types of a property that the PMS did not list. */
    method RetireTypes(p: string, listed: set<string>)
      modifies this`types
      ensures types == RetiredTypes(old(types), p, listed)
    {
      var todo := set k | k in types && k.0 == p && types[k].active;
      ghost var all := todo;
      while todo != {}
        invariant todo <= all && types.Keys == old(types).Keys
        invariant forall k :: k in types ==>
                    types[k] == if k in all - todo then RetiredTypes(old(types), p, listed)[k] else old(types)[k]
        decreases |todo|
      {
        var k :| k in todo;
        todo := todo - {k};
        var row := types[k];
        var key := row.externalId;
        if key == "" {
          key := k.1;
        }
        if key != "" && key !in listed && row.active {
          types := types[k := row.(active := false)];
        }
      }
      assert forall k :: k in types ==> types[k] == RetiredTypes(old(types), p, listed)[k];
    }

    /** Deactivates the active rooms of a property that the PMS did not list, and those without an external id. */
    method RetireRooms(p: string, listed: set<string>)
      modifies this`rooms
      ensures rooms == RetiredRooms(old(rooms), p, listed)
    {
      var todo := set k | k in rooms && k.0 == p && rooms[k].active;
      ghost var all := todo;
      while todo != {}
        invariant todo <= all && rooms.Keys == old(rooms).Keys
        invariant forall k :: k in rooms ==>
                    rooms[k] == if k in all - todo then RetiredRooms(old(rooms), p, listed)[k] else old(rooms)[k]
        decreases |todo|
      {
        var k :| k in todo;
        todo := todo - {k};
        if k.1 !in listed && rooms[k].active {
          rooms := rooms[k := rooms[k].(active := false)];
        }
      }
      assert forall k :: k in rooms ==> rooms[k] == RetiredRooms(old(rooms), p, listed)[k];
    }

    /** `SyncCatalog`, from the PMS's property listing on. */
    method SyncCatalog(remote: seq<RemoteProperty>, connectionId: string)
      returns (ok: bool, propsSynced: nat, typesSynced: nat)
      modifies this
      ensures ok <==> forall i :: 0 <= i < |remote| ==> !Aborts(remote[i])
      ensures ok ==> View() == SyncAll(old(View()), remote, connectionId)
      ensures ok ==> propsSynced == CountSynced(remote) && typesSynced == CountTypes(remote)
      ensures !ok ==>
                exists i ::
                  && 0 <= i < |remote| && Aborts(remote[i]) && (forall j :: 0 <= j < i ==> !Aborts(remote[j]))
                  && props == SyncAll(old(View()), remote[..i], connectionId).props
                                [remote[i].externalId := PropertyRowOf(remote[i], connectionId)]
                  && OthersKept(SyncAll(old(View()), remote[..i], connectionId).types, types, remote[i].externalId)
                  && OthersKept(SyncAll(old(View()), remote[..i], connectionId).rooms, rooms, remote[i].externalId)
    {
      propsSynced, typesSynced := 0, 0;
      for i := 0 to |remote|
        invariant forall j :: 0 <= j < i ==> !Aborts(remote[j])
        invariant View() == SyncAll(old(View()), remote[..i], connectionId)
        invariant propsSynced == CountSynced(remote[..i]) && typesSynced == CountTypes(remote[..i])
      {
        var rp := remote[i];
        assert remote[..i + 1][..i] == remote[..i] && remote[..i + 1][i] == rp;
        if rp.externalId == "" {
          continue;
        }
        if !rp.accepted {
          continue;
        }
        props := props[rp.externalId := PropertyRowOf(rp, connectionId)];
        propsSynced := propsSynced + 1;
        if rp.types.None? {
          continue;
        }
        var fine, activeTypes, activeRooms, saved := UpsertListing(rp.externalId, rp.types.value);
        if !fine {
          assert Aborts(remote[i]);
          return false, 0, 0;
        }
        typesSynced := typesSynced + saved;
        if rp.typesListable {
          RetireTypes(rp.externalId, activeTypes);
        }
        if rp.roomsListable {
          RetireRooms(rp.externalId, activeRooms);
        }
      }
      assert remote[..|remote|] == remote;
      return true, propsSynced, typesSynced;
    }
  }

  /** Rows of other properties are untouched and no row disappears. */
  ghost predicate OthersKept<V>(before: map<Key, V>, after: map<Key, V>, p: string) {
    && (forall k :: k in before ==> k in after)
    && (forall k :: k in after && k.0 != p ==> k in before && after[k] == before[k])
  }

  // ---------------------------------------------------------------- the loops, one item at a time

  lemma {:induction false} LastTypeKeys(types: seq<RemoteType>, code: string)
    ensures LastType(types, code).Some? <==>
              exists i :: 0 <= i < |types| && types[i].accepted && CodeOf(types[i]) == code
    ensures LastType(types, code).Some? ==>
              LastType(types, code).value in types && LastType(types, code).value.accepted
                  && CodeOf(LastType(types, code).value) == code
  {
    if types != [] {
      var init := types[..|types| - 1];
      LastTypeKeys(init, code);
      assert forall i :: 0 <= i < |init| ==> types[i] == init[i];
    }
  }

  lemma {:induction false} LastInKeys(rooms: seq<RemoteRoom>, id: string)
    ensures LastIn(rooms, id).Some? <==> exists j :: 0 <= j < |rooms| && rooms[j].externalId == id
  {
    if rooms != [] {
      var init := rooms[..|rooms| - 1];
      LastInKeys(init, id);
      assert forall j :: 0 <= j < |init| ==> rooms[j] == init[j];
    }
  }

  predicate ListsRoom(t: RemoteType, id: string) {
    t.accepted && exists j :: 0 <= j < |t.rooms| && t.rooms[j].externalId == id
  }

  lemma {:induction false} LastRoomKeys(types: seq<RemoteType>, id: string)
    ensures LastRoom(types, id).Some? <==> exists i :: 0 <= i < |types| && ListsRoom(types[i], id)
    ensures LastRoom(types, id).Some? ==> LastRoom(types, id).value.active
  {
    if types != [] {
      var init := types[..|types| - 1];
      LastRoomKeys(init, id);
      LastInKeys(types[|types| - 1].rooms, id);
      assert forall i :: 0 <= i < |init| ==> types[i] == init[i];
    }
  }

  lemma NothingWritten(types: map<Key, TypeRow>, rooms: map<Key, RoomRow>, p: string)
    ensures WrittenTypes(types, p, []) == types && WrittenRooms(rooms, p, []) == rooms
  {
  }

  lemma WrittenTypesKeep(m: map<Key, TypeRow>, p: string, types: seq<RemoteType>)
    ensures OthersKept(m, WrittenTypes(m, p, types), p)
  {
  }

  lemma WrittenRoomsKeep(m: map<Key, RoomRow>, p: string, types: seq<RemoteType>)
    ensures OthersKept(m, WrittenRooms(m, p, types), p)
  {
  }

  /** How the row maps look at one key. */
  lemma WrittenRoomAt(m: map<Key, RoomRow>, p: string, types: seq<RemoteType>, k: Key)
    ensures k in WrittenRooms(m, p, types) <==> k in m || (k.0 == p && LastRoom(types, k.1).Some?)
    ensures k in WrittenRooms(m, p, types) ==>
              WrittenRooms(m, p, types)[k] == if k.0 == p && LastRoom(types, k.1).Some? then LastRoom(types, k.1).value
                  else m[k]
  {
    LastRoomKeys(types, k.1);
    if k.0 == p && LastRoom(types, k.1).Some? {
      var i :| 0 <= i < |types| && ListsRoom(types[i], k.1);
      var j :| 0 <= j < |types[i].rooms| && types[i].rooms[j].externalId == k.1;
      assert k == (p, types[i].rooms[j].externalId);
    }
    if i, j :|
      0 <= i < |types| && types[i].accepted && 0 <= j < |types[i].rooms| && k == (p, types[i].rooms[j].externalId)
    {
      assert ListsRoom(types[i], k.1);
    }
  }

  lemma WrittenTypeAt(m: map<Key, TypeRow>, p: string, types: seq<RemoteType>, k: Key)
    ensures k in WrittenTypes(m, p, types) <==> k in m || (k.0 == p && LastType(types, k.1).Some?)
    ensures k in WrittenTypes(m, p, types) ==>
              WrittenTypes(m, p, types)[k] == if k.0 == p && LastType(types, k.1).Some?
                  then TypeRowOf(LastType(types, k.1).value) else m[k]
  {
    LastTypeKeys(types, k.1);
    if k.0 == p && LastType(types, k.1).Some? {
      var i :| 0 <= i < |types| && types[i].accepted && CodeOf(types[i]) == k.1;
      assert k == (p, CodeOf(types[i]));
    }
  }

  lemma OneMoreRoom(m: map<Key, RoomRow>, p: string, before: seq<RemoteType>, done: RemoteType, next: RemoteType,
                    rm: RemoteRoom)
    requires done.accepted && next == done.(rooms := done.rooms + [rm])
    ensures WrittenRooms(m, p, before + [next]) ==
              WrittenRooms(m, p, before + [done])[(p, rm.externalId) := RoomRow(CodeOf(done), rm.name, true)]
  {
    var left, right := WrittenRooms(m, p, before + [next]),
        WrittenRooms(m, p, before + [done])[(p, rm.externalId) := RoomRow(CodeOf(done), rm.name, true)];
    forall k: Key ensures (k in left <==> k in right) && (k in left ==> left[k] == right[k]) {
      WrittenRoomAt(m, p, before + [done], k);
      WrittenRoomAt(m, p, before + [next], k);
      LastOfOneMoreRoom(before, done, next, rm, k.1);
    }
  }

  lemma LastOfOneMoreRoom(before: seq<RemoteType>, done: RemoteType, next: RemoteType, rm: RemoteRoom, id: string)
    requires done.accepted && next == done.(rooms := done.rooms + [rm])
    ensures LastRoom(before + [next], id) == if id == rm.externalId then Some(RoomRow(CodeOf(done), rm.name, true))
            else LastRoom(before + [done], id)
  {
    var a, b := before + [done], before + [next];
    assert a[..|a| - 1] == before && b[..|b| - 1] == before;
    assert next.rooms[..|next.rooms| - 1] == done.rooms;
  }

  lemma OneMoreListed(before: seq<RemoteType>, done: RemoteType, next: RemoteType, rm: RemoteRoom)
    requires done.accepted && next == done.(rooms := done.rooms + [rm])
    ensures ListedRooms(before + [next]) ==
              ListedRooms(before + [done]) + (if rm.externalId != "" then {rm.externalId} else {})
  {
    forall id ensures id in ListedRooms(before + [next]) <==>
          id in ListedRooms(before + [done]) || (id == rm.externalId && id != "")
    {
      ListedRoomsAre(before + [done], id);
      ListedRoomsAre(before + [next], id);
      RoomListing(before, done, id);
      RoomListing(before, next, id);
      ListsOneMore(done, next, rm, id);
    }
  }

  lemma ListsOneMore(done: RemoteType, next: RemoteType, rm: RemoteRoom, id: string)
    requires done.accepted && next == done.(rooms := done.rooms + [rm])
    ensures ListsRoom(next, id) <==> ListsRoom(done, id) || id == rm.externalId
  {
    assert next.rooms[|done.rooms|] == rm;
    assert forall j :: 0 <= j < |done.rooms| ==> next.rooms[j] == done.rooms[j];
  }

  lemma RoomListing(before: seq<RemoteType>, t: RemoteType, id: string)
    ensures (exists i :: 0 <= i < |before + [t]| && ListsRoom((before + [t])[i], id))
            <==> (exists i :: 0 <= i < |before| && ListsRoom(before[i], id)) || ListsRoom(t, id)
  {
    var all := before + [t];
    assert all[|before|] == t;
    assert forall i :: 0 <= i < |before| ==> all[i] == before[i];
  }

  lemma ListedRoomsAre(types: seq<RemoteType>, id: string)
    ensures id in ListedRooms(types) <==> id != "" && exists i :: 0 <= i < |types| && ListsRoom(types[i], id)
  {
    if i :| 0 <= i < |types| && ListsRoom(types[i], id) {
      var j :| 0 <= j < |types[i].rooms| && types[i].rooms[j].externalId == id;
    }
    if id in ListedRooms(types) {
      var i, j :| 0 <= i < |types| && types[i].accepted && 0 <= j < |types[i].rooms|
          && types[i].rooms[j].externalId != "" && types[i].rooms[j].externalId == id;
      assert ListsRoom(types[i], id);
    }
  }

  lemma OneMoreType(types: map<Key, TypeRow>, p: string, before: seq<RemoteType>, t: RemoteType)
    ensures WrittenTypes(types, p, before + [t]) ==
            if t.accepted then WrittenTypes(types, p, before)[(p, CodeOf(t)) := TypeRowOf(t)]
               else WrittenTypes(types, p, before)
  {
    var all := before + [t];
    assert all[..|all| - 1] == before;
    var left := WrittenTypes(types, p, all);
    var right := if t.accepted then WrittenTypes(types, p, before)[(p, CodeOf(t)) := TypeRowOf(t)]
        else WrittenTypes(types, p, before);
    forall k: Key ensures (k in left <==> k in right) && (k in left ==> left[k] == right[k]) {
      WrittenTypeAt(types, p, all, k);
      WrittenTypeAt(types, p, before, k);
    }
  }

  lemma OneMoreTypeListed(before: seq<RemoteType>, t: RemoteType)
    ensures ListedTypes(before + [t]) ==
            ListedTypes(before)
                + (if t.accepted && ListingKey(t.externalId, t.code) != "" then {ListingKey(t.externalId, t.code)}
                   else {})
  {
    var all := before + [t];
    assert forall i :: 0 <= i < |before| ==> all[i] == before[i];
    assert all[|before|] == t;
  }

  lemma NoRoomsAdded(rooms: map<Key, RoomRow>, p: string, before: seq<RemoteType>, t: RemoteType)
    requires !t.accepted || t.rooms == []
    ensures WrittenRooms(rooms, p, before + [t]) == WrittenRooms(rooms, p, before)
            && ListedRooms(before + [t]) == ListedRooms(before)
  {
    var all := before + [t];
    assert all[..|all| - 1] == before;
    var l, r := WrittenRooms(rooms, p, all), WrittenRooms(rooms, p, before);
    forall k: Key ensures (k in l <==> k in r) && (k in l ==> l[k] == r[k]) {
      WrittenRoomAt(rooms, p, all, k);
      WrittenRoomAt(rooms, p, before, k);
    }
    forall id ensures id in ListedRooms(all) <==> id in ListedRooms(before) {
      ListedRoomsAre(all, id);
      ListedRoomsAre(before, id);
      RoomListing(before, t, id);
    }
  }
}
