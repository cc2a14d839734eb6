/** Decoded JSON request bodies and the helpers that read fields out of them. */
module Payload {
  import opened Results
  import opened Text

  /** A decoded JSON value. `Num` is a number off the wire; `Int` is a Go int the service put there itself. */
  datatype Json =
    | Null
    | Bool(b: bool)
    | Num(x: real)
    | Int(n: int)
    | Str(s: string)
    | Arr(items: seq<Json>)
    | Obj(fields: map<string, Json>)

  type Body = map<string, Json>

  function Field(body: Body, key: string): Json {
    if key in body then body[key] else Null
  }

  function StringOr(v: Json): string {
    if v.Str? then v.s else ""
  }

  /** Go's float-to-int conversion drops the fraction, towards zero. */
  function Truncate(x: real): int {
    if x >= 0.0 then x.Floor else -(-x).Floor
  }

  function IntOr(v: Json, def: int): int {
    match v
    case Num(x) => Truncate(x)
    case Int(n) => n
    case _ => def
  }

  function FloatOr(v: Json, def: real): real {
    if v.Num? then v.x else def
  }

  /** A number off the wire loses its fraction, whatever its sign; what is not a number reads as the default. */
  lemma NumbersRead(v: Json, def: int, x: real, n: int)
    ensures var i := IntOr(Num(x), def);
            && (x >= 0.0 ==> i as real <= x < i as real + 1.0) && (x < 0.0 ==> i as real - 1.0 < x <= i as real)
            && (-1.0 < x < 1.0 ==> i == 0)
    ensures IntOr(Int(n), def) == n && (!v.Num? && !v.Int? ==> IntOr(v, def) == def)
    ensures FloatOr(Num(x), 0.0) == x && (!v.Num? ==> FloatOr(v, x) == x)
  {
  }

  predicate RoomIdChar(c: char) {
    || 'A' <= c <= 'Z' || 'a' <= c <= 'z' || '0' <= c <= '9'
    || c == '.' || c == '_' || c == '~' || c == '-'
  }

  /** The pattern `^[A-Za-z0-9._~-]{1,128}$`. */
  predicate StrictRoomId(id: string) {
    1 <= |id| <= 128 && forall i :: 0 <= i < |id| ==> RoomIdChar(id[i])
  }

  const MARKS := "._~-"

  /** A room id has at least one and fewer than 129 characters, all letters, digits or unreserved marks. */
  lemma RoomIdIs(id: string)
    ensures StrictRoomId(id) <==>
              0 < |id| < 129 && forall c :: c in id ==> c in UPPER || c in LOWER || c in DIGITS || c in MARKS
  {
    forall c | c in id
      ensures RoomIdChar(c) <==> c in UPPER || c in LOWER || c in DIGITS || c in MARKS
    {
      UpperIs(c);
      LowerIs(c);
    }
  }

  datatype RoomIdsError = NotAnArray | Malformed | Duplicate

  /** What one array element contributes: its trimmed text if that is a well-formed id. */
  function RoomIdOf(v: Json): Option<string> {
    if v.Str? && StrictRoomId(TrimSpace(v.s)) then Some(TrimSpace(v.s)) else None
  }

  /** A list of room ids as the service accepts it: non-empty, well-formed, without repeats. */
  ghost predicate WellFormedRooms(ids: seq<string>) {
    && ids != []
    && (forall i :: 0 <= i < |ids| ==> StrictRoomId(ids[i]))
    && (forall i, j :: 0 <= i < j < |ids| ==> ids[i] != ids[j])
  }

  /** `items` reads as `ids`, element by element. */
  ghost predicate ReadsAs(items: seq<Json>, ids: seq<string>) {
    |items| == |ids| && forall i :: 0 <= i < |items| ==> RoomIdOf(items[i]) == Some(ids[i])
  }

  /** Position `i` is the first element that makes the array unacceptable, and `e` says why. */
  ghost predicate FirstFault(items: seq<Json>, i: nat, e: RoomIdsError) {
    && i < |items|
    && (forall k :: 0 <= k < i ==> RoomIdOf(items[k]).Some?)
    && (forall j, k :: 0 <= j < k < i ==> RoomIdOf(items[j]) != RoomIdOf(items[k]))
    && match e
       case NotAnArray => false
       case Malformed => RoomIdOf(items[i]).None?
       case Duplicate => RoomIdOf(items[i]).Some? && exists k :: 0 <= k < i && RoomIdOf(items[k]) == RoomIdOf(items[i])
  }

  /** `strictStringArray`. */
  method StrictStringArray(value: Json) returns (r: Result<seq<string>, RoomIdsError>)
    ensures r == RoomList(value)
  {
    if !value.Arr? || |value.items| == 0 {
      return Err(NotAnArray);
    }
    var values := value.items;
    var roomIds: seq<string> := [];
    var seen: set<string> := {};
    for index := 0 to |values|
      invariant forall id :: id in seen <==> id in roomIds
      invariant RoomList(value) == Scan(values[index..], roomIds)
    {
      assert values[index..][0] == values[index] && values[index..][1..] == values[index + 1..];
      var roomId := TrimSpace(StringOr(values[index]));
      if !values[index].Str? || roomId == "" || !StrictRoomId(roomId) {
        return Err(Malformed);
      }
      if roomId in seen {
        return Err(Duplicate);
      }
      seen := seen + {roomId};
      roomIds := roomIds + [roomId];
    }
    r := Ok(roomIds);
  }

  function RoomList(value: Json): Result<seq<string>, RoomIdsError> {
    if !value.Arr? || value.items == [] then Err(NotAnArray) else Scan(value.items, [])
  }

  function Scan(items: seq<Json>, acc: seq<string>): Result<seq<string>, RoomIdsError> {
    if items == [] then Ok(acc)
    else
      match RoomIdOf(items[0])
      case None => Err(Malformed)
      case Some(id) => if id in acc then Err(Duplicate) else Scan(items[1..], acc + [id])
  }

  lemma {:induction false} ScanReads(items: seq<Json>, acc: seq<string>, ids: seq<string>)
    requires ReadsAs(items, ids)
    requires forall i, j :: 0 <= i < j < |acc + ids| ==> (acc + ids)[i] != (acc + ids)[j]
    ensures Scan(items, acc) == Ok(acc + ids)
  {
    if items == [] {
      assert acc + ids == acc;
    } else {
      assert ids[0] == (acc + ids)[|acc|];
      assert forall k :: 0 <= k < |acc| ==> acc[k] == (acc + ids)[k];
      assert acc + [ids[0]] + ids[1..] == acc + ids;
      ScanReads(items[1..], acc + [ids[0]], ids[1..]);
    }
  }

  /** Whatever reads as a well-formed room list is accepted, and as exactly that list. */
  lemma RoomListComplete(value: Json, ids: seq<string>)
    requires value.Arr? && ReadsAs(value.items, ids) && WellFormedRooms(ids)
    ensures RoomList(value) == Ok(ids)
  {
    assert [] + ids == ids;
    ScanReads(value.items, [], ids);
  }

  lemma {:induction false} ScanSound(items: seq<Json>, acc: seq<string>)
    requires Scan(items, acc).Ok?
    requires forall i :: 0 <= i < |acc| ==> StrictRoomId(acc[i])
    requires forall i, j :: 0 <= i < j < |acc| ==> acc[i] != acc[j]
    ensures var r := Scan(items, acc).value;
            && |r| == |acc| + |items| && acc <= r
            && ReadsAs(items, r[|acc|..])
            && (forall i :: 0 <= i < |r| ==> StrictRoomId(r[i]))
            && (forall i, j :: 0 <= i < j < |r| ==> r[i] != r[j])
  {
    if items != [] {
      var id := RoomIdOf(items[0]).value;
      ScanSound(items[1..], acc + [id]);
      var r := Scan(items, acc).value;
      assert r[|acc|] == (acc + [id])[|acc|] == id;
      forall i | 0 <= i < |items| ensures RoomIdOf(items[i]) == Some(r[|acc|..][i]) {
        if i > 0 {
          assert RoomIdOf(items[1..][i - 1]) == Some(r[|acc + [id]|..][i - 1]);
        }
      }
    }
  }

  /** Only well-formed room lists are accepted. */
  lemma RoomListSound(value: Json)
    requires RoomList(value).Ok?
    ensures value.Arr? && ReadsAs(value.items, RoomList(value).value) && WellFormedRooms(RoomList(value).value)
  {
    ScanSound(value.items, []);
    var r := RoomList(value).value;
    assert r[0..] == r;
  }

  lemma {:induction false} ScanFault(items: seq<Json>, k: nat, acc: seq<string>)
    requires k <= |items| && |acc| == k && forall i :: 0 <= i < k ==> RoomIdOf(items[i]) == Some(acc[i])
    requires forall i, j :: 0 <= i < j < |acc| ==> acc[i] != acc[j]
    requires Scan(items[k..], acc).Err?
    ensures exists i: nat :: FirstFault(items, i, Scan(items[k..], acc).error)
    decreases |items| - k
  {
    var rest := items[k..];
    match RoomIdOf(rest[0]) {
      case None => assert FirstFault(items, k, Malformed);
      case Some(id) =>
        if id in acc {
          var i :| 0 <= i < |acc| && acc[i] == id;
          assert RoomIdOf(items[i]) == RoomIdOf(items[k]);
          assert FirstFault(items, k, Duplicate);
        } else {
          assert rest[1..] == items[k + 1..];
          ScanFault(items, k + 1, acc + [id]);
        }
    }
  }

  /** A rejected array is rejected for its first fault. */
  lemma RoomListFault(value: Json)
    requires RoomList(value).Err?
    ensures RoomList(value) == Err(NotAnArray) <==> !value.Arr? || value.items == []
    ensures value.Arr? && value.items != [] ==> exists i: nat :: FirstFault(value.items, i, RoomList(value).error)
  {
    if value.Arr? && value.items != [] {
      assert value.items[0..] == value.items;
      ScanFault(value.items, 0, []);
    }
  }

  function AsStrings(ids: seq<string>): Json {
    Arr(seq(|ids|, i requires 0 <= i < |ids| => Str(ids[i])))
  }

  lemma StrictIsTrimmed(id: string)
    requires StrictRoomId(id)
    ensures TrimSpace(id) == id && ',' !in id && id != ""
  {
    forall i | 0 <= i < |id| ensures !IsSpace(id[i]) && id[i] != ',' {
      assert RoomIdChar(id[i]);
    }
    TrimOfSpaceFree(id);
  }

  /** A well-formed room list sent back as JSON is read as itself. */
  lemma RoomListRoundTrip(ids: seq<string>)
    requires WellFormedRooms(ids)
    ensures RoomList(AsStrings(ids)) == Ok(ids)
  {
    forall i | 0 <= i < |ids| ensures RoomIdOf(AsStrings(ids).items[i]) == Some(ids[i]) {
      StrictIsTrimmed(ids[i]);
    }
    RoomListComplete(AsStrings(ids), ids);
  }

  /** Well-formed room lists survive the comma join used to store them in a hold. */
  lemma RoomsJoinSplit(ids: seq<string>)
    requires WellFormedRooms(ids)
    ensures AllFree(ids, ',') && Split(Join(ids, ','), ',') == ids
  {
    forall i | 0 <= i < |ids| ensures ',' !in ids[i] { StrictIsTrimmed(ids[i]); }
    SplitJoin(ids, ',');
  }
}
