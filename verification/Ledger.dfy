/** Canonical reservations and the in-process set of idempotency keys that guards them. */
module Ledger {
  import opened Results

  datatype Reservation = Reservation(
    orgId: string, propertyId: string, roomTypeId: string, guestName: string,
    checkin: int, checkout: int, status: string, total: real, currency: string, confirmationId: string,
    channelId: string)

  /** One save the repository accepted, with the key it was made under. `Table` says what the saves amount to. */
  datatype Row = Row(id: string, key: string, res: Reservation)

  datatype Book = Book(seen: set<string>, rows: seq<Row>)

  datatype PersistError = DuplicateKey | SaveFailed

  const NO_ROWS := Book({}, [])

  /** One `persist`: `save` is the repository's answer, the new row's id or nothing. */
  function Persisted(b: Book, res: Reservation, key: string, save: Option<string>): (Book, Result<string, PersistError>)
  {
    if key != "" && key in b.seen then (b, Err(DuplicateKey))
    else if save.None? then (b, Err(SaveFailed))
    else
      var kept := if res.status == "" then res.(status := "confirmed") else res;
      (Book(if key != "" then b.seen + {key} else b.seen, b.rows + [Row(save.value, key, kept)]), Ok(save.value))
  }

  class ReservationService {
    var seenKeys: set<string>
    var rows: seq<Row>          // the saves the repository accepted, in order
    var published: seq<Row>     // what was announced to the PMS

    function View(): Book
      reads this
    {
      Book(seenKeys, rows)
    }

    constructor ()
      ensures View() == NO_ROWS && published == []
    {
      seenKeys, rows, published := {}, [], [];
    }

    method Persist(res: Reservation, key: string, publish: bool, save: Option<string>)
      returns (r: Result<string, PersistError>)
      modifies this
      ensures (View(), r) == Persisted(old(View()), res, key, save)
      ensures published == if publish && r.Ok? then old(published) + [rows[|rows| - 1]] else old(published)
    {
      if key != "" {
        if key in seenKeys {
          return Err(DuplicateKey);
        }
      }
      var kept := res;
      if kept.status == "" {
        kept := kept.(status := "confirmed");
      }
      if save.None? {
        return Err(SaveFailed);
      }
      var row := Row(save.value, key, kept);
      rows := rows + [row];
      if key != "" {
        seenKeys := seenKeys + {key};
      }
      if publish {
        published := published + [row];
      }
      return Ok(save.value);
    }

    /** A reservation the PMS does not know yet: saved and announced. */
    method IngestReservation(res: Reservation, key: string, save: Option<string>)
      returns (r: Result<string, PersistError>)
      modifies this
      ensures (View(), r) == Persisted(old(View()), res, key, save)
      ensures published == if r.Ok? then old(published) + [rows[|rows| - 1]] else old(published)
    {
      r := Persist(res, key, true, save);
    }

    /** A reservation the PMS already has: saved, never announced back. */
    method RecordReservation(res: Reservation, key: string, save: Option<string>)
      returns (r: Result<string, PersistError>)
      modifies this
      ensures (View(), r) == Persisted(old(View()), res, key, save)
      ensures published == old(published)
    {
      r := Persist(res, key, false, save);
    }
  }

  /** No two saved rows share a non-empty key. */
  ghost predicate AtMostOnce(b: Book) {
    forall i, j :: 0 <= i < j < |b.rows| && b.rows[i].key != "" ==> b.rows[i].key != b.rows[j].key
  }

  ghost predicate Saved(b: Book, key: string) {
    exists i :: 0 <= i < |b.rows| && b.rows[i].key == key
  }

  /** The seen keys are exactly the non-empty keys of the saved rows. */
  ghost predicate Tracks(b: Book) {
    forall key :: key in b.seen <==> key != "" && Saved(b, key)
  }

  /** Saving once more keeps keys unique exactly when the key is blank, remembered, new, or the save fails. */
  lemma PersistKeepsUniqueIff(b: Book, res: Reservation, key: string, save: Option<string>)
    requires AtMostOnce(b)
    ensures AtMostOnce(Persisted(b, res, key, save).0) <==> key == "" || key in b.seen || !Saved(b, key) || save.None?
  {
    var after := Persisted(b, res, key, save).0;
    if key != "" && key !in b.seen && Saved(b, key) && save.Some? {
      var i :| 0 <= i < |b.rows| && b.rows[i].key == key;
      assert after.rows[i].key == after.rows[|b.rows|].key;
    }
  }

  lemma PersistKeepsTracks(b: Book, res: Reservation, key: string, save: Option<string>)
    requires Tracks(b) && AtMostOnce(b)
    ensures Tracks(Persisted(b, res, key, save).0) && AtMostOnce(Persisted(b, res, key, save).0)
  {
    PersistKeepsUniqueIff(b, res, key, save);
    var after := Persisted(b, res, key, save).0;
    if after != b {
      forall k ensures Saved(after, k) <==> Saved(b, k) || k == key {
        if Saved(b, k) {
          var i :| 0 <= i < |b.rows| && b.rows[i].key == k;
          assert after.rows[i].key == k;
        }
        if k == key {
          assert after.rows[|b.rows|].key == k;
        }
      }
    }
  }

  // ---------------------------------------------------------------- the table behind the saves

  /** An OTA's reservation: known by its channel and the channel's confirmation number. */
  predicate IsOta(res: Reservation) {
    res.channelId != "" && res.confirmationId != ""
  }

  predicate SameOta(a: Reservation, b: Reservation) {
    IsOta(a) && a.channelId == b.channelId && a.confirmationId == b.confirmationId
  }

  function FindOta(table: seq<Row>, res: Reservation): (i: nat)
    ensures i <= |table| && (i < |table| ==> SameOta(table[i].res, res))
    ensures forall k :: 0 <= k < i ==> !SameOta(table[k].res, res)
  {
    if table == [] || SameOta(table[0].res, res) then 0 else 1 + FindOta(table[1..], res)
  }

  /** The repository's `Save`: a known OTA reservation is updated in place, anything else is a new row. */
  function Upserted(table: seq<Row>, row: Row): seq<Row> {
    var i, given := FindOta(table, row.res), row.res;
    if i == |table| then table + [row]
    else
      table[i := table[i].(res := table[i].res.(status := given.status, checkin := given.checkin,
                                                checkout := given.checkout,
                                                currency := given.currency, total := given.total))]
  }

  function Table(saves: seq<Row>): seq<Row> {
    if saves == [] then [] else Upserted(Table(saves[..|saves| - 1]), saves[|saves| - 1])
  }

  ghost predicate KnownOta(rows: seq<Row>, res: Reservation) {
    exists i :: 0 <= i < |rows| && SameOta(rows[i].res, res)
  }

  lemma UpsertKnows(table: seq<Row>, row: Row, res: Reservation)
    ensures KnownOta(Upserted(table, row), res) <==> KnownOta(table, res) || SameOta(row.res, res)
  {
    var after, i := Upserted(table, row), FindOta(table, row.res);
    assert forall k :: 0 <= k < |table| ==> (SameOta(after[k].res, res) <==> SameOta(table[k].res, res));
    if SameOta(row.res, res) {
      assert SameOta(after[i].res, res);
    }
    if k :| 0 <= k < |table| && SameOta(table[k].res, res) {
      assert SameOta(after[k].res, res);
    }
  }

  lemma {:induction false} TableKnows(saves: seq<Row>, res: Reservation)
    ensures KnownOta(Table(saves), res) <==> KnownOta(saves, res)
  {
    if saves != [] {
      var init := saves[..|saves| - 1];
      TableKnows(init, res);
      UpsertKnows(Table(init), saves[|saves| - 1], res);
      assert forall i :: 0 <= i < |init| ==> saves[i] == init[i];
    }
  }

  /** One more save is one more row of the table exactly if no earlier save was of the same OTA reservation; direct
      bookings, which name no channel, always add a row. */
  lemma SaveAddsRowIff(saves: seq<Row>, row: Row)
    ensures |Table(saves + [row])| == |Table(saves)| + 1 <==> !KnownOta(saves, row.res)
    ensures row.res.channelId == "" ==> Table(saves + [row]) == Table(saves) + [row]
  {
    assert (saves + [row])[..|saves|] == saves;
    TableKnows(saves, row.res);
  }

  /** The key set lives in the process: after a restart any saved key is saved a second time, which is a second row of
      the table exactly if no save before was of the same OTA reservation. */
  lemma RestartForgets(b: Book, res: Reservation, key: string, id: string)
    requires Tracks(b) && AtMostOnce(b) && key != "" && Saved(b, key)
    ensures Persisted(b, res, key, Some(id)) == (b, Err(DuplicateKey))
    ensures var after := Persisted(b.(seen := {}), res, key, Some(id)).0;
            && !AtMostOnce(after)
            && (|Table(after.rows)| == |Table(b.rows)| + 1 <==> !KnownOta(b.rows, res))
  {
    assert Saved(b.(seen := {}), key) by {
      var i :| 0 <= i < |b.rows| && b.rows[i].key == key;
      assert b.(seen := {}).rows[i].key == key;
    }
    PersistKeepsUniqueIff(b.(seen := {}), res, key, Some(id));
    var after := Persisted(b.(seen := {}), res, key, Some(id)).0;
    SaveAddsRowIff(b.rows, after.rows[|b.rows|]);
  }
}
