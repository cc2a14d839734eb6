/** Offset paging over direct reservations, with the next offset carried as a decimal page token. */
module Paging {
  import opened Results
  import opened Decimal

  const DEFAULT_PAGE_SIZE := 50
  const MAX_PAGE_SIZE := 200

  function PageSize(asked: int): (n: nat)
    ensures 1 <= n <= MAX_PAGE_SIZE
  {
    if asked <= 0 || asked > MAX_PAGE_SIZE then DEFAULT_PAGE_SIZE else asked
  }

  /** The repository's LIMIT and OFFSET. */
  function Slice<T>(table: seq<T>, limit: nat, offset: nat): seq<T> {
    var from := if offset < |table| then offset else |table|;
    var to := if from + limit < |table| then from + limit else |table|;
    table[from..to]
  }

  /** A malformed or negative token starts from the top. */
  function ParseToken(token: string): (n: nat) {
    if token == "" then 0
    else
      match Atoi(token)
      case Some(v) => if v < 0 then 0 else v
      case None => 0
  }

  datatype Page<T> = Page(rows: seq<T>, next: string)

  class Service<T> {
    var table: seq<T>

    method ListDirectReservations(pageSize: int, offset: int) returns (items: seq<T>, next: int)
      ensures items == Slice(table, PageSize(pageSize), if offset < 0 then 0 else offset)
      ensures next == if |items| == PageSize(pageSize) then (if offset < 0 then 0 else offset) + PageSize(pageSize)
              else 0
    {
      var size := pageSize;
      if size <= 0 || size > MAX_PAGE_SIZE {
        size := DEFAULT_PAGE_SIZE;
      }
      var from := offset;
      if from < 0 {
        from := 0;
      }
      items := Slice(table, size, from);
      next := 0;
      if |items| == size {
        next := from + size;
      }
    }

    /** The handler: reads the token, lists one page, and writes the next token. */
    method List(pageSize: int, token: string) returns (page: Page<T>)
      ensures page == PageAt(table, pageSize, token)
    {
      var items, next := ListDirectReservations(pageSize, ParseToken(token));
      var rows: seq<T> := [];
      for i := 0 to |items|
        invariant rows == items[..i]
      {
        rows := rows + [items[i]];
      }
      var nextToken := "";
      if next > 0 {
        nextToken := Itoa(next);
      }
      return Page(rows, nextToken);
    }
  }

  function PageAt<T>(table: seq<T>, pageSize: int, token: string): Page<T> {
    var rows := Slice(table, PageSize(pageSize), ParseToken(token));
    Page(rows, if |rows| == PageSize(pageSize) then Itoa(ParseToken(token) + PageSize(pageSize)) else "")
  }

  /** Reading a written token gives the offset back, for every offset that fits an int. */
  lemma TokenRoundTrip(offset: nat)
    requires offset <= MAX_INT
    ensures ParseToken(Itoa(offset)) == offset
  {
    AtoiOfItoa(offset);
  }

  /** Page sizes from 1 to 200 are honoured; anything else means 50. */
  lemma PageSizeIs(asked: int)
    ensures PageSize(asked) == if 1 <= asked <= 200 then asked else 50
  {
  }

  /** A slice is the rows from the offset on, as many as fit. */
  lemma SliceIs<T>(table: seq<T>, limit: nat, offset: nat, i: nat)
    ensures var rows := Slice(table, limit, offset);
            && (|rows| == limit <==> limit == 0 || offset + limit <= |table|) && |rows| <= limit
            && (i < |rows| <==> i < limit && offset + i < |table|)
            && (i < |rows| ==> rows[i] == table[offset + i])
  {
  }

  /** A page is the rows from the token's offset on, and announces another exactly when it is full. */
  lemma PageIs<T>(table: seq<T>, pageSize: int, token: string)
    ensures var page, from, size := PageAt(table, pageSize, token), ParseToken(token), PageSize(pageSize);
            && page.rows == Slice(table, size, from)
            && (page.next != "" <==> from + size <= |table|)
            && (page.next != "" && from + size <= MAX_INT ==> ParseToken(page.next) == from + size)
  {
    SliceIs(table, PageSize(pageSize), ParseToken(token), 0);
    AtoiOfItoa(ParseToken(token) + PageSize(pageSize));
  }

  /** Signs: a plus is allowed, a negative offset starts from the top; and so does anything that is not a number. */
  lemma SignedTokens(offset: nat)
    requires offset <= MAX_INT
    ensures ParseToken("+" + Itoa(offset)) == offset && ParseToken("-" + Itoa(offset)) == 0
  {
    AtoiOfItoa(offset);
    ValueOfItoa(offset);
    assert ("+" + Itoa(offset))[1..] == Itoa(offset) && ("-" + Itoa(offset))[1..] == Itoa(offset);
  }

  lemma BadTokens(token: string, i: nat)
    requires 0 < i < |token| && !IsDigit(token[i])
    ensures ParseToken(token) == 0
  {
    var signed := token[0] == '+' || token[0] == '-';
    var digits := if signed then token[1..] else token;
    assert !AllDigits(digits) by {
      assert digits[if signed then i - 1 else i] == token[i];
    }
  }

  /** A page that announces another one is full, and the next one starts where it ends. */
  lemma NextPageFollows<T>(table: seq<T>, pageSize: int, token: string)
    requires |table| <= MAX_INT && PageAt(table, pageSize, token).next != ""
    ensures var page := PageAt(table, pageSize, token);
            && ParseToken(token) < ParseToken(page.next) <= |table|
            && page.rows == table[ParseToken(token)..ParseToken(page.next)]
  {
    TokenRoundTrip(ParseToken(token) + PageSize(pageSize));
  }

  /** All rows a client gets by following tokens, with any page size it likes per request. */
  function Follow<T>(table: seq<T>, sizes: nat -> int, token: string, request: nat): seq<T>
    requires |table| <= MAX_INT
    decreases |table| - ParseToken(token)
  {
    var page := PageAt(table, sizes(request), token);
    if page.next == "" then page.rows
    else
      NextPageFollows(table, sizes(request), token);
      page.rows + Follow(table, sizes, page.next, request + 1)
  }

  /** Following tokens from any valid position ends and yields the rest of the table, each row once and in order. */
  lemma {:induction false} FollowIsComplete<T>(table: seq<T>, sizes: nat -> int, token: string, request: nat)
    requires |table| <= MAX_INT && ParseToken(token) <= |table|
    ensures Follow(table, sizes, token, request) == table[ParseToken(token)..]
    decreases |table| - ParseToken(token)
  {
    var page := PageAt(table, sizes(request), token);
    if page.next != "" {
      NextPageFollows(table, sizes(request), token);
      FollowIsComplete(table, sizes, page.next, request + 1);
      assert table[ParseToken(token)..] ==
               table[ParseToken(token)..ParseToken(page.next)] + table[ParseToken(page.next)..];
    } else {
      assert Itoa(ParseToken(token) + PageSize(sizes(request))) != "";
    }
  }

  lemma EveryRowOnce<T>(table: seq<T>, sizes: nat -> int)
    requires |table| <= MAX_INT
    ensures Follow(table, sizes, "", 0) == table
  {
    FollowIsComplete(table, sizes, "", 0);
  }
}
