/** Soft holds and the store that keeps them: a token-to-hold table whose entries expire, and a
    per-property index of tokens that is only pruned lazily. */
module Holds {
  import opened Text
  import opened Payload

  datatype Hold = Hold(
    token: string,
    property: string,
    roomId: string,      // comma-joined physical room ids
    roomTypeId: string,
    checkin: int,        // calendar day
    checkout: int,       // calendar day, exclusive
    expiresAt: int)      // seconds
  {
    predicate Overlaps(from: int, to: int) {
      checkin < to && from < checkout
    }

    /** The hold withholds this room on this night. */
    ghost predicate Covers(night: int, room: string) {
      checkin <= night < checkout && room in RoomsIn(roomId)
    }
  }

  /** The non-blank ids in a comma-joined list. */
  function RoomsIn(roomId: string): set<string> {
    set i | 0 <= i < |Split(roomId, ',')| && TrimSpace(Split(roomId, ',')[i]) != "" :: TrimSpace(Split(roomId, ',')[i])
  }

  predicate NightOf(night: int, from: int, to: int) {
    from <= night < to
  }

  /** Two non-empty stays overlap exactly when they share a night. */
  lemma OverlapsIsSharedNight(h: Hold, from: int, to: int)
    requires h.checkin < h.checkout && from < to
    ensures h.Overlaps(from, to) <==> exists night :: NightOf(night, from, to) && NightOf(night, h.checkin, h.checkout)
  {
    if h.Overlaps(from, to) {
      var night := if from < h.checkin then h.checkin else from;
      assert NightOf(night, from, to) && NightOf(night, h.checkin, h.checkout);
    }
  }

  /** `holds` is the keyed table, `index` the per-property token sets, `until` the index expiry times. */
  datatype Store = Store(holds: map<string, Hold>, index: map<string, set<string>>, until: map<string, int>)

  const EMPTY := Store(map[], map[], map[])

  /** How much longer than its newest hold an index entry lives: one hour. */
  const INDEX_SLACK := 3600

  predicate Live(st: Store, token: string, now: int) {
    token in st.holds && now < st.holds[token].expiresAt
  }

  function Members(st: Store, property: string, now: int): set<string> {
    if property in st.index && property in st.until && now < st.until[property] then st.index[property] else {}
  }

  /** The tokens whose holds `ActiveForProperty` returns. */
  function ActiveTokens(st: Store, property: string, now: int): set<string> {
    set t | t in Members(st, property, now) && Live(st, t, now)
  }

  function Placed(st: Store, h: Hold, now: int): Store {
    Store(
      st.holds[h.token := h],
      st.index[h.property := Members(st, h.property, now) + {h.token}],
      st.until[h.property := h.expiresAt + INDEX_SLACK])
  }

  /** The index entry of one property without the tokens whose holds have expired. */
  function Pruned(st: Store, property: string, now: int): Store {
    if property in st.index then
      st.(index := st.index[property := ActiveTokens(st, property, now)])
    else st
  }

  /** The hold store as a mutable object. Every failure of the backing store is an argument. */
  class HoldStore {
    var holds: map<string, Hold>
    var index: map<string, set<string>>
    var until: map<string, int>

    function View(): Store
      reads this
    {
      Store(holds, index, until)
    }

    constructor ()
      ensures View() == EMPTY
    {
      holds, index, until := map[], map[], map[];
    }

    /** Stores `h` until it expires; refuses one that already has. */
    method Place(h: Hold, now: int, up: bool) returns (ok: bool)
      modifies this
      ensures ok <==> up && now < h.expiresAt
      ensures View() == if ok then Placed(old(View()), h, now) else old(View())
    {
      var ttl := h.expiresAt - now;
      if ttl <= 0 || !up {
        return false;
      }
      var tokens := Members(View(), h.property, now);
      holds := holds[h.token := h];
      index := index[h.property := tokens + {h.token}];
      until := until[h.property := now + ttl + INDEX_SLACK];
      return true;
    }

    /** Lists the unexpired holds in a property's index, each token once and in no particular order, and
        drops the dead tokens it meets. `order` names the tokens behind the answer. */
    method ActiveForProperty(property: string, now: int) returns (active: seq<Hold>, ghost order: seq<string>)
      modifies this
      ensures View() == Pruned(old(View()), property, now)
      ensures Lists(old(View()), property, now, active, order)
    {
      var tokens := Members(View(), property, now);
      var todo := tokens;
      var stale: set<string> := {};
      active, order := [], [];
      while todo != {}
        invariant unchanged(this)
        invariant todo <= tokens
        invariant forall t :: t in stale <==> t in tokens - todo && !Live(View(), t, now)
        invariant forall t :: t in order <==> t in tokens - todo && Live(View(), t, now)
        invariant forall i, j :: 0 <= i < j < |order| ==> order[i] != order[j]
        invariant |active| == |order| && forall i :: 0 <= i < |order| ==>
                    order[i] in holds && active[i] == holds[order[i]]
        decreases |todo|
      {
        var tok :| tok in todo;
        todo := todo - {tok};
        if Live(View(), tok, now) {
          active, order := active + [holds[tok]], order + [tok];
        } else {
          stale := stale + {tok};
        }
      }
      assert tokens - stale == ActiveTokens(View(), property, now);
      if property in index {
        index := index[property := tokens - stale];
      }
    }
  }

  /** `active` holds exactly the active holds of the property, one per token of `order`. */
  ghost predicate Lists(st: Store, property: string, now: int, active: seq<Hold>, order: seq<string>) {
    && |active| == |order|
    && (forall t :: t in order <==> t in ActiveTokens(st, property, now))
    && (forall i, j :: 0 <= i < j < |order| ==> order[i] != order[j])
    && (forall i :: 0 <= i < |order| ==> order[i] in st.holds && active[i] == st.holds[order[i]])
  }

  // ---------------------------------------------------------------- invariants

  /** Two holds describe one identical stay. */
  predicate SameStay(a: Hold, b: Hold) {
    a.roomId == b.roomId && a.checkin == b.checkin && a.checkout == b.checkout
  }

  /** On every night of every room of a property, all unexpired holds describe one identical stay. */
  ghost predicate Safe(st: Store, now: int) {
    forall t, u, night, room ::
      && Live(st, t, now) && Live(st, u, now)
      && st.holds[t].property == st.holds[u].property
      && st.holds[t].Covers(night, room) && st.holds[u].Covers(night, room)
      ==> SameStay(st.holds[t], st.holds[u])
  }

  /** A hold as getQuote writes it: a real stay in a well-formed room list. */
  ghost predicate WellFormedHold(h: Hold) {
    h.checkin < h.checkout && WellFormedRooms(Split(h.roomId, ','))
  }

  /** Every unexpired hold is filed under its token, well formed, bounded in life, and listed in its property's index
      for longer than it lives. */
  ghost predicate Filed(st: Store, now: int, ttl: int) {
    forall t :: Live(st, t, now) ==>
      var h := st.holds[t];
      && h.token == t && WellFormedHold(h) && h.expiresAt <= now + ttl
      && h.property in st.index && h.property in st.until
      && t in st.index[h.property] && h.expiresAt + INDEX_SLACK <= st.until[h.property]
  }

  ghost predicate Inv(st: Store, now: int, ttl: int) {
    Filed(st, now, ttl) && Safe(st, now)
  }

  /** Some token in the property's index now belongs to a hold on another property. */
  ghost predicate HasForeign(st: Store, property: string, now: int) {
    exists t :: t in ActiveTokens(st, property, now) && st.holds[t].property != property
  }

  /** The unexpired holds of one property, which is what the port promises `ActiveForProperty` returns. */
  ghost function LiveOf(st: Store, property: string, now: int): set<string> {
    set t | t in st.holds && Live(st, t, now) && st.holds[t].property == property
  }

  /** The index never misses a live hold of its property. */
  lemma IndexIsComplete(st: Store, property: string, now: int, ttl: int)
    requires Filed(st, now, ttl)
    ensures LiveOf(st, property, now) <= ActiveTokens(st, property, now)
  {
    forall t | t in LiveOf(st, property, now) ensures t in ActiveTokens(st, property, now) {
      assert Live(st, t, now);
    }
  }

  /** The store keeps the port's promise for a property exactly when no listed token has moved to another property. */
  lemma PortContractIff(st: Store, property: string, now: int, ttl: int)
    requires Filed(st, now, ttl)
    ensures ActiveTokens(st, property, now) == LiveOf(st, property, now) <==> !HasForeign(st, property, now)
  {
    IndexIsComplete(st, property, now, ttl);
    if !HasForeign(st, property, now) {
      forall t | t in ActiveTokens(st, property, now) ensures t in LiveOf(st, property, now) {
        assert Live(st, t, now);
      }
    } else {
      var t :| t in ActiveTokens(st, property, now) && st.holds[t].property != property;
      assert t !in LiveOf(st, property, now);
    }
  }

  /** Which properties list a foreign hold after a placement: those that list the placed token themselves or listed
      another foreign one before. */
  lemma ForeignAfterPlace(st: Store, h: Hold, property: string, now: int)
    requires now < h.expiresAt
    ensures HasForeign(Placed(st, h, now), property, now) <==>
              || (property != h.property && h.token in Members(st, property, now))
              || (exists t :: t != h.token && t in ActiveTokens(st, property, now) && st.holds[t].property != property)
  {
    var after := Placed(st, h, now);
    assert Members(after, property, now) == if property == h.property then Members(st, property, now) + {h.token}
           else Members(st, property, now);
    if property != h.property && h.token in Members(st, property, now) {
      assert h.token in ActiveTokens(after, property, now) && after.holds[h.token].property != property;
    }
    if t :| t != h.token && t in ActiveTokens(st, property, now) && st.holds[t].property != property {
      assert t in ActiveTokens(after, property, now) && after.holds[t].property != property;
    }
    if t :| t in ActiveTokens(after, property, now) && after.holds[t].property != property {
      if t == h.token {
        assert property != h.property && h.token in Members(st, property, now);
      } else {
        assert t in ActiveTokens(st, property, now) && st.holds[t].property != property;
      }
    }
  }

  lemma TickKeepsInv(st: Store, now: int, later: int, ttl: int)
    requires Inv(st, now, ttl) && now <= later
    ensures Inv(st, later, ttl)
  {
    assert forall t :: Live(st, t, later) ==> Live(st, t, now);
  }

  lemma PruneKeepsInv(st: Store, property: string, now: int, ttl: int)
    requires Inv(st, now, ttl)
    ensures Inv(Pruned(st, property, now), now, ttl)
    ensures forall p :: ActiveTokens(Pruned(st, property, now), p, now) == ActiveTokens(st, p, now)
  {
    var after := Pruned(st, property, now);
    assert forall t :: Live(after, t, now) == Live(st, t, now);
    forall t | Live(after, t, now)
      ensures after.holds[t].property in after.index && t in after.index[after.holds[t].property]
    {
      assert Live(st, t, now);
      var p := st.holds[t].property;
      IndexIsComplete(st, p, now, ttl);
      assert t in LiveOf(st, p, now);
    }
    forall p ensures ActiveTokens(after, p, now) == ActiveTokens(st, p, now) {
      assert forall t :: t in ActiveTokens(after, p, now) <==> t in ActiveTokens(st, p, now);
    }
  }

  /** Every other unexpired hold of the property that shares a night and a room with `h` is for the same stay. */
  ghost predicate Agrees(st: Store, h: Hold, now: int) {
    forall t, night, room ::
      && Live(st, t, now) && t != h.token && st.holds[t].property == h.property
      && st.holds[t].Covers(night, room) && h.Covers(night, room)
      ==> SameStay(st.holds[t], h)
  }

  /** Placing a well-formed hold that agrees with every other hold it meets keeps the invariant. */
  lemma PlaceKeepsInv(st: Store, h: Hold, now: int, ttl: int)
    requires Inv(st, now, ttl) && 0 < ttl
    requires WellFormedHold(h) && h.expiresAt == now + ttl
    requires Agrees(st, h, now)
    ensures Inv(Placed(st, h, now), now, ttl)
  {
    var after := Placed(st, h, now);
    assert forall t :: t != h.token ==> Live(after, t, now) == Live(st, t, now);
    forall t | Live(after, t, now)
      ensures var x := after.holds[t];
              && x.token == t && WellFormedHold(x) && x.expiresAt <= now + ttl
              && x.property in after.index && x.property in after.until
              && t in after.index[x.property] && x.expiresAt + INDEX_SLACK <= after.until[x.property]
    {
      if t != h.token {
        assert Live(st, t, now);
        var p := st.holds[t].property;
        IndexIsComplete(st, p, now, ttl);
        assert t in LiveOf(st, p, now);
      }
    }
    forall t, u, night, room |
      && Live(after, t, now) && Live(after, u, now)
      && after.holds[t].property == after.holds[u].property
      && after.holds[t].Covers(night, room) && after.holds[u].Covers(night, room)
      ensures SameStay(after.holds[t], after.holds[u])
    {
      if t != h.token && u != h.token {
        assert Live(st, t, now) && Live(st, u, now);
      } else if t != h.token {
        assert Live(st, t, now);
      } else if u != h.token {
        assert Live(st, u, now);
      }
    }
  }
}
