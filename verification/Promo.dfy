/** Promo codes of one organization: when a code applies, what it takes off, and the redemption counter. */
module Promo {
  import opened Results
  import opened Text

  datatype Reason = NotFound | Inactive | NotYetValid | Expired | Exhausted | WrongProperty

  datatype PromoCode = PromoCode(
    propertyId: string,          // blank: every property of the organization
    discountPct: real,
    maxUses: Option<int>,
    uses: int,
    validFrom: Option<int>, validUntil: Option<int>,
    active: bool)
  {
    predicate AppliesTo(property: string) { propertyId == "" || propertyId == property }

    predicate IsExhausted() { maxUses.Some? && uses >= maxUses.value }

    /** The first rule the code breaks at a moment and property, if any. */
    function Validate(at: int, property: string): Option<Reason> {
      if !active then Some(Inactive)
      else if !AppliesTo(property) then Some(WrongProperty)
      else if validFrom.Some? && at < validFrom.value then Some(NotYetValid)
      else if validUntil.Some? && !(at < validUntil.value) then Some(Expired)
      else if IsExhausted() then Some(Exhausted)
      else None
    }
  }

  type Codes = map<string, PromoCode>

  /** `strings.ToUpper`, which maps letter by letter; `upper` is its table. */
  function Upper(s: string, upper: char -> char): string {
    seq(|s|, i requires 0 <= i < |s| => upper(s[i]))
  }

  function Normalized(code: string, upper: char -> char): string {
    Upper(TrimSpace(code), upper)
  }

  /** However a guest pads a code or types its letters, in any alphabet, the same stored code is found. */
  lemma NormalizeIgnoresPaddingAndCase(left: string, code: string, typed: string, right: string, upper: char -> char)
    requires forall i :: 0 <= i < |left| ==> IsSpace(left[i])
    requires forall i :: 0 <= i < |right| ==> IsSpace(right[i])
    requires TrimSpace(code) == code && TrimSpace(typed) == typed && |typed| == |code|
    requires forall i :: 0 <= i < |code| ==> upper(typed[i]) == upper(code[i])
    ensures Normalized(left + typed + right, upper) == Normalized(code, upper)
  {
    TrimOfPadded(left, typed, right);
  }

  // ---------------------------------------------------------------- the repository and the service
  //
  // The step functions take the normalised code `k`, under which a code is stored.

  /** The repository's conditional increment: every rule is part of the one statement. */
  predicate RowMatches(p: PromoCode, property: string, at: int) {
    && p.active
    && (p.propertyId == "" || (property != "" && p.propertyId == property))
    && (p.validFrom.None? || p.validFrom.value <= at)
    && (p.validUntil.None? || p.validUntil.value > at)
    && (p.maxUses.None? || p.uses < p.maxUses.value)
  }

  datatype Verdict = Redeemed(promo: PromoCode) | Rejected(why: Reason)

  function RedeemStep(codes: Codes, k: string, property: string, at: int): (Codes, Verdict) {
    if k !in codes then (codes, Rejected(NotFound))
    else if RowMatches(codes[k], property, at) then
      var after := codes[k].(uses := codes[k].uses + 1);
      (codes[k := after], Redeemed(after))
    else
      match codes[k].Validate(at, property)
      case Some(why) => (codes, Rejected(why))
      case None => (codes, Rejected(Exhausted))
  }

  function ReleaseStep(codes: Codes, k: string): Codes {
    if k in codes && codes[k].uses > 0 then codes[k := codes[k].(uses := codes[k].uses - 1)] else codes
  }

  function CreateStep(codes: Codes, k: string, p: PromoCode): (Codes, bool) {
    if k == "" || p.discountPct <= 0.0 || p.discountPct > 100.0
       || (p.maxUses.Some? && p.maxUses.value <= 0)
       || (p.validFrom.Some? && p.validUntil.Some? && p.validUntil.value <= p.validFrom.value)
       || k in codes
    then (codes, false)
    else (codes[k := p.(uses := 0)], true)
  }

  predicate WithinLimit(p: PromoCode) {
    p.maxUses.Some? ==> p.uses <= p.maxUses.value
  }

  /** The CHECK constraints of the promo table: a positive limit that covers the uses, and a non-empty validity
      window. */
  predicate RowAccepted(p: PromoCode) {
    && (p.maxUses.Some? ==> p.maxUses.value > 0) && WithinLimit(p)
    && (p.validFrom.Some? && p.validUntil.Some? ==> p.validUntil.value > p.validFrom.value)
  }

  /** An update rewrites everything but the counter; the service checks the percentage, the table the rest. */
  function UpdateStep(codes: Codes, k: string, p: PromoCode): (Codes, bool) {
    if p.discountPct <= 0.0 || p.discountPct > 100.0 || k !in codes || !RowAccepted(p.(uses := codes[k].uses))
       then (codes, false)
    else (codes[k := p.(uses := codes[k].uses)], true)
  }

  class Service {
    const upper: char -> char     // the case table of `strings.ToUpper`
    var codes: Codes

    constructor (table: char -> char)
      ensures upper == table && codes == map[]
    {
      upper, codes := table, map[];
    }

    method CreatePromo(code: string, p: PromoCode) returns (ok: bool)
      modifies this`codes
      ensures (codes, ok) == CreateStep(old(codes), Normalized(code, upper), p)
    {
      var k := Normalized(code, upper);
      if k == "" {
        return false;
      }
      if p.discountPct <= 0.0 || p.discountPct > 100.0 {
        return false;
      }
      if p.maxUses.Some? && p.maxUses.value <= 0 {
        return false;
      }
      if p.validFrom.Some? && p.validUntil.Some? && p.validUntil.value <= p.validFrom.value {
        return false;
      }
      if k in codes {
        return false;
      }
      codes := codes[k := p.(uses := 0)];
      return true;
    }

    method UpdatePromo(k: string, p: PromoCode) returns (ok: bool)
      modifies this`codes
      ensures (codes, ok) == UpdateStep(old(codes), k, p)
    {
      if p.discountPct <= 0.0 || p.discountPct > 100.0 {
        return false;
      }
      if k !in codes {
        return false;
      }
      var row := p.(uses := codes[k].uses);
      if !RowAccepted(row) {
        return false;
      }
      codes := codes[k := row];
      return true;
    }

    /** Looks a code up without using it: the code and the rule it breaks, if it exists. */
    method Lookup(code: string, property: string, at: int) returns (r: Result<(PromoCode, Option<Reason>), Reason>)
      ensures Normalized(code, upper) !in codes ==> r == Err(NotFound)
      ensures Normalized(code, upper) in codes ==>
                r == Ok((codes[Normalized(code, upper)], codes[Normalized(code, upper)].Validate(at, property)))
    {
      var k := Normalized(code, upper);
      if k !in codes {
        return Err(NotFound);
      }
      return Ok((codes[k], codes[k].Validate(at, property)));
    }

    method Redeem(code: string, property: string, at: int) returns (v: Verdict)
      modifies this`codes
      ensures (codes, v) == RedeemStep(old(codes), Normalized(code, upper), property, at)
    {
      var k := Normalized(code, upper);
      if k in codes && RowMatches(codes[k], property, at) {
        codes := codes[k := codes[k].(uses := codes[k].uses + 1)];
        return Redeemed(codes[k]);
      }
      if k !in codes {
        return Rejected(NotFound);
      }
      var reason := codes[k].Validate(at, property);
      if reason.Some? {
        return Rejected(reason.value);
      }
      return Rejected(Exhausted);
    }

    method ReleaseRedemption(code: string)
      modifies this`codes
      ensures codes == ReleaseStep(old(codes), Normalized(code, upper))
    {
      var k := Normalized(code, upper);
      if k in codes && codes[k].uses > 0 {
        codes := codes[k := codes[k].(uses := codes[k].uses - 1)];
      }
    }
  }

  // ---------------------------------------------------------------- one redemption

  /** The conditional increment fires exactly when every rule passes, so the two readings of the rules agree. */
  lemma RowMatchesIffValid(p: PromoCode, property: string, at: int)
    ensures RowMatches(p, property, at) <==> p.Validate(at, property).None?
  {
  }

  /** When a code is valid, and which rule it is said to break: the first of active, property, from, until and uses. */
  lemma ValidIff(p: PromoCode, property: string, at: int)
    ensures var v := p.Validate(at, property);
            var here := p.propertyId == "" || p.propertyId == property;
            var begun := p.validFrom.None? || p.validFrom.value <= at;
            var lasting := p.validUntil.None? || at < p.validUntil.value;
            && (v == None <==> p.active && here && begun && lasting && (p.maxUses.None? || p.uses < p.maxUses.value))
            && (v == Some(Inactive) <==> !p.active)
            && (v == Some(WrongProperty) <==> p.active && !here)
            && (v == Some(NotYetValid) <==> p.active && here && !begun)
            && (v == Some(Expired) <==> p.active && here && begun && !lasting)
  {
  }

  /** When a code can be created, and that it starts unused under its own terms; nothing else changes. */
  lemma CreatedIff(codes: Codes, k: string, p: PromoCode)
    ensures var (after, ok) := CreateStep(codes, k, p);
            && (ok <==>
                  && k != "" && k !in codes && 0.0 < p.discountPct <= 100.0
                  && (p.maxUses.Some? ==> p.maxUses.value >= 1)
                  && (p.validFrom.Some? && p.validUntil.Some? ==> p.validFrom.value < p.validUntil.value))
            && after == if ok then codes[k := p.(uses := 0)] else codes
  {
  }

  /** When a code can be updated, and that the update keeps its count. */
  lemma UpdatedIff(codes: Codes, k: string, p: PromoCode)
    ensures var (after, ok) := UpdateStep(codes, k, p);
            && (ok <==>
                  && k in codes && 0.0 < p.discountPct <= 100.0
                  && (p.maxUses.Some? ==> p.maxUses.value >= 1 && codes[k].uses <= p.maxUses.value)
                  && (p.validFrom.Some? && p.validUntil.Some? ==> p.validFrom.value < p.validUntil.value))
            && after == if ok then codes[k := p.(uses := codes[k].uses)] else codes
  {
  }

  /** A redemption succeeds exactly when a lookup at the same instant says valid; otherwise it reports the rule the
      lookup reports and changes nothing. */
  lemma RedeemIffValid(codes: Codes, k: string, property: string, at: int)
    requires k in codes
    ensures match codes[k].Validate(at, property)
            case None => RedeemStep(codes, k, property, at).1.Redeemed?
                 && RedeemStep(codes, k, property, at).0 == codes[k := codes[k].(uses := codes[k].uses + 1)]
            case Some(why) => RedeemStep(codes, k, property, at) == (codes, Rejected(why))
  {
    RowMatchesIffValid(codes[k], property, at);
  }

  /** The state after `n` redemption attempts in a row, and how many succeeded. */
  function Attempts(codes: Codes, k: string, property: string, at: int, n: nat): (Codes, nat) {
    if n == 0 then (codes, 0)
    else
      var (before, wins) := Attempts(codes, k, property, at, n - 1);
      var (after, v) := RedeemStep(before, k, property, at);
      (after, if v.Redeemed? then wins + 1 else wins)
  }

  /** However many guests race for a valid code, exactly as many succeed as uses were left. */
  lemma {:induction false} RaceHasExactWinners(codes: Codes, k: string, property: string, at: int, n: nat)
    requires k in codes && codes[k].Validate(at, property).None?
    ensures var (after, wins) := Attempts(codes, k, property, at, n);
            && after == codes[k := codes[k].(uses := codes[k].uses + wins)]
            && wins == match codes[k].maxUses
                       case None => n
                       case Some(max) => if n <= max - codes[k].uses then n else max - codes[k].uses
  {
    if n > 0 {
      RaceHasExactWinners(codes, k, property, at, n - 1);
    }
  }

  // ---------------------------------------------------------------- runs

  datatype Event =
    | Looked(k: string, property: string, at: int)
    | TriedRedeem(k: string, property: string, at: int)
    | Released(k: string, twice: bool)     // `twice`: of a redemption that was given back before
    | Created(k: string, p: PromoCode)
    | Updated(k: string, p: PromoCode)
    | Removed(k: string)

  /** The codes, and for each since it was created: the successful redemptions, the effective releases, and the
      redemptions that have not been given back. */
  datatype World =
    World(codes: Codes, redeemed: map<string, nat>, released: map<string, nat>, live: map<string, nat>)

  const START := World(map[], map[], map[], map[])

  function Count(m: map<string, nat>, k: string): nat {
    if k in m then m[k] else 0
  }

  function Step(w: World, e: Event): World {
    match e
    case Looked(_, _, _) => w
    case TriedRedeem(k, property, at) =>
      var (after, v) := RedeemStep(w.codes, k, property, at);
      if v.Rejected? then w.(codes := after)
      else
        World(after, w.redeemed[k := Count(w.redeemed, k) + 1], w.released, w.live[k := Count(w.live, k) + 1])
    case Released(k, twice) =>
      var after := ReleaseStep(w.codes, k);
      World(after, w.redeemed,
            if after != w.codes then w.released[k := Count(w.released, k) + 1] else w.released,
            if !twice && Count(w.live, k) > 0 then w.live[k := Count(w.live, k) - 1] else w.live)
    case Created(k, p) =>
      var (after, ok) := CreateStep(w.codes, k, p);
      if ok then World(after, w.redeemed[k := 0], w.released[k := 0], w.live[k := 0]) else w
    case Updated(k, p) => w.(codes := UpdateStep(w.codes, k, p).0)
    case Removed(k) => w.(codes := w.codes - {k})
  }

  function Run(w: World, events: seq<Event>): World
    decreases events
  {
    if events == [] then w else Run(Step(w, events[0]), events[1..])
  }

  /** The counter is redemptions minus releases, never negative, and never more than the redemptions still held. */
  ghost predicate Counted(w: World) {
    forall k :: k in w.codes ==> CountedAt(w, k)
  }

  predicate CountedAt(w: World, k: string)
    requires k in w.codes
  {
    && 0 <= w.codes[k].uses <= Count(w.live, k)
    && w.codes[k].uses == Count(w.redeemed, k) - Count(w.released, k)
  }

  ghost predicate AllWithinLimit(codes: Codes) {
    forall k :: k in codes ==> WithinLimit(codes[k])
  }

  lemma ReleaseIsSeen(codes: Codes, k: string)
    ensures ReleaseStep(codes, k) != codes <==> k in codes && codes[k].uses > 0
  {
    if k in codes && codes[k].uses > 0 {
      assert ReleaseStep(codes, k)[k].uses != codes[k].uses;
    }
  }

  lemma StepKeepsCount(w: World, e: Event)
    requires Counted(w)
    ensures Counted(Step(w, e))
  {
    forall k | k in Step(w, e).codes ensures CountedAt(Step(w, e), k) {
      if k in w.codes {
        assert CountedAt(w, k);
      }
      match e {
        case Released(other, twice) => ReleaseIsSeen(w.codes, other);
        case Updated(other, p) => UpdateKeepsUses(w.codes, other, p, k);
        case _ =>
      }
    }
  }

  lemma UpdateKeepsUses(codes: Codes, k: string, p: PromoCode, other: string)
    ensures var after := UpdateStep(codes, k, p).0;
            after.Keys == codes.Keys && (other in codes ==> after[other].uses == codes[other].uses)
  {
  }

  lemma StepKeepsLimit(w: World, e: Event)
    requires AllWithinLimit(w.codes) && Counted(w)
    ensures AllWithinLimit(Step(w, e).codes)
  {
  }

  /** An update as the service checks it, without the constraints of the table. */
  function UncheckedUpdate(codes: Codes, k: string, p: PromoCode): Codes {
    if p.discountPct <= 0.0 || p.discountPct > 100.0 || k !in codes then codes
    else codes[k := p.(uses := codes[k].uses)]
  }

  /** The service's own check does not protect the limit: without the table's constraint an update keeps it exactly when
      the service refuses it or the new limit covers the uses. */
  lemma UpdateNeedsTheConstraint(codes: Codes, k: string, p: PromoCode)
    requires AllWithinLimit(codes)
    ensures AllWithinLimit(UncheckedUpdate(codes, k, p)) <==>
              || k !in codes || p.discountPct <= 0.0 || p.discountPct > 100.0
              || p.maxUses.None? || codes[k].uses <= p.maxUses.value
  {
    var after := UncheckedUpdate(codes, k, p);
    if k in codes && after != codes {
      assert after[k].uses == codes[k].uses;
    }
  }

  lemma {:induction false} RunIsExact(w: World, events: seq<Event>)
    requires Counted(w) && AllWithinLimit(w.codes)
    ensures Counted(Run(w, events)) && AllWithinLimit(Run(w, events).codes)
    decreases events
  {
    if events != [] {
      StepKeepsCount(w, events[0]);
      StepKeepsLimit(w, events[0]);
      RunIsExact(Step(w, events[0]), events[1..]);
    }
  }

  /** In every interleaving of lookups, redemptions, releases and edits: the counter is the successful redemptions minus
      the effective releases, never negative, and never above the limit. */
  lemma UsesStayInBounds(events: seq<Event>, k: string)
    requires k in Run(START, events).codes
    ensures var w := Run(START, events);
            && 0 <= w.codes[k].uses <= Count(w.live, k) && WithinLimit(w.codes[k])
            && w.codes[k].uses == Count(w.redeemed, k) - Count(w.released, k)
  {
    RunIsExact(START, events);
    assert CountedAt(Run(START, events), k);
  }

  // ---------------------------------------------------------------- releasing twice

  /** The counter is the number of redemptions still held. */
  ghost predicate Exact(w: World) {
    forall k :: k in w.codes ==> w.codes[k].uses == Count(w.live, k)
  }

  /** A release keeps the counter exact exactly when it is the first of its redemption, or the counter is at zero. */
  lemma ReleaseKeepsExactIff(w: World, k: string, twice: bool)
    requires Exact(w)
    ensures Exact(Step(w, Released(k, twice))) <==> !twice || k !in w.codes || w.codes[k].uses == 0
  {
    var after := Step(w, Released(k, twice));
    if twice && k in w.codes && w.codes[k].uses > 0 {
      assert after.codes[k].uses == w.codes[k].uses - 1 && Count(after.live, k) == w.codes[k].uses;
    }
  }

  lemma StepKeepsExact(w: World, e: Event)
    requires Exact(w) && !(e.Released? && e.twice)
    ensures Exact(Step(w, e))
  {
    if e.Released? {
      ReleaseKeepsExactIff(w, e.k, e.twice);
    }
  }

  /** Over every run without a double release the redemptions still held are counted exactly, so they stay within the
      limit. */
  lemma {:induction false} FirstReleasesAreExact(w: World, events: seq<Event>)
    requires Exact(w) && forall i :: 0 <= i < |events| && events[i].Released? ==> !events[i].twice
    ensures Exact(Run(w, events))
    decreases events
  {
    if events != [] {
      StepKeepsExact(w, events[0]);
      FirstReleasesAreExact(Step(w, events[0]), events[1..]);
    }
  }

  /** Guests trying a code, one after the other. */
  function Tries(k: string, property: string, at: int, n: nat): seq<Event> {
    if n == 0 then [] else [TriedRedeem(k, property, at)] + Tries(k, property, at, n - 1)
  }

  /** Every rule but the limit passes. */
  predicate Open(p: PromoCode, at: int, property: string) {
    p.(maxUses := None).Validate(at, property).None?
  }

  lemma {:induction false} TriesTake(w: World, k: string, property: string, at: int, n: nat)
    requires k in w.codes && w.codes[k].maxUses.Some? && WithinLimit(w.codes[k]) && Open(w.codes[k], at, property)
    ensures var left := w.codes[k].maxUses.value - w.codes[k].uses;
            Count(Run(w, Tries(k, property, at, n)).live, k) == Count(w.live, k) + if n <= left then n else left
    decreases n
  {
    if n > 0 {
      var e := TriedRedeem(k, property, at);
      assert ([e] + Tries(k, property, at, n - 1))[1..] == Tries(k, property, at, n - 1);
      RowMatchesIffValid(w.codes[k], property, at);
      TriesTake(Step(w, e), k, property, at, n - 1);
    }
  }

  /** However many guests follow, the redemptions held stay within the limit exactly when the counter is exact now. */
  lemma HeldWithinLimitIff(w: World, k: string, property: string, at: int)
    requires k in w.codes && w.codes[k].maxUses.Some? && WithinLimit(w.codes[k]) && Open(w.codes[k], at, property)
    requires w.codes[k].uses <= Count(w.live, k)
    ensures (forall n: nat :: Count(Run(w, Tries(k, property, at, n)).live, k) <= w.codes[k].maxUses.value)
            <==> w.codes[k].uses == Count(w.live, k)
  {
    var left := w.codes[k].maxUses.value - w.codes[k].uses;
    TriesTake(w, k, property, at, left);
    if w.codes[k].uses == Count(w.live, k) {
      forall n: nat ensures Count(Run(w, Tries(k, property, at, n)).live, k) <= w.codes[k].maxUses.value {
        TriesTake(w, k, property, at, n);
      }
    }
  }

  lemma {:induction false} RunConcat(w: World, a: seq<Event>, b: seq<Event>)
    ensures Run(w, a + b) == Run(Run(w, a), b)
    decreases a
  {
    if a == [] {
      assert a + b == b;
    } else {
      assert (a + b)[1..] == a[1..] + b;
      RunConcat(Step(w, a[0]), a[1..], b);
    }
  }

  /** The clamp at zero does not keep a double release from making room: whatever the limit, one redemption released
      twice while another is held lets more guests hold the code than the limit allows. */
  lemma DoubleReleaseOversells(k: string, p: PromoCode, property: string, at: int)
    requires CreateStep(map[], k, p).1 && p.maxUses.Some? && Open(p, at, property)
    ensures exists events ::
              k in Run(START, events).codes && Run(START, events).codes[k].maxUses == p.maxUses
              && Count(Run(START, events).live, k) > p.maxUses.value
  {
    var e := TriedRedeem(k, property, at);
    var w := DoubleReleased(k, p, property, at);
    var prefix := [Created(k, p), e, Released(k, false), e, Released(k, true)];
    HeldWithinLimitIff(w, k, property, at);
    var n: nat :| Count(Run(w, Tries(k, property, at, n)).live, k) > p.maxUses.value;
    RunConcat(START, prefix, Tries(k, property, at, n));
    RunTriesKeepsLimit(w, k, property, at, n);
    assert Run(START, prefix + Tries(k, property, at, n)) == Run(w, Tries(k, property, at, n));
  }

  lemma {:induction false} RunTriesKeepsLimit(w: World, k: string, property: string, at: int, n: nat)
    requires k in w.codes
    ensures var after := Run(w, Tries(k, property, at, n)).codes; k in after && after[k].maxUses == w.codes[k].maxUses
    decreases n
  {
    if n > 0 {
      var e := TriedRedeem(k, property, at);
      assert ([e] + Tries(k, property, at, n - 1))[1..] == Tries(k, property, at, n - 1);
      RunTriesKeepsLimit(Step(w, e), k, property, at, n - 1);
    }
  }

  /** One guest redeems and gives back, a second redeems, the first gives back again. */
  lemma DoubleReleased(k: string, p: PromoCode, property: string, at: int) returns (w: World)
    requires CreateStep(map[], k, p).1 && p.maxUses.Some? && Open(p, at, property)
    ensures var e := TriedRedeem(k, property, at);
            w == Run(START, [Created(k, p), e, Released(k, false), e, Released(k, true)])
    ensures k in w.codes && w.codes[k] == p.(uses := 0) && Count(w.live, k) == 1
  {
    var e := TriedRedeem(k, property, at);
    var a, b, c := Created(k, p), Released(k, false), Released(k, true);
    var w1 := Step(START, a);
    RowMatchesIffValid(p.(uses := 0), property, at);
    var w2 := Step(w1, e);
    var w3 := Step(w2, b);
    var w4 := Step(w3, e);
    w := Step(w4, c);
    assert w2.codes[k] == p.(uses := 1) && w3.codes[k] == p.(uses := 0) && w4.codes[k] == p.(uses := 1);
    assert Run(w, []) == w;
    assert [c][1..] == [] && Run(w4, [c]) == w;
    assert [e, c][1..] == [c] && Run(w3, [e, c]) == w;
    assert [b, e, c][1..] == [e, c] && Run(w2, [b, e, c]) == w;
    assert [e, b, e, c][1..] == [b, e, c] && Run(w1, [e, b, e, c]) == w;
    assert [a, e, b, e, c][1..] == [e, b, e, c];
  }
}
