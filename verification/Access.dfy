/** What every run of role changes, failures and restarts keeps, and what a request is allowed as a result. */
module Access {
  import opened Results
  import opened Text
  import opened Policy
  import opened RoleBinder

  /** All rules of a role are in force in an org. */
  ghost predicate Complete(rules: Rules, role: string, org: string)
    requires KnownRole(role)
  {
    forall perm :: perm in RolePermissions(role) ==> RuleFor(role, org, perm) in rules.p
  }

  /** Bindings are to known roles whose rules are in force, and one per user and org. */
  ghost predicate GoodBindings(rules: Rules) {
    && (forall r :: r in rules.g ==> KnownRole(r.role) && Complete(rules, r.role, r.org))
    && (forall r, s :: r in rules.g && s in rules.g && r.user == s.user && r.org == s.org ==> r.role == s.role)
  }

  ghost predicate GoodPermissions(rules: Rules) {
    forall r :: r in rules.p ==> KnownRole(r.role) && Permission(r.pattern, r.action) in RolePermissions(r.role)
  }

  /** What the memo remembers is in force. */
  ghost predicate MemoHolds(b: Binder) {
    forall user, role, org :: KnownRole(role) && NUL !in org && BindingKey(user, role, org) in b.memo ==>
          GRule(user, role, org) in b.rules.g
  }

  ghost predicate Inv(b: Binder) {
    b.table == b.rules && GoodBindings(b.rules) && GoodPermissions(b.rules) && MemoHolds(b)
  }

  // ---------------------------------------------------------------- the decision

  /** The user id "member" has itself been bound to a higher role, so that everyone bound to member inherits it. */
  ghost predicate Raised(g: set<GRule>, org: string) {
    GRule(MEMBER, OWNER, org) in g || GRule(MEMBER, ADMIN, org) in g
  }

  /** From "member" links only lead on when it is raised. */
  lemma {:induction false} MemberLinks(g: set<GRule>, role: string, org: string, depth: nat)
    requires forall r :: r in g ==> KnownRole(r.role)
    requires role != MEMBER && HasLink(g, MEMBER, role, org, depth)
    ensures Raised(g, org)
    decreases depth
  {
    var r :| r in g && r.user == MEMBER && r.org == org && HasLink(g, r.role, role, org, depth - 1);
    assert r == GRule(MEMBER, r.role, org);
    if r.role == MEMBER {
      MemberLinks(g, role, org, depth - 1);
    }
  }

  /** What a role amounts to in an org: members of a raised org are treated like owners. */
  ghost function Lifted(g: set<GRule>, role: string, org: string): string {
    if role == MEMBER && Raised(g, org) then OWNER else role
  }

  /** Link chains collapse: a user reaches its own name, the role it is bound to, and further roles only from an owner
      or admin binding or from a raised member binding. */
  lemma LinksCollapse(rules: Rules, user: string, role: string, org: string)
    requires GoodBindings(rules) && HasLink(rules.g, user, role, org, LINK_DEPTH)
    ensures user == role
            || exists bound ::
                 GRule(user, bound, org) in rules.g && (bound == role || Lifted(rules.g, bound, org) != MEMBER)
  {
    if user != role {
      var r :| r in rules.g && r.user == user && r.org == org && HasLink(rules.g, r.role, role, org, LINK_DEPTH - 1);
      assert r == GRule(user, r.role, org);
      if r.role == MEMBER && role != MEMBER {
        MemberLinks(rules.g, role, org, LINK_DEPTH - 1);
      }
    }
  }

  /** One and two links are links. */
  lemma BoundIsLinked(g: set<GRule>, user: string, bound: string, role: string, org: string)
    requires GRule(user, bound, org) in g && (bound == role || GRule(bound, role, org) in g)
    ensures HasLink(g, user, role, org, LINK_DEPTH)
  {
    assert HasLink(g, role, role, org, LINK_DEPTH - 2);
    if bound != role {
      var s := GRule(bound, role, org);
      assert s in g && s.user == bound && s.org == org && HasLink(g, s.role, role, org, LINK_DEPTH - 2);
    }
    assert HasLink(g, bound, role, org, LINK_DEPTH - 1);
    var r := GRule(user, bound, org);
    assert r in g && r.user == user && r.org == org && HasLink(g, r.role, role, org, LINK_DEPTH - 1);
  }

  /** Where no role name has been bound itself, a user reaches exactly the roles it is bound to. */
  lemma LinksAreBindings(rules: Rules, user: string, role: string, org: string)
    requires GoodBindings(rules) && !KnownRole(user) && KnownRole(role)
    requires forall r :: r in rules.g && r.org == org ==> !KnownRole(r.user)
    ensures HasLink(rules.g, user, role, org, LINK_DEPTH) <==> GRule(user, role, org) in rules.g
  {
    if HasLink(rules.g, user, role, org, LINK_DEPTH) {
      var r :| r in rules.g && r.user == user && r.org == org && HasLink(rules.g, r.role, role, org, LINK_DEPTH - 1);
      assert r == GRule(user, r.role, org);
      assert r.role == role;
    }
    if GRule(user, role, org) in rules.g {
      BoundIsLinked(rules.g, user, role, role, org);
    }
  }

  /** The rules without the entries for the given patterns. */
  ghost function Without(rules: Rules, dropped: set<string>): Rules {
    rules.(p := set r | r in rules.p && r.pattern !in dropped)
  }

  /** A rule written for a role of the user's own name matches. */
  ghost predicate ByName(rules: Rules, user: string, org: string, procedure: string) {
    exists r :: r in rules.p && r.role == user && r.org == org
                && KeyMatch(procedure, r.pattern) && r.action == ActionFromProcedure(procedure)
  }

  /** A role the user is bound to, lifted if the org's members are, grants the procedure. */
  ghost predicate ByRole(g: set<GRule>, user: string, org: string, procedure: string) {
    exists role :: GRule(user, role, org) in g && Grants(Lifted(g, role, org), procedure)
  }

  /** A rule of a known role in force permits only what some role grants; owner's rules only absolute paths. */
  lemma RuleGrants(rules: Rules, r: PRule, procedure: string)
    requires GoodPermissions(rules) && r in rules.p
    requires KeyMatch(procedure, r.pattern) && r.action == ActionFromProcedure(procedure)
    ensures Grants(r.role, procedure) && Grants(OWNER, procedure)
  {
    var perm := Permission(r.pattern, r.action);
    PermissionsMeanGrants(r.role, procedure, {});
    assert perm in RolePermissions(r.role);
  }

  /** A complete role, reachable from a user, lets it do all the role grants, without the booking-engine rules too. */
  lemma CompleteRoleAllows(rules: Rules, user: string, role: string, org: string, procedure: string,
                           dropped: set<string>)
    requires KnownRole(role) && Complete(rules, role, org) && HasLink(rules.g, user, role, org, LINK_DEPTH)
    requires dropped <= {BOOKING_ENGINE} && Grants(role, procedure)
    ensures Allowed(Without(rules, dropped), user, org, procedure)
  {
    PermissionsMeanGrants(role, procedure, dropped);
    var perm :| perm in RolePermissions(role) && perm.pattern !in dropped
                && KeyMatch(procedure, perm.pattern) && perm.action == ActionFromProcedure(procedure);
    assert RuleFor(role, org, perm) in Without(rules, dropped).p;
  }

  lemma BoundRoleAllows(rules: Rules, user: string, role: string, org: string, procedure: string, dropped: set<string>)
    requires GoodBindings(rules) && dropped <= {BOOKING_ENGINE}
    requires GRule(user, role, org) in rules.g && Grants(Lifted(rules.g, role, org), procedure)
    ensures Allowed(Without(rules, dropped), user, org, procedure)
  {
    var g := rules.g;
    var top := if Lifted(g, role, org) == role then role else if GRule(MEMBER, OWNER, org) in g then OWNER else ADMIN;
    assert GRule(if top == role then user else MEMBER, top, org) in g;
    BoundIsLinked(g, user, role, top, org);
    CompleteRoleAllows(rules, user, top, org, procedure, dropped);
  }

  /** A rule reached through a binding permits only what the lifted role grants. */
  lemma LinkedRuleGrants(rules: Rules, user: string, r: PRule, org: string, procedure: string)
    requires GoodBindings(rules) && GoodPermissions(rules) && r in rules.p
    requires user != r.role && HasLink(rules.g, user, r.role, org, LINK_DEPTH)
    requires KeyMatch(procedure, r.pattern) && r.action == ActionFromProcedure(procedure)
    ensures ByRole(rules.g, user, org, procedure)
  {
    RuleGrants(rules, r, procedure);
    LinksCollapse(rules, user, r.role, org);
    var bound :| GRule(user, bound, org) in rules.g && (bound == r.role || Lifted(rules.g, bound, org) != MEMBER);
    assert KnownRole(GRule(user, bound, org).role);
    LiftedGrants(rules.g, bound, r.role, org, procedure);
  }

  lemma LiftedGrants(g: set<GRule>, bound: string, role: string, org: string, procedure: string)
    requires KnownRole(bound) && (bound == role || Lifted(g, bound, org) != MEMBER)
    requires Grants(role, procedure) && Grants(OWNER, procedure)
    ensures Grants(Lifted(g, bound, org), procedure)
  {
  }

  /** The decision for any user, role names included: by a rule of its own name, or by its lifted role. */
  lemma DecisionIs(rules: Rules, user: string, org: string, procedure: string, dropped: set<string>)
    requires GoodBindings(rules) && GoodPermissions(rules) && dropped <= {BOOKING_ENGINE}
    ensures Allowed(Without(rules, dropped), user, org, procedure) <==>
              ByName(Without(rules, dropped), user, org, procedure) || ByRole(rules.g, user, org, procedure)
  {
    var kept := Without(rules, dropped);
    if Allowed(kept, user, org, procedure) && !ByName(kept, user, org, procedure) {
      var r :| r in kept.p && HasLink(kept.g, user, r.role, org, LINK_DEPTH) && r.org == org
               && KeyMatch(procedure, r.pattern) && r.action == ActionFromProcedure(procedure);
      LinkedRuleGrants(rules, user, r, org, procedure);
    }
    if ByName(kept, user, org, procedure) {
      NamedIsAllowed(kept, user, org, procedure);
    }
    if role :| GRule(user, role, org) in rules.g && Grants(Lifted(rules.g, role, org), procedure) {
      BoundRoleAllows(rules, user, role, org, procedure, dropped);
    }
  }

  lemma NamedIsAllowed(rules: Rules, user: string, org: string, procedure: string)
    requires ByName(rules, user, org, procedure)
    ensures Allowed(rules, user, org, procedure)
  {
    assert HasLink(rules.g, user, user, org, LINK_DEPTH);
  }

  /** A user id that is no role name: a request is allowed exactly when the role its user is bound to grants it, lifted
      if the org's members are; the booking-engine rules change no decision. */
  lemma DecisionIsTheBinding(rules: Rules, user: string, org: string, procedure: string, dropped: set<string>)
    requires GoodBindings(rules) && GoodPermissions(rules) && !KnownRole(user) && dropped <= {BOOKING_ENGINE}
    ensures Allowed(Without(rules, dropped), user, org, procedure) <==> ByRole(rules.g, user, org, procedure)
  {
    DecisionIs(rules, user, org, procedure, dropped);
  }

  lemma NothingDropped(rules: Rules)
    ensures Without(rules, {}) == rules
  {
    assert Without(rules, {}).p == rules.p;
  }

  // ---------------------------------------------------------------- one Ensure

  lemma {:induction false} GrantAllKeeps(b: Binder, role: string, org: string, perms: seq<Permission>, calls: nat,
                                         fails: nat -> bool)
    requires Inv(b) && KnownRole(role) && forall i :: 0 <= i < |perms| ==> perms[i] in RolePermissions(role)
    ensures var (after, ok) := GrantAll(b, role, org, perms, calls, fails);
            && Inv(after) && after.rules.g == b.rules.g && after.memo == b.memo && b.rules.p <= after.rules.p
            && (ok ==> forall i :: 0 <= i < |perms| ==> RuleFor(role, org, perms[i]) in after.rules.p)
    decreases perms
  {
    if perms != [] {
      var (next, ok) := AddP(b, RuleFor(role, org, perms[0]), fails(calls));
      assert Permission(perms[0].pattern, perms[0].action) == perms[0];
      if ok {
        assert Inv(next);
        GrantAllKeeps(next, role, org, perms[1..], calls + 1, fails);
      }
    }
  }

  /** Unbinding only takes away this user's bindings to other roles in this org; on success it takes them all. */
  lemma {:induction false} UnbindAllKeeps(b: Binder, user: string, role: string, org: string, others: seq<string>,
                                          calls: nat, fails: nat -> bool)
    requires Inv(b) && NUL !in org && forall i :: 0 <= i < |others| ==> KnownRole(others[i])
    ensures var (after, ok) := UnbindAll(b, user, role, org, others, calls, fails);
            && Inv(after) && after.rules.p == b.rules.p && after.rules.g <= b.rules.g && after.memo <= b.memo
            && (forall r :: r in b.rules.g && r !in after.rules.g ==> r.user == user && r.org == org && r.role != role)
            && (ok ==> forall i :: 0 <= i < |others| && others[i] != role ==>
                         GRule(user, others[i], org) !in after.rules.g)
    decreases others
  {
    if others != [] {
      if others[0] == role {
        UnbindAllKeeps(b, user, role, org, others[1..], calls, fails);
      } else {
        var (removed, ok) := RemoveG(b, GRule(user, others[0], org), fails(calls));
        if ok {
          var next := removed.(memo := removed.memo - {BindingKey(user, others[0], org)});
          assert MemoHolds(next) by {
            forall u, r, o | KnownRole(r) && NUL !in o && BindingKey(u, r, o) in next.memo
                ensures GRule(u, r, o) in next.rules.g
            {
              assert GRule(u, r, o) in b.rules.g;
            }
          }
          UnbindAllKeeps(next, user, role, org, others[1..], calls + 1, fails);
        }
      }
    }
  }

  predicate NulFree(s: string) { NUL !in s }

  lemma RolesAreNulFree(role: string)
    requires KnownRole(role)
    ensures NulFree(role)
  {
  }

  /** One Ensure, whatever fails in it: the invariant stays, other users and orgs keep their bindings exactly, and this
      user ends with the new role on success and with at most its old role on failure. */
  lemma EnsureKeeps(b: Binder, user: string, claimed: string, org: string, order: seq<string>, fails: nat -> bool)
    requires Inv(b) && RoleOrder(order) && NUL !in org
    ensures var (after, ok) := EnsureStep(b, user, claimed, org, order, fails);
            && Inv(after)
            && (forall r: GRule :: !(r.user == user && r.org == org) ==> (r in after.rules.g <==> r in b.rules.g))
            && (user != "" && org != "" && ok ==>
                  forall role :: GRule(user, role, org) in after.rules.g <==> role == Effective(claimed))
            && (!(user != "" && org != "" && ok) ==>
                  forall role :: GRule(user, role, org) in after.rules.g ==> GRule(user, role, org) in b.rules.g)
            && (!(user != "" && org != "") ==> after == b)
  {
    var role := Effective(claimed);
    if user != "" && org != "" {
      if BindingKey(user, role, org) in b.memo {
        assert GRule(user, role, org) in b.rules.g;
      } else {
        BindKeeps(b, user, role, org, order, fails);
      }
    }
  }

  /** Remembering a binding that is in force keeps the memo true; key injectivity rules out a false hit. */
  lemma RememberedHolds(b: Binder, user: string, role: string, org: string)
    requires MemoHolds(b) && KnownRole(role) && NUL !in org && GRule(user, role, org) in b.rules.g
    ensures MemoHolds(b.(memo := b.memo + {BindingKey(user, role, org)}))
  {
    var after := b.(memo := b.memo + {BindingKey(user, role, org)});
    forall u, r, o | KnownRole(r) && NUL !in o && BindingKey(u, r, o) in after.memo
        ensures GRule(u, r, o) in after.rules.g
    {
      RolesAreNulFree(r);
      RolesAreNulFree(role);
      if BindingKey(u, r, o) == BindingKey(user, role, org) {
        BindingKeyInjective(u, r, o, user, role, org);
      }
    }
  }

  lemma BindKeeps(b: Binder, user: string, role: string, org: string, order: seq<string>, fails: nat -> bool)
    requires Inv(b) && RoleOrder(order) && NUL !in org && KnownRole(role)
    ensures var (after, ok) := Bind(b, user, role, org, order, fails);
            && Inv(after)
            && (forall r: GRule :: !(r.user == user && r.org == org) ==> (r in after.rules.g <==> r in b.rules.g))
            && (ok ==> forall x :: GRule(user, x, org) in after.rules.g <==> x == role)
            && (!ok ==> after.rules.g <= b.rules.g)
  {
    var perms := RolePermissions(role);
    GrantAllKeeps(b, role, org, perms, 0, fails);
    var (granted, ok1) := GrantAll(b, role, org, perms, 0, fails);
    if ok1 {
      UnbindAllKeeps(granted, user, role, org, order, 4, fails);
      var (unbound, ok2) := UnbindAll(granted, user, role, org, order, 4, fails);
      if ok2 {
        forall x | GRule(user, x, org) in unbound.rules.g ensures x == role {
          assert KnownRole(GRule(user, x, org).role);
          assert x in order;
        }
        assert Complete(unbound.rules, role, org);
        BindOneKeeps(unbound, user, role, org, fails(8));
      }
    }
  }

  /** Adding the one binding a user has in an org, once the role's rules are in force. */
  lemma BindOneKeeps(b: Binder, user: string, role: string, org: string, fails: bool)
    requires Inv(b) && NUL !in org && KnownRole(role) && Complete(b.rules, role, org)
    requires forall x :: GRule(user, x, org) in b.rules.g ==> x == role
    ensures var (bound, ok) := AddG(b, GRule(user, role, org), fails);
            ok ==> Inv(bound.(memo := bound.memo + {BindingKey(user, role, org)}))
  {
    var (bound, ok) := AddG(b, GRule(user, role, org), fails);
    if ok {
      assert GoodBindings(bound.rules) by {
        forall r | r in bound.rules.g ensures Complete(bound.rules, r.role, r.org) {
          assert r in b.rules.g || r == GRule(user, role, org);
        }
        forall r, s | r in bound.rules.g && s in bound.rules.g && r.user == s.user && r.org == s.org
            ensures r.role == s.role
        {
          assert r == GRule(r.user, r.role, r.org) && s == GRule(s.user, s.role, s.org);
        }
      }
      assert MemoHolds(bound);
      RememberedHolds(bound, user, role, org);
    }
  }

  // ---------------------------------------------------------------- the memo

  /** A memo entry means: the role's rules are in force, the user is bound to it, and to no other role in the org. */
  lemma MemoAgrees(b: Binder, user: string, role: string, org: string)
    requires Inv(b) && KnownRole(role) && NUL !in org && BindingKey(user, role, org) in b.memo
    ensures Complete(b.rules, role, org) && forall other :: GRule(user, other, org) in b.rules.g <==> other == role
  {
    assert GRule(user, role, org) in b.rules.g;
  }

  lemma {:induction false} GrantAllNoop(b: Binder, role: string, org: string, perms: seq<Permission>, calls: nat,
                                        fails: nat -> bool)
    requires forall i :: 0 <= i < |perms| ==> RuleFor(role, org, perms[i]) in b.rules.p
    ensures GrantAll(b, role, org, perms, calls, fails) == (b, true)
    decreases perms
  {
    if perms != [] {
      GrantAllNoop(b, role, org, perms[1..], calls + 1, fails);
    }
  }

  lemma {:induction false} UnbindAllNoop(b: Binder, user: string, role: string, org: string, others: seq<string>,
                                         calls: nat, fails: nat -> bool)
    requires b.table == b.rules && forall n :: !fails(n)
    requires forall i :: 0 <= i < |others| && others[i] != role ==>
               GRule(user, others[i], org) !in b.rules.g && BindingKey(user, others[i], org) !in b.memo
    ensures UnbindAll(b, user, role, org, others, calls, fails) == (b, true)
    decreases others
  {
    if others != [] {
      if others[0] == role {
        UnbindAllNoop(b, user, role, org, others[1..], calls, fails);
      } else {
        assert b.rules.g - {GRule(user, others[0], org)} == b.rules.g;
        assert b.memo - {BindingKey(user, others[0], org)} == b.memo;
        UnbindAllNoop(b, user, role, org, others[1..], calls + 1, fails);
      }
    }
  }

  /** Skipping on a memo hit is what re-running the body would have done. */
  lemma MemoHitEqualsRerun(b: Binder, user: string, role: string, org: string, order: seq<string>, fails: nat -> bool)
    requires Inv(b) && KnownRole(role) && NUL !in org && RoleOrder(order)
    requires BindingKey(user, role, org) in b.memo && forall n :: !fails(n)
    ensures Bind(b, user, role, org, order, fails) == (b, true)
  {
    MemoAgrees(b, user, role, org);
    GrantAllNoop(b, role, org, RolePermissions(role), 0, fails);
    forall i | 0 <= i < |order| && order[i] != role
      ensures GRule(user, order[i], org) !in b.rules.g && BindingKey(user, order[i], org) !in b.memo
    {
      assert order[i] in order && KnownRole(order[i]);
    }
    UnbindAllNoop(b, user, role, org, order, 4, fails);
    assert b.memo + {BindingKey(user, role, org)} == b.memo;
  }

  // ---------------------------------------------------------------- runs

  datatype Event =
    | Ensured(user: string, claimed: string, org: string, order: seq<string>, fails: nat -> bool)
    | Restarted

  /** `last` is the role of the last successful Ensure per user and org; `broken` the pairs with a failed one since. */
  datatype World = World(binder: Binder, last: map<(string, string), string>, broken: set<(string, string)>)

  const START := World(EMPTY, map[], {})

  function Step(w: World, e: Event): World {
    match e
    case Restarted => w.(binder := Binder(w.binder.table, w.binder.table, {}))
    case Ensured(user, claimed, org, order, fails) =>
      var (after, ok) := EnsureStep(w.binder, user, claimed, org, order, fails);
      if user == "" || org == "" then w.(binder := after)
      else if ok then World(after, w.last[(user, org) := Effective(claimed)], w.broken - {(user, org)})
      else World(after, w.last, w.broken + {(user, org)})
  }

  function Run(w: World, events: seq<Event>): World
    decreases events
  {
    if events == [] then w else Run(Step(w, events[0]), events[1..])
  }

  /** Org ids hold no NUL, and the role table is walked in some order. User ids are any text, role names included. */
  ghost predicate Sane(events: seq<Event>) {
    forall i :: 0 <= i < |events| && events[i].Ensured? ==> RoleOrder(events[i].order) && NUL !in events[i].org
  }

  /** Bindings follow the last successful Ensure: never beyond it, and up to it unless a later Ensure failed. */
  ghost predicate Tracks(w: World) {
    && (forall user, role, org :: GRule(user, role, org) in w.binder.rules.g ==>
        (user, org) in w.last && w.last[(user, org)] == role)
    && (forall user, org :: (user, org) in w.last && (user, org) !in w.broken ==>
        GRule(user, w.last[(user, org)], org) in w.binder.rules.g)
    && (forall user, org :: (user, org) in w.last ==> KnownRole(w.last[(user, org)]))
  }

  lemma StepKeeps(w: World, e: Event)
    requires Inv(w.binder) && Tracks(w)
    requires e.Ensured? ==> RoleOrder(e.order) && NUL !in e.org
    ensures Inv(Step(w, e).binder) && Tracks(Step(w, e))
  {
    if e.Ensured? {
      EnsureKeeps(w.binder, e.user, e.claimed, e.org, e.order, e.fails);
      var next := Step(w, e);
      forall user, role, org | GRule(user, role, org) in next.binder.rules.g
        ensures (user, org) in next.last && next.last[(user, org)] == role
      {
        if user == e.user && org == e.org {
        } else {
          assert GRule(user, role, org) in w.binder.rules.g;
        }
      }
      forall user, org | (user, org) in next.last && (user, org) !in next.broken
        ensures GRule(user, next.last[(user, org)], org) in next.binder.rules.g
      {
        if !(user == e.user && org == e.org) {
          assert GRule(user, w.last[(user, org)], org) in w.binder.rules.g;
        }
      }
    }
  }

  /** Every run keeps memo, enforcer and table in agreement, including runs in which enforcer calls fail. */
  lemma {:induction false} RunKeeps(w: World, events: seq<Event>)
    requires Inv(w.binder) && Tracks(w) && Sane(events)
    ensures Inv(Run(w, events).binder) && Tracks(Run(w, events))
    decreases events
  {
    if events != [] {
      StepKeeps(w, events[0]);
      assert Sane(events[1..]) by {
        forall i | 0 <= i < |events[1..]| && events[1..][i].Ensured?
          ensures RoleOrder(events[1..][i].order) && NUL !in events[1..][i].org
        {
          assert events[1..][i] == events[i + 1];
        }
      }
      RunKeeps(Step(w, events[0]), events[1..]);
    }
  }

  /** The role that should decide for a user: its last one, or for members the last one of the user id "member". */
  function Deciding(last: map<(string, string), string>, user: string, org: string): Option<string> {
    if (user, org) !in last then None
    else if last[(user, org)] == MEMBER && (MEMBER, org) in last then Some(last[(MEMBER, org)])
    else Some(last[(user, org)])
  }

  /** When "member" is raised, in terms of the last role given to it. */
  lemma RaisedTracks(w: World, org: string)
    requires Tracks(w)
    ensures Raised(w.binder.rules.g, org) ==> (MEMBER, org) in w.last && w.last[(MEMBER, org)] != MEMBER
    ensures (MEMBER, org) !in w.broken ==>
              (Raised(w.binder.rules.g, org) <==> (MEMBER, org) in w.last && w.last[(MEMBER, org)] != MEMBER)
  {
    assert OWNER != MEMBER && ADMIN != MEMBER by { assert |OWNER| != |MEMBER| && |ADMIN| != |MEMBER|; }
  }

  /** From an empty policy, after any role changes, failures and restarts: a request of a user whose id is no role name
      is allowed only if the last role successfully ensured for it grants the procedure, or for members the role of a
      user called "member"; and exactly then unless a later change of either failed half-way. The booking-engine rules
      play no part. */
  lemma DecisionIsTheLastRole(events: seq<Event>, user: string, org: string, procedure: string)
    requires Sane(events) && !KnownRole(user)
    ensures var w := Run(START, events);
            var role := Deciding(w.last, user, org);
            && (Allowed(w.binder.rules, user, org, procedure) ==>
                  role.Some? && (Grants(role.value, procedure) || Grants(w.last[(user, org)], procedure)))
            && ((user, org) !in w.broken && (MEMBER, org) !in w.broken ==>
                  (Allowed(w.binder.rules, user, org, procedure) <==> role.Some? && Grants(role.value, procedure)))
            && (Allowed(Without(w.binder.rules, {BOOKING_ENGINE}), user, org, procedure) <==>
                  Allowed(w.binder.rules, user, org, procedure))
  {
    RunKeeps(START, events);
    var w := Run(START, events);
    DecisionIsTheBinding(w.binder.rules, user, org, procedure, {});
    NothingDropped(w.binder.rules);
    DecisionIsTheBinding(w.binder.rules, user, org, procedure, {BOOKING_ENGINE});
    RaisedTracks(w, org);
  }

  /** An Ensure for a user whose id is no role name, even one that fails half-way, leaves every decision about other
      such users and orgs as it was, and a failed one gives its own user nothing it did not have. */
  lemma EnsureIsContained(b: Binder, user: string, claimed: string, org: string, order: seq<string>, fails: nat -> bool,
                          someone: string, somewhere: string, procedure: string)
    requires Inv(b) && RoleOrder(order) && NUL !in org && !KnownRole(user) && !KnownRole(someone)
    ensures var (after, ok) := EnsureStep(b, user, claimed, org, order, fails);
            && ((someone, somewhere) != (user, org) ==>
                  (Allowed(after.rules, someone, somewhere, procedure) <==>
                   Allowed(b.rules, someone, somewhere, procedure)))
            && (!ok && Allowed(after.rules, someone, somewhere, procedure) ==>
                Allowed(b.rules, someone, somewhere, procedure))
  {
    var (after, ok) := EnsureStep(b, user, claimed, org, order, fails);
    EnsureKeeps(b, user, claimed, org, order, fails);
    DecisionIsTheBinding(b.rules, someone, somewhere, procedure, {});
    DecisionIsTheBinding(after.rules, someone, somewhere, procedure, {});
    NothingDropped(b.rules);
    NothingDropped(after.rules);
    assert Raised(after.rules.g, somewhere) <==> Raised(b.rules.g, somewhere);
  }

  // ---------------------------------------------------------------- user ids that are role names

  lemma {:induction false} LastSlashOf(prefix: string, name: string)
    requires '/' !in name
    ensures '/' in prefix + "/" + name && LastSlash(prefix + "/" + name) == |prefix|
  {
    var s := prefix + "/" + name;
    assert s[|prefix|] == '/';
    if prefix == "" {
      assert s[1..] == name;
    } else {
      LastSlashOf(prefix[1..], name);
      assert s[1..] == prefix[1..] + "/" + name;
    }
  }

  lemma MethodAction(prefix: string, name: string)
    requires '/' !in name
    ensures MethodOf(prefix + "/" + name) == Some(name)
  {
    LastSlashOf(prefix, name);
    assert (prefix + "/" + name)[|prefix| + 1..] == name;
  }

  lemma GetReads(prefix: string)
    ensures ActionFromProcedure(prefix + "/" + "Get") == READ
  {
    MethodAction(prefix, "Get");
  }

  lemma SetWrites(prefix: string)
    ensures ActionFromProcedure(prefix + "/" + "Set") == WRITE
  {
    MethodAction(prefix, "Set");
    assert !("Get" <= "Set") by { assert "Get"[0] != "Set"[0]; }
    assert !("List" <= "Set") by { assert |"List"| > |"Set"|; }
  }

  /** A procedure of the given action that a pattern matches. */
  function Example(pattern: string, action: string): string {
    (if pattern == ANY_PROCEDURE then "" else "/bookingengine.v1.BookingEngineService") + "/"
        + (if action == READ then "Get" else "Set")
  }

  lemma ExampleMatches(pattern: string, action: string)
    requires pattern == ANY_PROCEDURE || pattern == BOOKING_ENGINE
    ensures KeyMatch(Example(pattern, action), pattern)
  {
    var prefix := if pattern == ANY_PROCEDURE then "" else "/bookingengine.v1.BookingEngineService";
    KeyMatchIsPrefix(prefix + "/", Example(pattern, action));
    assert pattern == prefix + "/" + "*";
  }

  lemma ExampleAction(pattern: string, action: string)
    requires action == READ || action == WRITE
    ensures ActionFromProcedure(Example(pattern, action)) == action
  {
    GetReads(if pattern == ANY_PROCEDURE then "" else "/bookingengine.v1.BookingEngineService");
    SetWrites(if pattern == ANY_PROCEDURE then "" else "/bookingengine.v1.BookingEngineService");
  }

  /** Rules of a role of the user's own name let it write in the org. */
  ghost predicate WritesByName(rules: Rules, user: string, org: string) {
    exists r :: r in rules.p && r.role == user && r.org == org && r.action == WRITE
  }

  /** For every user, role names included: the decisions are those of the role it is bound to, on all procedures,
      exactly when that role is not member, or nothing raises it: neither a higher role of the user id "member" nor
      write rules of a role with the user's own name. */
  lemma BoundDecisionIff(rules: Rules, user: string, role: string, org: string)
    requires GoodBindings(rules) && GoodPermissions(rules) && GRule(user, role, org) in rules.g
    ensures (forall procedure :: Allowed(rules, user, org, procedure) <==> Grants(role, procedure)) <==>
              role != MEMBER || (!Raised(rules.g, org) && !WritesByName(rules, user, org))
  {
    NothingDropped(rules);
    if role == MEMBER && Raised(rules.g, org) {
      RaisedMemberWrites(rules, user, org);
    } else if role == MEMBER && WritesByName(rules, user, org) {
      NamedUserWrites(rules, user, org);
    } else {
      forall procedure ensures Allowed(rules, user, org, procedure) <==> Grants(role, procedure) {
        UnraisedDecision(rules, user, role, org, procedure);
      }
    }
  }

  lemma RaisedMemberWrites(rules: Rules, user: string, org: string)
    requires GoodBindings(rules) && GRule(user, MEMBER, org) in rules.g && Raised(rules.g, org)
    ensures exists procedure :: Allowed(rules, user, org, procedure) && !Grants(MEMBER, procedure)
  {
    var procedure := Example(ANY_PROCEDURE, WRITE);
    ExampleAction(ANY_PROCEDURE, WRITE);
    ExampleMatches(ANY_PROCEDURE, WRITE);
    PatternsMatch(procedure);
    WriteIsNotRead(procedure);
    NothingDropped(rules);
    BoundRoleAllows(rules, user, MEMBER, org, procedure, {});
  }

  lemma WriteIsNotRead(procedure: string)
    requires ActionFromProcedure(procedure) == WRITE
    ensures !Grants(MEMBER, procedure)
  {
    assert READ != WRITE by { assert READ[0] != WRITE[0]; }
    assert MEMBER != OWNER && MEMBER != ADMIN by { assert |OWNER| != |MEMBER| && |ADMIN| != |MEMBER|; }
  }

  lemma NamedUserWrites(rules: Rules, user: string, org: string)
    requires GoodPermissions(rules) && WritesByName(rules, user, org)
    ensures exists procedure :: Allowed(rules, user, org, procedure) && !Grants(MEMBER, procedure)
  {
    var r :| r in rules.p && r.role == user && r.org == org && r.action == WRITE;
    PermissionsAre(r.role, Permission(r.pattern, r.action));
    var procedure := Example(r.pattern, WRITE);
    ExampleAction(r.pattern, WRITE);
    ExampleMatches(r.pattern, WRITE);
    WriteIsNotRead(procedure);
    assert HasLink(rules.g, user, r.role, org, LINK_DEPTH);
    assert Allowed(rules, user, org, procedure);
  }

  lemma UnraisedDecision(rules: Rules, user: string, role: string, org: string, procedure: string)
    requires GoodBindings(rules) && GoodPermissions(rules) && GRule(user, role, org) in rules.g
    requires role != MEMBER || (!Raised(rules.g, org) && !WritesByName(rules, user, org))
    ensures Allowed(rules, user, org, procedure) <==> Grants(role, procedure)
  {
    DecisionIs(rules, user, org, procedure, {});
    NothingDropped(rules);
    assert KnownRole(GRule(user, role, org).role);
    assert Lifted(rules.g, role, org) == role;
    if ByName(rules, user, org, procedure) {
      NamedRuleIsCovered(rules, user, role, org, procedure);
    }
    if ByRole(rules.g, user, org, procedure) {
      var bound :| GRule(user, bound, org) in rules.g && Grants(Lifted(rules.g, bound, org), procedure);
      assert GRule(user, bound, org).role == GRule(user, role, org).role;
    }
  }

  /** What a rule of the user's own name permits is granted by its role, unless that is member and the rule a write
      rule. */
  lemma NamedRuleIsCovered(rules: Rules, user: string, role: string, org: string, procedure: string)
    requires GoodPermissions(rules) && KnownRole(role) && ByName(rules, user, org, procedure)
    requires role != MEMBER || !WritesByName(rules, user, org)
    ensures Grants(role, procedure)
  {
    var r :| r in rules.p && r.role == user && r.org == org
             && KeyMatch(procedure, r.pattern) && r.action == ActionFromProcedure(procedure);
    RuleGrants(rules, r, procedure);
    RoleCovers(role, procedure);
  }

  lemma RoleCovers(role: string, procedure: string)
    requires KnownRole(role) && Grants(OWNER, procedure)
    requires role != MEMBER || ActionFromProcedure(procedure) != WRITE
    ensures Grants(role, procedure)
  {
  }

  /** Over every run, for every user whose last role change succeeded: that role alone decides if and only if it is not
      member or nothing raises it. */
  lemma LastRoleDecidesIff(events: seq<Event>, user: string, org: string)
    requires Sane(events)
    requires (user, org) in Run(START, events).last && (user, org) !in Run(START, events).broken
    ensures var w := Run(START, events);
            var role := w.last[(user, org)];
            (forall procedure :: Allowed(w.binder.rules, user, org, procedure) <==> Grants(role, procedure)) <==>
              role != MEMBER || (!Raised(w.binder.rules.g, org) && !WritesByName(w.binder.rules, user, org))
  {
    RunKeeps(START, events);
    var w := Run(START, events);
    BoundDecisionIff(w.binder.rules, user, w.last[(user, org)], org);
  }

  /** A user without a binding is denied everywhere in an org exactly while no rule of a role of its name exists
      there. */
  lemma UnboundIsDeniedIff(rules: Rules, user: string, org: string)
    requires GoodBindings(rules) && GoodPermissions(rules)
    requires forall role :: GRule(user, role, org) !in rules.g
    ensures (forall procedure :: !Allowed(rules, user, org, procedure)) <==>
              forall r :: r in rules.p ==> !(r.role == user && r.org == org)
  {
    NothingDropped(rules);
    if r :| r in rules.p && r.role == user && r.org == org {
      var procedure := Example(r.pattern, r.action);
      PermissionsAre(r.role, Permission(r.pattern, r.action));
      ExampleMatches(r.pattern, r.action);
      ExampleAction(r.pattern, r.action);
      assert HasLink(rules.g, user, r.role, org, LINK_DEPTH);
      assert Allowed(rules, user, org, procedure);
    }
    if procedure :| Allowed(rules, user, org, procedure) {
      DecisionIs(rules, user, org, procedure, {});
    }
  }

  /** When a successful Ensure changes what another user may do: exactly when it raises or lowers the user id "member"
      in an org where the other is bound to member. */
  lemma EnsureChangesOthersIff(b: Binder, user: string, claimed: string, org: string, order: seq<string>,
                               fails: nat -> bool, someone: string, somewhere: string)
    requires Inv(b) && RoleOrder(order) && NUL !in org && !KnownRole(someone) && (someone, somewhere) != (user, org)
    requires EnsureStep(b, user, claimed, org, order, fails).1
    ensures var after := EnsureStep(b, user, claimed, org, order, fails).0;
            (forall procedure ::
               Allowed(after.rules, someone, somewhere, procedure) <==> Allowed(b.rules, someone, somewhere, procedure))
            <==> !(user == MEMBER && org != "" && somewhere == org && GRule(someone, MEMBER, org) in b.rules.g
                   && (Effective(claimed) != MEMBER) != Raised(b.rules.g, org))
  {
    var after := EnsureStep(b, user, claimed, org, order, fails).0;
    EnsureKeeps(b, user, claimed, org, order, fails);
    RaisedAfter(b, user, claimed, org, order, fails, somewhere);
    if GRule(someone, MEMBER, somewhere) in b.rules.g {
      assert GRule(someone, MEMBER, somewhere) in after.rules.g;
      BoundDecisionIff(b.rules, someone, MEMBER, somewhere);
      BoundDecisionIff(after.rules, someone, MEMBER, somewhere);
      assert !WritesByName(b.rules, someone, somewhere) && !WritesByName(after.rules, someone, somewhere);
    }
    if !GRuleOf(b.rules.g, someone, somewhere) || Raised(after.rules.g, somewhere) == Raised(b.rules.g, somewhere) {
      forall procedure
        ensures Allowed(after.rules, someone, somewhere, procedure) <==> Allowed(b.rules, someone, somewhere, procedure)
      {
        NothingDropped(b.rules);
        NothingDropped(after.rules);
        DecisionIsTheBinding(b.rules, someone, somewhere, procedure, {});
        DecisionIsTheBinding(after.rules, someone, somewhere, procedure, {});
      }
    }
  }

  /** The user is bound to member. */
  ghost predicate GRuleOf(g: set<GRule>, user: string, org: string) {
    GRule(user, MEMBER, org) in g
  }

  /** A successful Ensure raises or lowers "member" only if it is for that very user id. */
  lemma RaisedAfter(b: Binder, user: string, claimed: string, org: string, order: seq<string>, fails: nat -> bool,
                    somewhere: string)
    requires Inv(b) && RoleOrder(order) && NUL !in org && EnsureStep(b, user, claimed, org, order, fails).1
    ensures Raised(EnsureStep(b, user, claimed, org, order, fails).0.rules.g, somewhere) <==>
              if user == MEMBER && org != "" && somewhere == org then Effective(claimed) != MEMBER
              else Raised(b.rules.g, somewhere)
  {
    EnsureKeeps(b, user, claimed, org, order, fails);
    assert OWNER != MEMBER && ADMIN != MEMBER by { assert |OWNER| != |MEMBER| && |ADMIN| != |MEMBER|; }
  }

  // ---------------------------------------------------------------- what an Ensure changes for anyone

  /** A rule of the user's own name for the pattern, or a role it is bound to, gives it the action. */
  ghost predicate Can(rules: Rules, user: string, org: string, pattern: string, action: string) {
    || PRule(user, org, pattern, action) in rules.p
    || exists role :: GRule(user, role, org) in rules.g && (action == READ || Lifted(rules.g, role, org) != MEMBER)
  }

  lemma RoleGives(role: string, procedure: string)
    requires KnownRole(role)
    ensures Grants(role, procedure) <==>
              "/" <= procedure && (ActionFromProcedure(procedure) == READ || role != MEMBER)
  {
    assert READ != WRITE by { assert READ[0] != WRITE[0]; }
  }

  lemma NamedRulesGive(rules: Rules, user: string, org: string, procedure: string)
    requires GoodPermissions(rules)
    ensures var action := ActionFromProcedure(procedure);
            ByName(rules, user, org, procedure) <==>
              "/" <= procedure
              && (PRule(user, org, ANY_PROCEDURE, action) in rules.p
                  || (KeyMatch(procedure, BOOKING_ENGINE) && PRule(user, org, BOOKING_ENGINE, action) in rules.p))
  {
    PatternsMatch(procedure);
    if ByName(rules, user, org, procedure) {
      var r :| r in rules.p && r.role == user && r.org == org
               && KeyMatch(procedure, r.pattern) && r.action == ActionFromProcedure(procedure);
      PermissionsAre(r.role, Permission(r.pattern, r.action));
      assert r == PRule(user, org, r.pattern, r.action);
    }
  }

  lemma BoundRolesGive(rules: Rules, user: string, org: string, procedure: string)
    requires GoodBindings(rules)
    ensures ByRole(rules.g, user, org, procedure) <==>
              "/" <= procedure
              && exists role :: GRule(user, role, org) in rules.g
                                && (ActionFromProcedure(procedure) == READ || Lifted(rules.g, role, org) != MEMBER)
  {
    forall role | GRule(user, role, org) in rules.g
      ensures Grants(Lifted(rules.g, role, org), procedure) <==>
                "/" <= procedure && (ActionFromProcedure(procedure) == READ || Lifted(rules.g, role, org) != MEMBER)
    {
      assert KnownRole(GRule(user, role, org).role);
      RoleGives(Lifted(rules.g, role, org), procedure);
    }
  }

  /** Four facts about a user and an org decide every procedure. */
  lemma CanDecides(rules: Rules, user: string, org: string, procedure: string)
    requires GoodBindings(rules) && GoodPermissions(rules)
    ensures var action := ActionFromProcedure(procedure);
            Allowed(rules, user, org, procedure) <==>
              "/" <= procedure
              && (Can(rules, user, org, ANY_PROCEDURE, action)
                  || (KeyMatch(procedure, BOOKING_ENGINE) && Can(rules, user, org, BOOKING_ENGINE, action)))
  {
    NothingDropped(rules);
    DecisionIs(rules, user, org, procedure, {});
    NamedRulesGive(rules, user, org, procedure);
    BoundRolesGive(rules, user, org, procedure);
  }

  /** The two patterns agree, as far as the wider one leaves the narrower one a say. */
  predicate SamePower(any: bool, engine: bool, any': bool, engine': bool) {
    any == any' && (any || engine == engine')
  }

  lemma ShortPathIsOutside(procedure: string)
    requires |procedure| < 10
    ensures !KeyMatch(procedure, BOOKING_ENGINE)
  {
    var service := "/bookingengine.v1.BookingEngineService/";
    assert BOOKING_ENGINE == service + "*";
    KeyMatchIsPrefix(service, procedure);
  }

  lemma AnyExampleIsShort(action: string)
    ensures |Example(ANY_PROCEDURE, action)| == 4
  {
  }

  lemma ExampleIsAbsolute(pattern: string, action: string)
    requires pattern == ANY_PROCEDURE || pattern == BOOKING_ENGINE
    ensures "/" <= Example(pattern, action)
    ensures KeyMatch(Example(pattern, action), BOOKING_ENGINE) <==> pattern == BOOKING_ENGINE
  {
    ExampleMatches(pattern, action);
    PatternsMatch(Example(pattern, action));
    if pattern == ANY_PROCEDURE {
      AnyExampleIsShort(action);
      ShortPathIsOutside(Example(pattern, action));
    }
  }

  lemma PowerShows(rules: Rules, other: Rules, user: string, org: string, action: string)
    requires GoodBindings(rules) && GoodPermissions(rules) && GoodBindings(other) && GoodPermissions(other)
    requires action == READ || action == WRITE
    requires forall procedure :: Allowed(rules, user, org, procedure) <==> Allowed(other, user, org, procedure)
    ensures SamePower(Can(rules, user, org, ANY_PROCEDURE, action), Can(rules, user, org, BOOKING_ENGINE, action),
                      Can(other, user, org, ANY_PROCEDURE, action), Can(other, user, org, BOOKING_ENGINE, action))
  {
    assert ANY_PROCEDURE != BOOKING_ENGINE by { assert |ANY_PROCEDURE| != |BOOKING_ENGINE|; }
    var any, engine := Example(ANY_PROCEDURE, action), Example(BOOKING_ENGINE, action);
    ExampleIsAbsolute(ANY_PROCEDURE, action);
    ExampleIsAbsolute(BOOKING_ENGINE, action);
    ExampleAction(ANY_PROCEDURE, action);
    ExampleAction(BOOKING_ENGINE, action);
    CanDecides(rules, user, org, any);
    CanDecides(other, user, org, any);
    CanDecides(rules, user, org, engine);
    CanDecides(other, user, org, engine);
    assert Allowed(rules, user, org, any) <==> Allowed(other, user, org, any);
    assert Allowed(rules, user, org, engine) <==> Allowed(other, user, org, engine);
  }

  /** Two rule sets give a user the same decisions exactly when its four facts agree. */
  lemma SameDecisionsIff(rules: Rules, other: Rules, user: string, org: string)
    requires GoodBindings(rules) && GoodPermissions(rules) && GoodBindings(other) && GoodPermissions(other)
    ensures (forall procedure :: Allowed(rules, user, org, procedure) <==> Allowed(other, user, org, procedure)) <==>
              forall action :: action == READ || action == WRITE ==>
                SamePower(Can(rules, user, org, ANY_PROCEDURE, action), Can(rules, user, org, BOOKING_ENGINE, action),
                          Can(other, user, org, ANY_PROCEDURE, action), Can(other, user, org, BOOKING_ENGINE, action))
  {
    if forall procedure :: Allowed(rules, user, org, procedure) <==> Allowed(other, user, org, procedure) {
      PowerShows(rules, other, user, org, READ);
      PowerShows(rules, other, user, org, WRITE);
    } else {
      var procedure :| Allowed(rules, user, org, procedure) != Allowed(other, user, org, procedure);
      CanDecides(rules, user, org, procedure);
      CanDecides(other, user, org, procedure);
    }
  }

  /** What an Ensure that succeeds will have given anyone else, in terms of the state before it. */
  ghost predicate WillCan(b: Binder, user: string, claimed: string, org: string, someone: string, somewhere: string,
                          pattern: string, action: string)
  {
    var role, active := Effective(claimed), user != "" && org != "" && somewhere == org;
    || PRule(someone, somewhere, pattern, action) in b.rules.p
    || (active && someone == role && Permission(pattern, action) in RolePermissions(role))
    || exists bound :: GRule(someone, bound, somewhere) in b.rules.g
         && (action == READ || bound != MEMBER
             || if active && user == MEMBER then role != MEMBER else Raised(b.rules.g, somewhere))
  }

  lemma {:induction false} GrantAllAdds(b: Binder, role: string, org: string, perms: seq<Permission>, calls: nat,
                                        fails: nat -> bool, r: PRule)
    ensures r in GrantAll(b, role, org, perms, calls, fails).0.rules.p ==>
              r in b.rules.p || exists i :: 0 <= i < |perms| && r == RuleFor(role, org, perms[i])
    decreases perms
  {
    if perms != [] {
      var (next, ok) := AddP(b, RuleFor(role, org, perms[0]), fails(calls));
      if ok {
        GrantAllAdds(next, role, org, perms[1..], calls + 1, fails, r);
        assert forall i :: 0 <= i < |perms[1..]| ==> perms[1..][i] == perms[i + 1];
      }
    }
  }

  /** A successful Ensure leaves exactly the earlier rules and those of its role in its org. */
  lemma EnsureRules(b: Binder, user: string, claimed: string, org: string, order: seq<string>, fails: nat -> bool,
                    r: PRule)
    requires Inv(b) && RoleOrder(order) && NUL !in org && user != "" && org != ""
    requires EnsureStep(b, user, claimed, org, order, fails).1
    ensures r in EnsureStep(b, user, claimed, org, order, fails).0.rules.p <==>
              || r in b.rules.p
              || (r.role == Effective(claimed) && r.org == org
                  && Permission(r.pattern, r.action) in RolePermissions(r.role))
  {
    var role := Effective(claimed);
    var perms := RolePermissions(role);
    if BindingKey(user, role, org) in b.memo {
      MemoAgrees(b, user, role, org);
      assert r.role == role && r.org == org ==> r == RuleFor(role, org, Permission(r.pattern, r.action));
    } else {
      GrantAllKeeps(b, role, org, perms, 0, fails);
      GrantAllAdds(b, role, org, perms, 0, fails, r);
      var granted := GrantAll(b, role, org, perms, 0, fails).0;
      UnbindAllKeeps(granted, user, role, org, order, 4, fails);
      if r.role == role && r.org == org && Permission(r.pattern, r.action) in perms {
        var i :| 0 <= i < |perms| && perms[i] == Permission(r.pattern, r.action);
        assert r == RuleFor(role, org, perms[i]);
      }
    }
  }

  lemma CanAfter(b: Binder, user: string, claimed: string, org: string, order: seq<string>, fails: nat -> bool,
                 someone: string, somewhere: string, pattern: string, action: string)
    requires Inv(b) && RoleOrder(order) && NUL !in org && (someone, somewhere) != (user, org)
    requires EnsureStep(b, user, claimed, org, order, fails).1
    ensures Can(EnsureStep(b, user, claimed, org, order, fails).0.rules, someone, somewhere, pattern, action) <==>
              WillCan(b, user, claimed, org, someone, somewhere, pattern, action)
  {
    var after := EnsureStep(b, user, claimed, org, order, fails).0;
    EnsureKeeps(b, user, claimed, org, order, fails);
    RaisedAfter(b, user, claimed, org, order, fails, somewhere);
    if user != "" && org != "" {
      EnsureRules(b, user, claimed, org, order, fails, PRule(someone, somewhere, pattern, action));
    }
    assert OWNER != MEMBER by { assert |OWNER| != |MEMBER|; }
    assert forall bound :: GRule(someone, bound, somewhere) in after.rules.g <==>
                           GRule(someone, bound, somewhere) in b.rules.g;
  }

  /** When a successful Ensure changes what anyone else may do, role names included: exactly when one of four facts that
      can be read off the state before it changes. */
  lemma EnsureChangesAnyoneIff(b: Binder, user: string, claimed: string, org: string, order: seq<string>,
                               fails: nat -> bool, someone: string, somewhere: string)
    requires Inv(b) && RoleOrder(order) && NUL !in org && (someone, somewhere) != (user, org)
    requires EnsureStep(b, user, claimed, org, order, fails).1
    ensures var after := EnsureStep(b, user, claimed, org, order, fails).0;
            (forall procedure ::
               Allowed(b.rules, someone, somewhere, procedure) <==> Allowed(after.rules, someone, somewhere, procedure))
            <==> forall action :: action == READ || action == WRITE ==>
                   SamePower(Can(b.rules, someone, somewhere, ANY_PROCEDURE, action),
                             Can(b.rules, someone, somewhere, BOOKING_ENGINE, action),
                             WillCan(b, user, claimed, org, someone, somewhere, ANY_PROCEDURE, action),
                             WillCan(b, user, claimed, org, someone, somewhere, BOOKING_ENGINE, action))
  {
    var after := EnsureStep(b, user, claimed, org, order, fails).0;
    EnsureKeeps(b, user, claimed, org, order, fails);
    SameDecisionsIff(b.rules, after.rules, someone, somewhere);
    forall action | action == READ || action == WRITE
      ensures Can(after.rules, someone, somewhere, ANY_PROCEDURE, action)
              <==> WillCan(b, user, claimed, org, someone, somewhere, ANY_PROCEDURE, action)
      ensures Can(after.rules, someone, somewhere, BOOKING_ENGINE, action)
              <==> WillCan(b, user, claimed, org, someone, somewhere, BOOKING_ENGINE, action)
    {
      CanAfter(b, user, claimed, org, order, fails, someone, somewhere, ANY_PROCEDURE, action);
      CanAfter(b, user, claimed, org, order, fails, someone, somewhere, BOOKING_ENGINE, action);
    }
  }

  // ---------------------------------------------------------------- runs that exceed a role

  /** Without enforcer failures an Ensure succeeds. */
  lemma BindingAlwaysWorks(b: Binder, user: string, role: string, org: string, order: seq<string>, fails: nat -> bool)
    requires KnownRole(role) && user != "" && org != "" && forall n :: !fails(n)
    ensures EnsureStep(b, user, role, org, order, fails).1
  {
    GrantAllWorks(b, role, org, RolePermissions(role), 0, fails);
    UnbindAllWorks(GrantAll(b, role, org, RolePermissions(role), 0, fails).0, user, role, org, order, 4, fails);
  }

  /** An Ensure fails only with an enforcer call; without a user, an organization or on a memo hit it does nothing. */
  lemma EnsureFailsOnly(b: Binder, user: string, claimed: string, org: string, order: seq<string>, fails: nat -> bool)
    ensures var (after, ok) := EnsureStep(b, user, claimed, org, order, fails);
            && (user == "" || org == "" || BindingKey(user, Effective(claimed), org) in b.memo ==> ok && after == b)
            && (!ok ==> exists n :: fails(n))
  {
    if user != "" && org != "" && forall n :: !fails(n) {
      BindingAlwaysWorks(b, user, Effective(claimed), org, order, fails);
    }
  }

  lemma {:induction false} GrantAllWorks(b: Binder, role: string, org: string, perms: seq<Permission>, calls: nat,
                                         fails: nat -> bool)
    requires forall n :: !fails(n)
    ensures GrantAll(b, role, org, perms, calls, fails).1
    decreases perms
  {
    if perms != [] {
      GrantAllWorks(AddP(b, RuleFor(role, org, perms[0]), fails(calls)).0, role, org, perms[1..], calls + 1, fails);
    }
  }

  lemma {:induction false} UnbindAllWorks(b: Binder, user: string, role: string, org: string, others: seq<string>,
                                          calls: nat, fails: nat -> bool)
    requires forall n :: !fails(n)
    ensures UnbindAll(b, user, role, org, others, calls, fails).1
    decreases others
  {
    if others != [] {
      if others[0] == role {
        UnbindAllWorks(b, user, role, org, others[1..], calls, fails);
      } else {
        var next := RemoveG(b, GRule(user, others[0], org), fails(calls)).0;
        UnbindAllWorks(next.(memo := next.memo - {BindingKey(user, others[0], org)}), user, role, org, others[1..],
                       calls + 1, fails);
      }
    }
  }

  const ANY_ORDER := [OWNER, ADMIN, MEMBER]

  lemma AnyOrderIsAnOrder()
    ensures RoleOrder(ANY_ORDER)
  {
    assert |OWNER| == |ADMIN| != |MEMBER| && OWNER[0] != ADMIN[0];
    assert ANY_ORDER[0] == OWNER && ANY_ORDER[1] == ADMIN && ANY_ORDER[2] == MEMBER;
  }

  /** Two role changes that work: first `first` becomes owner, then `second` member. */
  function TwoChanges(first: string, second: string, org: string): seq<Event> {
    [Ensured(first, OWNER, org, ANY_ORDER, _ => false), Ensured(second, MEMBER, org, ANY_ORDER, _ => false)]
  }

  lemma TwoChangesWork(first: string, second: string, org: string)
    requires first != "" && second != "" && first != second && org != "" && NUL !in org
    ensures var w := Run(START, TwoChanges(first, second, org));
            && Sane(TwoChanges(first, second, org)) && w.broken == {}
            && (first, org) in w.last && w.last[(first, org)] == OWNER
            && (second, org) in w.last && w.last[(second, org)] == MEMBER
            && Inv(w.binder) && Tracks(w)
  {
    var events := TwoChanges(first, second, org);
    AnyOrderIsAnOrder();
    assert OWNER != MEMBER by { assert |OWNER| != |MEMBER|; }
    assert events[1..] == [events[1]] && [events[1]][1..] == [];
    var w := Step(START, events[0]);
    BindingAlwaysWorks(START.binder, first, OWNER, org, ANY_ORDER, _ => false);
    BindingAlwaysWorks(w.binder, second, MEMBER, org, ANY_ORDER, _ => false);
    assert Run(START, events) == Run(w, [events[1]]) == Run(Step(w, events[1]), []);
    RunKeeps(START, events);
  }

  /** The raised "member" arises: once that user id is an owner, every ordinary user made member can write. */
  lemma RaisedMembersArise(user: string, org: string)
    requires user != "" && !KnownRole(user) && org != "" && NUL !in org
    ensures exists events, procedure ::
              && Sane(events) && (user, org) in Run(START, events).last && Run(START, events).broken == {}
              && Run(START, events).last[(user, org)] == MEMBER
              && Allowed(Run(START, events).binder.rules, user, org, procedure) && !Grants(MEMBER, procedure)
  {
    var events := TwoChanges(MEMBER, user, org);
    TwoChangesWork(MEMBER, user, org);
    var rules := Run(START, events).binder.rules;
    assert GRule(MEMBER, OWNER, org) in rules.g && GRule(user, MEMBER, org) in rules.g;
    RaisedMemberWrites(rules, user, org);
    var procedure :| Allowed(rules, user, org, procedure) && !Grants(MEMBER, procedure);
    assert Sane(events) && Run(START, events).last[(user, org)] == MEMBER;
  }

  /** And so does the other way: once an org has an owner, a user called "owner" that is made member can write. */
  lemma NamedUserArises(first: string, org: string)
    requires first != "" && first != OWNER && org != "" && NUL !in org
    ensures exists events, procedure ::
              && Sane(events) && (OWNER, org) in Run(START, events).last && Run(START, events).broken == {}
              && Run(START, events).last[(OWNER, org)] == MEMBER
              && Allowed(Run(START, events).binder.rules, OWNER, org, procedure) && !Grants(MEMBER, procedure)
  {
    var events := TwoChanges(first, OWNER, org);
    TwoChangesWork(first, OWNER, org);
    var rules := Run(START, events).binder.rules;
    assert GRule(first, OWNER, org) in rules.g && Complete(rules, OWNER, org);
    PermissionsAre(OWNER, Permission(ANY_PROCEDURE, WRITE));
    assert RuleFor(OWNER, org, Permission(ANY_PROCEDURE, WRITE)) in rules.p;
    NamedUserWrites(rules, OWNER, org);
    var procedure :| Allowed(rules, OWNER, org, procedure) && !Grants(MEMBER, procedure);
    assert Sane(events) && Run(START, events).last[(OWNER, org)] == MEMBER;
  }

  // ---------------------------------------------------------------- decisions in plain terms

  /** A procedure reads exactly when its method name, after the last slash, begins with Get or List. */
  lemma ReadsIff(prefix: string, name: string)
    requires '/' !in name
    ensures ActionFromProcedure(prefix + "/" + name) == READ <==> "Get" <= name || "List" <= name
    ensures ActionFromProcedure(prefix + "/" + name) != READ ==> ActionFromProcedure(prefix + "/" + name) == WRITE
  {
    MethodAction(prefix, name);
    assert READ != WRITE by { assert READ[0] != WRITE[0]; }
  }

  /** Without a slash there is no method name, and the procedure counts as a write. */
  lemma NoSlashWrites(procedure: string)
    requires '/' !in procedure
    ensures ActionFromProcedure(procedure) == WRITE
  {
  }

  lemma RoleInWords(role: string, procedure: string)
    ensures Grants(Effective(role), procedure) <==>
              "/" <= procedure && (role == "owner" || role == "admin" || ActionFromProcedure(procedure) == READ)
  {
    assert READ != WRITE by { assert READ[0] != WRITE[0]; }
    assert "owner" != "member" && "admin" != "member" by { assert |"owner"| != |"member"| && |"admin"| != |"member"|; }
  }

  /** One successful Ensure, in words. */
  lemma EnsuredRoleDecides(b: Binder, user: string, claimed: string, org: string, order: seq<string>,
                           fails: nat -> bool, procedure: string)
    requires Inv(b) && RoleOrder(order) && NUL !in org && org != "" && user != "" && !KnownRole(user)
    requires !Raised(b.rules.g, org) && EnsureStep(b, user, claimed, org, order, fails).1
    ensures Allowed(EnsureStep(b, user, claimed, org, order, fails).0.rules, user, org, procedure) <==>
              "/" <= procedure && (claimed == "owner" || claimed == "admin" || ActionFromProcedure(procedure) == READ)
  {
    var after := EnsureStep(b, user, claimed, org, order, fails).0;
    EnsureKeeps(b, user, claimed, org, order, fails);
    RaisedAfter(b, user, claimed, org, order, fails, org);
    NothingDropped(after.rules);
    DecisionIsTheBinding(after.rules, user, org, procedure, {});
    BoundOnlyTo(after.rules.g, user, Effective(claimed), org, procedure);
    RoleInWords(claimed, procedure);
  }

  lemma BoundOnlyTo(g: set<GRule>, user: string, role: string, org: string, procedure: string)
    requires !Raised(g, org) && forall other :: GRule(user, other, org) in g <==> other == role
    ensures ByRole(g, user, org, procedure) <==> Grants(role, procedure)
  {
    assert GRule(user, role, org) in g && Lifted(g, role, org) == role;
  }

  /** After any run and one more successful Ensure, in an org where the user id "member" never got a role: an ordinary
      user may call a method exactly when its path is absolute and it claimed owner or admin, or the method's name
      begins with Get or List. Every other claim counts as member. */
  lemma EnsuredDecision(events: seq<Event>, user: string, claimed: string, org: string, order: seq<string>,
                        fails: nat -> bool, prefix: string, name: string)
    requires Sane(events) && RoleOrder(order) && NUL !in org && org != "" && '/' !in name
    requires user !in {"", "owner", "admin", "member"} && ("member", org) !in Run(START, events).last
    requires EnsureStep(Run(START, events).binder, user, claimed, org, order, fails).1
    ensures var after := EnsureStep(Run(START, events).binder, user, claimed, org, order, fails).0;
            Allowed(after.rules, user, org, prefix + "/" + name) <==>
              "/" <= prefix + "/" + name
              && (claimed == "owner" || claimed == "admin" || "Get" <= name || "List" <= name)
  {
    RunKeeps(START, events);
    RaisedTracks(Run(START, events), org);
    EnsuredRoleDecides(Run(START, events).binder, user, claimed, org, order, fails, prefix + "/" + name);
    ReadsIff(prefix, name);
  }

  /** A path that is not absolute is allowed to nobody. */
  lemma RelativePathsAreDenied(events: seq<Event>, user: string, org: string, procedure: string)
    requires Sane(events) && !("/" <= procedure)
    ensures !Allowed(Run(START, events).binder.rules, user, org, procedure)
  {
    RunKeeps(START, events);
    CanDecides(Run(START, events).binder.rules, user, org, procedure);
  }
}
