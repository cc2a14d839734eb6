/** Making roles effective: the binder writes rules through an enforcer that may fail, and remembers what it has
    bound. */
module RoleBinder {
  import opened Text
  import opened Policy

  /** The enforcer's in-memory rules, the rule table behind them, and the binder's memo. */
  datatype Binder = Binder(rules: Rules, table: Rules, memo: set<string>)

  const EMPTY := Binder(NO_RULES, NO_RULES, {})

  function BindingKey(user: string, role: string, org: string): string {
    user + [NUL] + role + [NUL] + org
  }

  lemma {:induction false} LastFieldInjective(x: string, a: string, y: string, b: string)
    requires NUL !in a && NUL !in b
    requires x + [NUL] + a == y + [NUL] + b
    ensures x == y && a == b
  {
    var s, t := x + [NUL] + a, y + [NUL] + b;
    assert s[|x|] == NUL && t[|y|] == NUL;
    assert forall k :: |x| < k < |s| ==> s[k] == a[k - |x| - 1] && s[k] != NUL;
    assert forall k :: |y| < k < |t| ==> t[k] == b[k - |y| - 1] && t[k] != NUL;
    assert |x| == |y|;
    assert x == s[..|x|] && y == t[..|y|] && a == s[|x| + 1..] && b == t[|y| + 1..];
  }

  /** Memo keys are unambiguous for known roles and org ids without NUL, whatever the user id is. */
  lemma BindingKeyInjective(user: string, role: string, org: string, user': string, role': string, org': string)
    requires NUL !in role && NUL !in org && NUL !in role' && NUL !in org'
    requires BindingKey(user, role, org) == BindingKey(user', role', org')
    ensures user == user' && role == role' && org == org'
  {
    LastFieldInjective(user + [NUL] + role, org, user' + [NUL] + role', org');
    LastFieldInjective(user, role, user', role');
  }

  /** One enforcer write: a rule already present needs no table write; a failing table write changes nothing. */
  function AddP(b: Binder, r: PRule, fails: bool): (Binder, bool) {
    if r in b.rules.p then (b, true)
    else if fails then (b, false)
    else (b.(rules := b.rules.(p := b.rules.p + {r}), table := b.table.(p := b.table.p + {r})), true)
  }

  function AddG(b: Binder, r: GRule, fails: bool): (Binder, bool) {
    if r in b.rules.g then (b, true)
    else if fails then (b, false)
    else (b.(rules := b.rules.(g := b.rules.g + {r}), table := b.table.(g := b.table.g + {r})), true)
  }

  function RemoveG(b: Binder, r: GRule, fails: bool): (Binder, bool) {
    if fails then (b, false)
    else (b.(rules := b.rules.(g := b.rules.g - {r}), table := b.table.(g := b.table.g - {r})), true)
  }

  /** Writes the role's permissions one by one, stopping at the first failure. `fails(n)` says whether the n-th enforcer
      call fails. */
  function GrantAll(b: Binder, role: string, org: string, perms: seq<Permission>, calls: nat, fails: nat -> bool)
    : (Binder, bool)
    decreases perms
  {
    if perms == [] then (b, true)
    else
      var (next, ok) := AddP(b, RuleFor(role, org, perms[0]), fails(calls));
      if !ok then (b, false) else GrantAll(next, role, org, perms[1..], calls + 1, fails)
  }

  /** Removes the user's bindings to the listed other roles, forgetting each memo entry with its rule. */
  function UnbindAll(b: Binder, user: string, role: string, org: string, others: seq<string>, calls: nat,
                     fails: nat -> bool)
    : (Binder, bool)
    decreases others
  {
    if others == [] then (b, true)
    else if others[0] == role then UnbindAll(b, user, role, org, others[1..], calls, fails)
    else
      var (next, ok) := RemoveG(b, GRule(user, others[0], org), fails(calls));
      if !ok then (b, false)
      else UnbindAll(next.(memo := next.memo - {BindingKey(user, others[0], org)}), user, role, org, others[1..],
                     calls + 1, fails)
  }

  /** The role that is bound for a claimed role: unknown claims count as member. */
  function Effective(role: string): (r: string)
    ensures KnownRole(r)
  {
    if KnownRole(role) then role else MEMBER
  }

  /** The order in which the role table is walked: every known role once. */
  predicate RoleOrder(order: seq<string>) {
    && (forall r :: r in ROLES ==> r in order)
    && (forall r :: r in order ==> r in ROLES)
    && (forall i, j :: 0 <= i < j < |order| ==> order[i] != order[j])
  }

  /** The body of `Ensure` after the memo miss. */
  function Bind(b: Binder, user: string, role: string, org: string, order: seq<string>, fails: nat -> bool)
    : (Binder, bool)
    requires KnownRole(role)
  {
    var perms := RolePermissions(role);
    var (granted, ok1) := GrantAll(b, role, org, perms, 0, fails);
    if !ok1 then (granted, false)
    else
      var (unbound, ok2) := UnbindAll(granted, user, role, org, order, 4, fails);
      if !ok2 then (unbound, false)
      else
        var (bound, ok3) := AddG(unbound, GRule(user, role, org), fails(8));
        if !ok3 then (bound, false) else (bound.(memo := bound.memo + {BindingKey(user, role, org)}), true)
  }

  /** One `Ensure` call: the new state, and whether it returned without error. */
  function EnsureStep(b: Binder, user: string, role: string, org: string, order: seq<string>, fails: nat -> bool)
    : (Binder, bool)
  {
    if user == "" || org == "" then (b, true)
    else if BindingKey(user, Effective(role), org) in b.memo then (b, true)
    else Bind(b, user, Effective(role), org, order, fails)
  }

  /** Casbin's enforcer with autosave: rules in memory, mirrored in the rule table. */
  class Enforcer {
    var rules: Rules
    var table: Rules

    constructor ()
      ensures rules == NO_RULES && table == NO_RULES
    {
      rules, table := NO_RULES, NO_RULES;
    }

    method AddPolicy(r: PRule, fails: bool) returns (ok: bool)
      modifies this
      ensures forall memo :: (Binder(rules, table, memo), ok) == AddP(Binder(old(rules), old(table), memo), r, fails)
    {
      if r in rules.p {
        return true;
      }
      if fails {
        return false;
      }
      table := table.(p := table.p + {r});
      rules := rules.(p := rules.p + {r});
      return true;
    }

    method AddGroupingPolicy(r: GRule, fails: bool) returns (ok: bool)
      modifies this
      ensures forall memo :: (Binder(rules, table, memo), ok) == AddG(Binder(old(rules), old(table), memo), r, fails)
    {
      if r in rules.g {
        return true;
      }
      if fails {
        return false;
      }
      table := table.(g := table.g + {r});
      rules := rules.(g := rules.g + {r});
      return true;
    }

    method RemoveGroupingPolicy(r: GRule, fails: bool) returns (ok: bool)
      modifies this
      ensures forall memo :: (Binder(rules, table, memo), ok) == RemoveG(Binder(old(rules), old(table), memo), r, fails)
    {
      if fails {
        return false;
      }
      table := table.(g := table.g - {r});
      rules := rules.(g := rules.g - {r});
      return true;
    }

    /** A process start: the rules are read back from the table. */
    method LoadPolicy()
      modifies this`rules
      ensures rules == table
    {
      rules := table;
    }
  }

  class Service {
    const enforcer: Enforcer?
    var bound: set<string>

    ghost function View(): Binder
      requires enforcer != null
      reads this, enforcer
    {
      Binder(enforcer.rules, enforcer.table, bound)
    }

    constructor (e: Enforcer?)
      ensures enforcer == e && bound == {}
    {
      enforcer, bound := e, {};
    }

    /** Makes a role effective for a user inside one org. `order` is the map iteration order of the role table. */
    method Ensure(user: string, claimed: string, org: string, order: seq<string>, fails: nat -> bool) returns (ok: bool)
      requires RoleOrder(order)
      modifies this, enforcer
      ensures enforcer == null ==> ok && bound == old(bound)
      ensures enforcer != null ==> (View(), ok) == EnsureStep(old(View()), user, claimed, org, order, fails)
    {
      if enforcer == null || user == "" || org == "" {
        return true;
      }
      var role := claimed;
      if !KnownRole(role) {
        role := MEMBER;
      }
      if BindingKey(user, role, org) in bound {
        return true;
      }
      ok := GrantRole(role, org, RolePermissions(role), fails);
      if !ok {
        return;
      }
      ok := DropOthers(user, role, org, order, 4, fails);
      if !ok {
        return;
      }
      ok := enforcer.AddGroupingPolicy(GRule(user, role, org), fails(8));
      if !ok {
        return;
      }
      bound := bound + {BindingKey(user, role, org)};
    }

    method GrantRole(role: string, org: string, perms: seq<Permission>, fails: nat -> bool) returns (ok: bool)
      requires enforcer != null
      modifies enforcer
      ensures (View(), ok) == GrantAll(old(View()), role, org, perms, 0, fails)
    {
      for i := 0 to |perms|
        invariant GrantAll(old(View()), role, org, perms, 0, fails) == GrantAll(View(), role, org, perms[i..], i, fails)
      {
        assert perms[i..][0] == perms[i] && perms[i..][1..] == perms[i + 1..];
        var added := enforcer.AddPolicy(RuleFor(role, org, perms[i]), fails(i));
        if !added {
          return false;
        }
      }
      return true;
    }

    method DropOthers(user: string, role: string, org: string, order: seq<string>, start: nat, fails: nat -> bool)
      returns (ok: bool)
      requires enforcer != null
      modifies this, enforcer
      ensures (View(), ok) == UnbindAll(old(View()), user, role, org, order, start, fails)
    {
      var calls := start;
      for i := 0 to |order|
        invariant UnbindAll(old(View()), user, role, org, order, start, fails) ==
                    UnbindAll(View(), user, role, org, order[i..], calls, fails)
      {
        assert order[i..][0] == order[i] && order[i..][1..] == order[i + 1..];
        if order[i] == role {
          continue;
        }
        var removed := enforcer.RemoveGroupingPolicy(GRule(user, order[i], org), fails(calls));
        if !removed {
          return false;
        }
        calls := calls + 1;
        bound := bound - {BindingKey(user, order[i], org)};
      }
      return true;
    }
  }
}
