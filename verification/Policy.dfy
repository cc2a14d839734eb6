/** Roles, the rule set they are written to, and the decision read back from it. */
module Policy {
  import opened Results
  import opened Text

  const OWNER := "owner"
  const ADMIN := "admin"
  const MEMBER := "member"
  const ROLES := {OWNER, ADMIN, MEMBER}

  const ANY_PROCEDURE := "/*"
  const BOOKING_ENGINE := "/bookingengine.v1.BookingEngineService/*"
  const READ := "read"
  const WRITE := "write"

  datatype Permission = Permission(pattern: string, action: string)

  predicate KnownRole(role: string) { role in ROLES }

  function RolePermissions(role: string): seq<Permission>
    requires KnownRole(role)
  {
    if role == MEMBER then [Permission(ANY_PROCEDURE, READ), Permission(BOOKING_ENGINE, READ)]
    else [Permission(ANY_PROCEDURE, READ), Permission(ANY_PROCEDURE, WRITE),
          Permission(BOOKING_ENGINE, READ), Permission(BOOKING_ENGINE, WRITE)]
  }

  /** `p` rules grant a role an action on an object pattern in one org; `g` rules bind a user to a role in one org. */
  datatype PRule = PRule(role: string, org: string, pattern: string, action: string)
  datatype GRule = GRule(user: string, role: string, org: string)
  datatype Rules = Rules(p: set<PRule>, g: set<GRule>)

  const NO_RULES := Rules({}, {})

  function RuleFor(role: string, org: string, perm: Permission): PRule {
    PRule(role, org, perm.pattern, perm.action)
  }

  // ---------------------------------------------------------------- the matcher

  /** Casbin's `keyMatch`: a star matches any rest; without a star the texts must be equal. */
  function KeyMatch(key: string, pattern: string): bool {
    if '*' !in pattern then key == pattern
    else
      var i := IndexOf(pattern, '*');
      if |key| > i then key[..i] == pattern[..i] else key == pattern[..i]
  }

  /** How far Casbin's role manager follows role links. */
  const LINK_DEPTH := 10

  /** Casbin's `g(a, b, org)`: every name is linked to itself, and links compose. */
  ghost predicate HasLink(g: set<GRule>, a: string, b: string, org: string, depth: nat)
    decreases depth
  {
    a == b || (depth > 0 && exists r :: r in g && r.user == a && r.org == org && HasLink(g, r.role, b, org, depth - 1))
  }

  /** The model's matcher: some rule of the org, reachable from the user, matches path and action. */
  ghost predicate Enforce(rules: Rules, user: string, org: string, path: string, action: string) {
    exists r :: r in rules.p && HasLink(rules.g, user, r.role, org, LINK_DEPTH)
                && r.org == org && KeyMatch(path, r.pattern) && r.action == action
  }

  function LastSlash(s: string): (i: nat)
    requires '/' in s
    ensures i < |s| && s[i] == '/' && '/' !in s[i + 1..]
  {
    if '/' !in s[1..] then 0 else 1 + LastSlash(s[1..])
  }

  /** The method name of a procedure path, if it has one. */
  function MethodOf(procedure: string): Option<string> {
    if '/' in procedure then Some(procedure[LastSlash(procedure) + 1..]) else None
  }

  predicate IsReadMethod(procedure: string) {
    MethodOf(procedure).Some? && ("Get" <= MethodOf(procedure).value || "List" <= MethodOf(procedure).value)
  }

  function ActionFromProcedure(procedure: string): string {
    if IsReadMethod(procedure) then READ else WRITE
  }

  /** The interceptor's decision for one request. */
  ghost predicate Allowed(rules: Rules, user: string, org: string, procedure: string) {
    Enforce(rules, user, org, procedure, ActionFromProcedure(procedure))
  }

  /** What a role is meant to allow: members read, owners and admins do everything, on absolute procedure paths. */
  predicate Grants(role: string, procedure: string) {
    "/" <= procedure && (role == OWNER || role == ADMIN || (role == MEMBER && IsReadMethod(procedure)))
  }

  lemma StarPosition(prefix: string)
    requires '*' !in prefix
    ensures '*' in prefix + "*" && IndexOf(prefix + "*", '*') == |prefix|
  {
    var s := prefix + "*";
    assert s[|prefix|] == '*';
    var i := IndexOf(s, '*');
    assert forall k :: 0 <= k < |prefix| ==> s[k] == prefix[k];
    assert forall k :: 0 <= k < i ==> s[..i][k] == s[k] && s[k] != '*';
  }

  /** A pattern that ends in its only star matches exactly the paths it is a prefix of. */
  lemma KeyMatchIsPrefix(prefix: string, key: string)
    requires '*' !in prefix
    ensures KeyMatch(key, prefix + "*") <==> prefix <= key
  {
    StarPosition(prefix);
    assert (prefix + "*")[..|prefix|] == prefix;
  }

  /** Whatever follows the first star is ignored; a pattern without a star matches itself only. */
  lemma KeyMatchIs(prefix: string, rest: string, pattern: string, key: string)
    requires '*' !in prefix && '*' !in pattern
    ensures KeyMatch(key, prefix + "*" + rest) <==> prefix <= key
    ensures KeyMatch(key, pattern) <==> key == pattern
  {
    var s := prefix + "*" + rest;
    assert s[|prefix|] == '*';
    var i := IndexOf(s, '*');
    assert forall k :: 0 <= k < |prefix| ==> s[k] == prefix[k];
    assert forall k :: 0 <= k < i ==> s[..i][k] == s[k] && s[k] != '*';
    assert i == |prefix| && s[..i] == prefix;
  }

  lemma PatternsMatch(procedure: string)
    ensures KeyMatch(procedure, ANY_PROCEDURE) <==> "/" <= procedure
    ensures KeyMatch(procedure, BOOKING_ENGINE) ==> "/" <= procedure
  {
    assert ANY_PROCEDURE == "/" + "*";
    KeyMatchIsPrefix("/", procedure);
    var service := "/bookingengine.v1.BookingEngineService/";
    assert BOOKING_ENGINE == service + "*";
    KeyMatchIsPrefix(service, procedure);
  }

  lemma PermissionsAre(role: string, perm: Permission)
    requires KnownRole(role)
    ensures perm in RolePermissions(role) <==>
              && (perm.pattern == ANY_PROCEDURE || perm.pattern == BOOKING_ENGINE)
              && (perm.action == READ || (perm.action == WRITE && role != MEMBER))
  {
    var perms := RolePermissions(role);
    var k := (if perm.pattern == BOOKING_ENGINE then |perms| / 2 else 0) + (if perm.action == WRITE then 1 else 0);
    if k < |perms| {
      assert perms[k] in perms;
    }
  }

  /** Some permission of the role, of those kept, matches the path and action of the procedure. */
  ghost predicate Permits(role: string, procedure: string, dropped: set<string>)
    requires KnownRole(role)
  {
    exists perm :: perm in RolePermissions(role) && perm.pattern !in dropped
                   && KeyMatch(procedure, perm.pattern) && perm.action == ActionFromProcedure(procedure)
  }

  /** The permission list of a role permits exactly what the role is meant to allow, with or without the booking-engine
      entries. */
  lemma PermissionsMeanGrants(role: string, procedure: string, dropped: set<string>)
    requires KnownRole(role) && dropped <= {BOOKING_ENGINE}
    ensures Permits(role, procedure, dropped) <==> Grants(role, procedure)
  {
    PatternsMatch(procedure);
    assert ANY_PROCEDURE != BOOKING_ENGINE by { assert |ANY_PROCEDURE| != |BOOKING_ENGINE|; }
    assert READ != WRITE by { assert READ[0] != WRITE[0]; }
    var perm := Permission(ANY_PROCEDURE, ActionFromProcedure(procedure));
    PermissionsAre(role, perm);
    if Permits(role, procedure, dropped) {
      var other :| other in RolePermissions(role) && other.pattern !in dropped
                   && KeyMatch(procedure, other.pattern) && other.action == ActionFromProcedure(procedure);
      PermissionsAre(role, other);
    }
  }
}
