/** The user edits of `handleAdminOp` and the admin gate `isAuthorizedAdmin`. */
module Admin {
  import opened Wrappers
  import opened Records

  /** The roles other than `role`, in their original order. */
  function Without(roles: seq<string>, role: string): (kept: seq<string>)
    ensures role !in kept
    ensures forall x :: x != role ==> multiset(kept)[x] == multiset(roles)[x]
  {
    if |roles| == 0 then []
    else
      var last := roles[|roles| - 1];
      assert roles == roles[..|roles| - 1] + [last];
      Without(roles[..|roles| - 1], role) + (if last == role then [] else [last])
  }

  /** Removal works piece by piece, so the survivors keep their relative order. */
  lemma {:induction false} WithoutConcat(a: seq<string>, b: seq<string>, role: string)
    ensures Without(a + b, role) == Without(a, role) + Without(b, role)
    decreases |b|
  {
    if |b| > 0 {
      var b' := b[..|b| - 1];
      WithoutConcat(a, b', role);
      assert (a + b)[..|a + b| - 1] == a + b';
    } else {
      assert a + b == a;
    }
  }

  /** The `delete_role` loop, filtering the roles into a prefix of the same backing store. */
  method DeleteRole(roles: seq<string>, role: string) returns (kept: seq<string>)
    ensures kept == Without(roles, role)
  {
    kept := [];
    var i := 0;
    while i < |roles|
      invariant 0 <= i <= |roles|
      invariant kept == Without(roles[..i], role)
    {
      assert roles[..i + 1][..i] == roles[..i];
      if roles[i] != role {
        kept := kept + [roles[i]];
      }
      i := i + 1;
    }
    assert roles[..i] == roles;
  }

  /** The edit each `op` makes, or None for an unknown operation. */
  function AdminEdit(u: User, op: string, role: string): Option<User>
  {
    if op == "add_role" then Some(u.(roles := u.roles + [role]))
    else if op == "delete_role" then Some(u.(roles := Without(u.roles, role)))
    else if op == "delete_admin" then Some(u.(admin := false))
    else if op == "add_admin" then Some(u.(admin := true))
    else if op == "reset_devices" then Some(u.(u2fDevices := []))
    else None
  }

  /** Each operation changes only its own field; the ID is never changed. */
  lemma AdminEditScope(u: User, op: string, role: string)
    ensures AdminEdit(u, op, role).Some? <==> op in {"add_role", "delete_role", "delete_admin", "add_admin", "reset_devices"}
    ensures AdminEdit(u, op, role).Some? ==> AdminEdit(u, op, role).value.id == u.id
    ensures op in {"add_role", "delete_role"} ==>
      var v := AdminEdit(u, op, role).value; v.u2fDevices == u.u2fDevices && v.admin == u.admin
    ensures op in {"add_admin", "delete_admin"} ==>
      var v := AdminEdit(u, op, role).value; v.roles == u.roles && v.u2fDevices == u.u2fDevices && v.admin == (op == "add_admin")
    ensures op == "reset_devices" ==>
      var v := AdminEdit(u, op, role).value; v.roles == u.roles && v.admin == u.admin && v.u2fDevices == []
  {
  }

  /** `add_role` appends at the end and keeps duplicates; `delete_role` removes every copy and
      keeps the rest in order. */
  lemma RoleEdits(u: User, role: string)
    ensures AdminEdit(u, "add_role", role).value.roles == u.roles + [role]
    ensures var kept := AdminEdit(u, "delete_role", role).value.roles;
      role !in kept && forall x :: x != role ==> multiset(kept)[x] == multiset(u.roles)[x]
  {
  }

  /** The flash message of each operation. */
  function Flash(op: string, role: string, userID: string): string
  {
    if op == "add_role" then "Added role " + role + " to " + userID
    else if op == "delete_role" then "Removed role " + role + " from " + userID
    else if op == "delete_admin" then "Removed admin from " + userID
    else if op == "add_admin" then "Added admin to " + userID
    else "Reset devices for " + userID
  }

  /** `isAuthorizedAdmin`: the cookie names a stored session whose user is stored and is an
      admin. The session's second-factor flag is not consulted. */
  predicate AdminAuthorized(sessions: map<string, Session>, users: map<string, User>, cookie: Option<string>)
  {
    && cookie.Some? && cookie.value in sessions
    && sessions[cookie.value].userID in users
    && users[sessions[cookie.value].userID].admin
  }

  /** Whether the session passed the second factor makes no difference to the admin gate. */
  lemma AdminGateIgnoresSecondFactor(sessions: map<string, Session>, users: map<string, User>, id: string, verified: bool)
    requires id in sessions
    ensures AdminAuthorized(sessions[id := sessions[id].(u2f := verified)], users, Some(id))
        == AdminAuthorized(sessions, users, Some(id))
  {
  }
}
