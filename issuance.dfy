/** The decisions of `handleGetToken` once the caller is authenticated: which role is wanted,
    whether the user may have it, what is asked of the token service, and how the credential
    is delivered (`format=cli` redirect to a loopback listener, or `format=sh` shell text). */
module Issuance {
  import opened Wrappers
  import opened Records
  import opened Strings
  import opened Http
  import Decimal

  /** Seconds since Go's zero instant (0001-01-01T00:00:00Z), so the zero time is 0. */
  type Time = int

  /** The `sts.AssumeRoleInput` fields the broker sets. */
  datatype AssumeRoleInput = AssumeRoleInput(durationSeconds: int, roleArn: string, roleSessionName: string)

  /** The credentials `AssumeRole` returns. */
  datatype Credentials = Credentials(accessKeyID: string, secretAccessKey: string, sessionToken: string, expiration: Time)

  /** The role asked for: the `role` parameter, or the user's only role when the parameter is
      empty and the user has exactly one. */
  function DesiredRole(q: Query, roles: seq<string>): string
  {
    var asked := QueryGet(q, "role");
    if asked == "" && |roles| == 1 then roles[0] else asked
  }

  /** An explicit role is used as given; an empty one is replaced only for a single-role user. */
  lemma DesiredRoleChoice(q: Query, roles: seq<string>)
    ensures QueryGet(q, "role") != "" ==> DesiredRole(q, roles) == QueryGet(q, "role")
    ensures QueryGet(q, "role") == "" && |roles| == 1 ==> DesiredRole(q, roles) == roles[0]
    ensures QueryGet(q, "role") == "" && |roles| != 1 ==> DesiredRole(q, roles) == ""
  {
  }

  /** The membership loop setting `roleIsOK`: exact string equality with some entry. */
  method RoleAllowed(roles: seq<string>, desired: string) returns (ok: bool)
    ensures ok <==> desired in roles
  {
    ok := false;
    var i := 0;
    while i < |roles|
      invariant 0 <= i <= |roles|
      invariant ok <==> desired in roles[..i]
    {
      assert roles[..i + 1] == roles[..i] + [roles[i]];
      if roles[i] == desired {
        ok := true;
      }
      i := i + 1;
    }
    assert roles[..i] == roles;
  }

  /** Whatever role ends up authorised is one of the user's roles, character for character;
      without an explicit role that needs a single-role user or an empty role on the list. */
  lemma AuthorisedRoleIsListed(q: Query, roles: seq<string>)
    requires DesiredRole(q, roles) in roles
    ensures QueryGet(q, "role") != "" ==> QueryGet(q, "role") in roles
    ensures QueryGet(q, "role") == "" ==> |roles| == 1 || "" in roles
  {
  }

  /** With no `role` parameter, a user whose roles include the empty string is authorised for
      the empty role (or, holding only that one, inferred to it). */
  lemma EmptyRoleAuthorised(q: Query, roles: seq<string>)
    requires QueryGet(q, "role") == "" && "" in roles
    ensures DesiredRole(q, roles) in roles
    ensures DesiredRole(q, roles) == ""
  {
  }

  /** `RoleSessionName`: "tvm:" and the user's ID, for the cloud-side audit trail. */
  function RoleSessionName(userID: string): (name: string)
    ensures |name| == |userID| + 4 && name[..4] == "tvm:" && name[4..] == userID
  {
    "tvm:" + userID
  }

  /** The session name identifies the user: two users never share one, so the cloud-side audit
      trail names exactly one user ID. */
  lemma RoleSessionNameIdentifies(a: string, b: string)
    ensures RoleSessionName(a) == RoleSessionName(b) ==> a == b
  {
  }

  /** The query of the `format=cli` redirect. */
  function CredentialQuery(role: string, c: Credentials, formatRFC3339: Time -> string): (q: Query)
    ensures q.Keys == {"role", "access_key_id", "secret_access_key", "session_token", "expiration"}
    ensures QueryGet(q, "role") == role && QueryGet(q, "access_key_id") == c.accessKeyID
    ensures QueryGet(q, "secret_access_key") == c.secretAccessKey && QueryGet(q, "session_token") == c.sessionToken
    ensures QueryGet(q, "expiration") == formatRFC3339(c.expiration)
  {
    map["role" := [role], "access_key_id" := [c.accessKeyID], "secret_access_key" := [c.secretAccessKey],
        "session_token" := [c.sessionToken], "expiration" := [formatRFC3339(c.expiration)]]
  }

  /** The `format=cli` target: `http://localhost:<port>/` with the credential query. */
  function LoopbackLocation(port: int, q: Query): Location
  {
    Location("http://localhost:" + Decimal.Itoa(port) + "/", Some(q))
  }

  /** The `format=sh` body. */
  function ShellExports(c: Credentials): string
  {
    "export AWS_ACCESS_KEY_ID=" + c.accessKeyID + "\n"
    + "export AWS_SECRET_ACCESS_KEY=" + c.secretAccessKey + "\n"
    + "export AWS_SESSION_TOKEN=" + c.sessionToken + "\n"
  }

  /** The shell body is exactly three export lines, in this order, each ending in a newline. */
  lemma ShellExportsLines(c: Credentials)
    requires '\n' !in c.accessKeyID && '\n' !in c.secretAccessKey && '\n' !in c.sessionToken
    ensures Split(ShellExports(c), '\n') == [
      "export AWS_ACCESS_KEY_ID=" + c.accessKeyID,
      "export AWS_SECRET_ACCESS_KEY=" + c.secretAccessKey,
      "export AWS_SESSION_TOKEN=" + c.sessionToken,
      ""]
  {
    var lines := [
      "export AWS_ACCESS_KEY_ID=" + c.accessKeyID,
      "export AWS_SECRET_ACCESS_KEY=" + c.secretAccessKey,
      "export AWS_SESSION_TOKEN=" + c.sessionToken,
      ""];
    assert Join(lines, '\n') == ShellExports(c) by {
      assert Join(lines[3..], '\n') == "";
      assert Join(lines[2..], '\n') == lines[2] + "\n";
      assert Join(lines[1..], '\n') == lines[1] + "\n" + lines[2] + "\n";
    }
    SplitJoin(lines, '\n');
  }

  /** Go's `%q` for the printable text the model covers: quotes, with `"` and `\` escaped. */
  function Quote(s: string): string
  {
    "\"" + Escape(s) + "\""
  }

  function Escape(s: string): string
  {
    if |s| == 0 then ""
    else (if s[0] == '"' then "\\\"" else if s[0] == '\\' then "\\\\" else [s[0]]) + Escape(s[1..])
  }

  /** The 403 body for a role the user does not hold. */
  function RoleNotAllowed(role: string): string
  {
    "role " + Quote(role) + " is not allowed\n"
  }
}
