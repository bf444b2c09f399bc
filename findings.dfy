/** End-to-end consequences of the discrepancies listed under Findings in README.md: each
    method drives the handlers as written, and then the corrected ones, through the same
    scenario. */
module Findings {
  import opened Wrappers
  import opened Records
  import opened Storage
  import opened SecondFactor
  import opened Http
  import opened Issuance
  import opened Broker
  import Cli
  import Decimal

  /** A person signing in for the first time is never let in: `LocalStore.GetUser` reports
      `ErrNotFound`, which the callback prints instead of creating the user. */
  method FirstLoginAsWritten(srv: Server, r: Request, random: Option<seq<Byte>>) returns (resp: Response)
    requires srv.Valid() && StateAccepted(srv.store.sessions, r) && !srv.store.sessionWritesFail
    requires IdentityOf(srv.idp, QueryGet(r.query, "code")).Email?
    requires IdentityOf(srv.idp, QueryGet(r.query, "code")).email !in srv.store.users
    modifies srv, srv.store
    ensures resp == Reply(StatusOK, "cannot fetch user: %w not found\n")
    ensures srv.store.users == old(srv.store.users)
  {
    resp := srv.HandleOAuth2Callback(r, random);
  }

  /** With the intended callback the newcomer is created and sent on to register a device. */
  method FirstLoginCorrected(srv: Server, r: Request, random: Option<seq<Byte>>) returns (resp: Response)
    requires srv.Valid() && StateAccepted(srv.store.sessions, r)
    requires !srv.store.sessionWritesFail && !srv.store.userWritesFail
    requires IdentityOf(srv.idp, QueryGet(r.query, "code")).Email?
    requires IdentityOf(srv.idp, QueryGet(r.query, "code")).email !in srv.store.users
    modifies srv, srv.store
    ensures resp == Redirect(Location("/u2f/register", None), None)
    ensures var email := IdentityOf(srv.idp, QueryGet(r.query, "code")).email;
      email in srv.store.users && srv.store.users[email] == User(email, [], [], false)
  {
    resp := srv.HandleOAuth2CallbackCreating(r, random);
  }

  /** A user with no device opens the registration page and the browser answers. As written
      the challenge was never stored, so the answer makes the handler dereference nil and no
      device is registered. */
  method RegistrationAsWritten(srv: Server, cookie: string, random: Option<seq<Byte>>, answer: string)
    returns (page: Response, outcome: Response)
    requires srv.Valid() && cookie in srv.store.sessions && srv.store.sessions[cookie].u2fChallenge.None?
    requires srv.store.sessions[cookie].userID in srv.store.users
    requires srv.store.users[srv.store.sessions[cookie].userID].u2fDevices == []
    requires answer != "" && srv.u2f.parseRegisterResponse(answer).Some?
    modifies srv.store
    ensures random.Some? ==> page.RegisterPage?
    ensures outcome.Abort?
    ensures srv.store.users == old(srv.store.users)
  {
    page := srv.HandleU2FRegister(Request(Some(cookie), map[], map[]), random);
    outcome := srv.HandleU2FRegister(Request(Some(cookie), map["resp" := [answer]], map[]), random);
  }

  /** With the challenge stored, the same answer registers the device, with counter 0, and
      clears the challenge. */
  method RegistrationCorrected(srv: Server, cookie: string, random: Option<seq<Byte>>, answer: string)
    returns (page: Response, outcome: Response)
    requires srv.Valid() && cookie in srv.store.sessions
    requires srv.store.sessions[cookie].userID in srv.store.users
    requires srv.store.users[srv.store.sessions[cookie].userID].u2fDevices == []
    requires !srv.store.sessionWritesFail && !srv.store.userWritesFail
    requires random.Some? && answer != "" && srv.u2f.parseRegisterResponse(answer).Some?
    requires srv.u2f.register(srv.u2f.parseRegisterResponse(answer).value,
                              Challenge(random.value, srv.AppID(), [srv.AppID()])).Some?
    modifies srv.store
    ensures page.RegisterPage?
    ensures outcome == Reply(StatusOK, "OK\n")
    ensures var uid := old(srv.store.sessions[cookie].userID);
      var reg := srv.u2f.register(srv.u2f.parseRegisterResponse(answer).value,
                                  Challenge(random.value, srv.AppID(), [srv.AppID()])).value;
      && uid in srv.store.users && srv.store.users[uid].u2fDevices == [U2FDevice(reg, 0)]
      && cookie in srv.store.sessions && srv.store.sessions[cookie].u2fChallenge.None?
  {
    var uid := srv.store.sessions[cookie].userID;
    var ch := Challenge(random.value, srv.AppID(), [srv.AppID()]);
    assert QueryGet(map[], "resp") == "";
    page := srv.HandleU2FRegisterSaving(Request(Some(cookie), map[], map[]), random);
    assert srv.store.sessions[cookie].u2fChallenge == Some(ch);
    assert srv.store.sessions[cookie].userID == uid && uid in srv.store.users;
    assert QueryGet(map["resp" := [answer]], "resp") == answer;
    outcome := srv.HandleU2FRegister(Request(Some(cookie), map["resp" := [answer]], map[]), random);
  }

  /** The signed-in holder of a single role, as the server sees the command-line client's
      browser request. */
  predicate SoleRoleHolder(sessions: map<string, Session>, users: map<string, User>, cookie: string, role: string)
  {
    && Authenticated(sessions, users, Some(cookie))
    && users[sessions[cookie].userID].roles == [role]
  }

  /** As written the client opens the server URL without its query: the server sees no
      `format`, issues the credential and answers with an empty page instead of the loopback
      redirect, so the client waits for ever. Had the query been attached, its `port` (the
      listener's host:port) would be refused. */
  method CliLoginAsWritten(srv: Server, cookie: string, role: string, port: nat, cred: Credentials)
    returns (bare: Response, withQuery: Response)
    requires srv.Valid() && SoleRoleHolder(srv.store.sessions, srv.store.users, cookie, role) && role != ""
    requires srv.sts(AssumeRoleInput(srv.config.credentialLifetimeSeconds, role,
                                     RoleSessionName(srv.store.sessions[cookie].userID))) == Some(cred)
    modifies srv, srv.store
    ensures bare == Reply(StatusOK, "")
    ensures withQuery == Reply(StatusBadRequest, "cannot parse port\n")
  {
    bare := srv.HandleGetToken(Request(Some(cookie), map[], map[]), None, None);
    Cli.ListenerAddressNotAPort(port);
    withQuery := srv.HandleGetToken(Request(Some(cookie), Cli.CliQuery(map[], Cli.ListenerAddress(port), role), map[]), None, None);
  }

  /** With the intended request the server redirects to the loopback listener, and the
      client's handler reads back exactly the issued credential. */
  method CliLoginCorrected(srv: Server, cookie: string, role: string, port: nat, cred: Credentials,
                           server: string, parseRFC3339: string -> Option<Time>)
    returns (resp: Response)
    requires srv.Valid() && SoleRoleHolder(srv.store.sessions, srv.store.users, cookie, role) && role != ""
    requires srv.sts(AssumeRoleInput(srv.config.credentialLifetimeSeconds, role,
                                     RoleSessionName(srv.store.sessions[cookie].userID))) == Some(cred)
    requires port <= Decimal.MaxInt64
    requires parseRFC3339(srv.formatRFC3339(cred.expiration)) == Some(cred.expiration)
    modifies srv, srv.store
    ensures resp.Redirect? && resp.location.query.Some?
    ensures resp.location.target == "http://localhost:" + Decimal.Itoa(port) + "/"
    ensures Cli.ParseCallback(resp.location.query.value, parseRFC3339)
      == Ok((role, Cli.Credential(cred.accessKeyID, cred.secretAccessKey, cred.sessionToken, cred.expiration)))
  {
    var request := Cli.LoopbackRequest(server, map[], port, role);
    resp := srv.HandleGetToken(Request(Some(cookie), request.query.value, map[]), None, None);
    Cli.CallbackRoundTrip(role, cred, srv.formatRFC3339, parseRFC3339);
  }

  /** As written `-s` and `-r` are never parsed: asked for a server and a role with no state
      file, the client cannot infer a server and gives up. With the flags parsed the same
      run opens the server URL. */
  method FlagsIgnored(role: string, callback: Query, now: Time, port: nat,
                      parseURL: string -> Option<Query>, parseRFC3339: string -> Option<Time>)
    returns (asWritten: Cli.Outcome, shown: Option<Location>, shownWithFlags: Option<Location>)
    requires role != "" && parseURL("https://tvm.example.com/").Some?
    ensures asWritten == Cli.Failed("Cannot infer server, specify -s") && shown.None?
    ensures shownWithFlags == Some(Location("https://tvm.example.com/", None))
  {
    var saved;
    asWritten, shown, saved := Cli.CliMain(Ok(Cli.ClientState(None)), now, Some(port), parseURL,
                                            callback, parseRFC3339, false);
    var out;
    out, shownWithFlags, saved := Cli.CliMainWithFlags("https://tvm.example.com/", role, Ok(Cli.ClientState(None)), now,
                                                     Some(port), parseURL, callback, parseRFC3339, false);
  }

  /** Once `-s` and `-r` are parsed, a first login to a server panics while caching the
      credential; the intended update caches it. */
  method FirstCacheWrite(role: string, c: Cli.Credential, callback: Query, now: Time, port: nat,
                         parseURL: string -> Option<Query>, parseRFC3339: string -> Option<Time>)
    returns (out: Cli.Outcome, next: Cli.ClientState)
    requires role != "" && parseURL("https://tvm.example.com/").Some?
    requires Cli.ParseCallback(callback, parseRFC3339) == Ok((role, c))
    ensures out == Cli.Panicked
    ensures Cli.Cached(next, "https://tvm.example.com/", role) == c
  {
    var shown, saved;
    out, shown, saved := Cli.CliMainWithFlags("https://tvm.example.com/", role, Ok(Cli.ClientState(None)), now,
                                              Some(port), parseURL, callback, parseRFC3339, false);
    next := Cli.StoreCredential(Cli.ClientState(None), "https://tvm.example.com/", role, c);
  }
}
