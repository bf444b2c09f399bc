/** The command-line client (cmd/tvm/tvm.go `cliMain`) and its cache file (clistore.go). The
    clock, the loopback listener, the browser and the cache file are inputs: `now`, the port
    the listener got, the query of the one request the listener answers, and the loaded state. */
module Cli {
  import opened Wrappers
  import opened Records
  import opened Issuance
  import opened Http
  import Decimal

  datatype Credential = Credential(accessKeyID: string, secretAccessKey: string, sessionToken: string, expires: Time)

  /** The zero `Credential`: empty strings and the zero instant. */
  const ZeroCredential := Credential("", "", "", 0)

  /** `ServerState`; `None` is a nil map. */
  datatype ServerState = ServerState(roles: Option<map<string, Credential>>)

  /** `ClientState`; `None` is a nil map (a state file that is missing, or whose `Servers` is null). */
  datatype ClientState = ClientState(servers: Option<map<string, ServerState>>)

  /** What `cliMain` ends with. */
  datatype Outcome = Failed(message: string) | Printed(text: string) | Panicked

  /** Indexing a Go map: a nil map or a missing key gives the zero value. */
  function ServerOf(servers: Option<map<string, ServerState>>, server: string): (st: ServerState)
    ensures servers.Some? && server in servers.value ==> st == servers.value[server]
    ensures servers.None? || server !in servers.value ==> st.roles.None?
  {
    if servers.Some? && server in servers.value then servers.value[server] else ServerState(None)
  }

  function CredentialOf(roles: Option<map<string, Credential>>, role: string): (c: Credential)
    ensures roles.Some? && role in roles.value ==> c == roles.value[role]
    ensures roles.None? || role !in roles.value ==> c == ZeroCredential
  {
    if roles.Some? && role in roles.value then roles.value[role] else ZeroCredential
  }

  /** The cached credential for a server and role. */
  function Cached(state: ClientState, server: string, role: string): Credential
  {
    CredentialOf(ServerOf(state.servers, server).roles, role)
  }

  /** `!Expires.IsZero() && time.Now().Before(Expires)`. */
  predicate CacheHit(c: Credential, now: Time)
  {
    c.expires != 0 && now < c.expires
  }

  /** A zero credential is never a hit, whatever the clock says. */
  lemma ZeroNeverHits(now: Time)
    ensures !CacheHit(ZeroCredential, now)
  {
  }

  /** The flag's value, or the only key when the flag is empty and there is exactly one. */
  ghost function Inferred<V>(flag: string, m: Option<map<string, V>>): string
  {
    if flag == "" && m.Some? && |m.value| == 1 then
      SoleKeyExists(m.value);
      var k :| k in m.value; k
    else flag
  }

  lemma SoleKeyExists<V>(m: map<string, V>)
    requires |m| == 1
    ensures exists k :: k in m
  {
    var k :| k in m.Keys;
  }

  /** The loop `for k := range m { x = k }` over a map with one entry. */
  method SoleKey<V>(m: map<string, V>) returns (k: string)
    requires |m| == 1
    ensures m.Keys == {k}
  {
    k :| k in m;
    var rest := m.Keys - {k};
    assert |rest| == |m.Keys| - 1 == 0;
    assert rest == {};
  }

  /** A one-key map's key is determined: `Inferred` names it. */
  lemma InferredIsSoleKey<V>(m: map<string, V>, k: string)
    requires m.Keys == {k}
    ensures Inferred("", Some(m)) == k
  {
    assert |m| == |m.Keys| == 1;
  }

  /** The lines the client prints: the role under `roleVariable`, then the three AWS variables. */
  function Exports(roleVariable: string, role: string, c: Credential): string
  {
    "export " + roleVariable + "=" + role + "\n" +
    "export AWS_ACCESS_KEY_ID=" + c.accessKeyID + "\n" +
    "export AWS_SECRET_ACCESS_KEY=" + c.secretAccessKey + "\n" +
    "export AWS_SESSION_TOKEN=" + c.sessionToken + "\n"
  }

  /** The loopback handler: a non-empty `error` fails with that text; otherwise the role and the
      credential are read from the query, the expiry as RFC 3339 text. */
  function ParseCallback(q: Query, parseRFC3339: string -> Option<Time>): (r: Result<(string, Credential), string>)
    ensures QueryGet(q, "error") != "" ==> r == Err(QueryGet(q, "error"))
    ensures r.Ok? ==> QueryGet(q, "error") == "" && r.value.0 == QueryGet(q, "role")
    ensures r.Ok? ==>
      && r.value.1.accessKeyID == QueryGet(q, "access_key_id")
      && r.value.1.secretAccessKey == QueryGet(q, "secret_access_key")
      && r.value.1.sessionToken == QueryGet(q, "session_token")
      && Some(r.value.1.expires) == parseRFC3339(QueryGet(q, "expiration"))
    ensures QueryGet(q, "error") == "" && parseRFC3339(QueryGet(q, "expiration")).Some? ==> r.Ok?
  {
    var errText := QueryGet(q, "error");
    if errText != "" then Err(errText)
    else match parseRFC3339(QueryGet(q, "expiration"))
      case None => Err("parsing time " + Quote(QueryGet(q, "expiration")) + " as RFC 3339")
      case Some(expires) =>
        Ok((QueryGet(q, "role"), Credential(QueryGet(q, "access_key_id"), QueryGet(q, "secret_access_key"),
                                            QueryGet(q, "session_token"), expires)))
  }

  /** The server's loopback redirect and the client's loopback handler agree: whatever the
      server issues the client receives unchanged, provided the time text parses back. */
  lemma CallbackRoundTrip(role: string, c: Credentials, formatRFC3339: Time -> string, parseRFC3339: string -> Option<Time>)
    requires parseRFC3339(formatRFC3339(c.expiration)) == Some(c.expiration)
    ensures ParseCallback(CredentialQuery(role, c, formatRFC3339), parseRFC3339)
      == Ok((role, Credential(c.accessKeyID, c.secretAccessKey, c.sessionToken, c.expiration)))
  {
    var q := CredentialQuery(role, c, formatRFC3339);
    assert "error" !in q;
  }

  /** The query `cliMain` builds for the server: the server URL's own query with `format`,
      `port` and, when known, `role` set. */
  function CliQuery(base: Query, port: string, role: string): (q: Query)
    ensures QueryGet(q, "format") == "cli" && QueryGet(q, "port") == port
    ensures role != "" ==> QueryGet(q, "role") == role
    ensures role == "" ==> QueryGet(q, "role") == QueryGet(base, "role")
    ensures forall k :: k in base && k !in {"format", "port", "role"} ==> k in q && q[k] == base[k]
  {
    var q := base["format" := ["cli"]]["port" := [port]];
    if role != "" then q["role" := [role]] else q
  }

  /** `listener.Addr().String()` for a listener on 127.0.0.1. */
  function ListenerAddress(port: nat): string
  {
    "127.0.0.1:" + Decimal.Itoa(port)
  }

  /** The cache update as written: it writes into `serverState.Roles` and `state.Servers`,
      either of which may be a nil map, and writing into a nil map panics (None). */
  function StoreCredentialAsWritten(state: ClientState, server: string, serverState: ServerState,
                                    role: string, c: Credential): (r: Option<ClientState>)
    ensures r.Some? <==> serverState.roles.Some? && state.servers.Some?
    ensures r.Some? ==> Cached(r.value, server, role) == c
  {
    match (serverState.roles, state.servers)
    case (Some(roles), Some(servers)) => Some(ClientState(Some(servers[server := ServerState(Some(roles[role := c]))])))
    case _ => None
  }

  /** A first login to a server (or any login with no state file) always panics. */
  lemma NewServerPanics(state: ClientState, server: string, role: string, c: Credential)
    requires state.servers.None? || server !in state.servers.value
    ensures StoreCredentialAsWritten(state, server, ServerOf(state.servers, server), role, c) == None
  {
  }

  /** The cache update as evidently intended: missing maps are created. */
  function StoreCredential(state: ClientState, server: string, role: string, c: Credential): (next: ClientState)
    ensures Cached(next, server, role) == c
    ensures forall s, r :: (s, r) != (server, role) ==> Cached(next, s, r) == Cached(state, s, r)
  {
    var servers := if state.servers.Some? then state.servers.value else map[];
    var roles := if ServerOf(state.servers, server).roles.Some? then ServerOf(state.servers, server).roles.value else map[];
    ClientState(Some(servers[server := ServerState(Some(roles[role := c]))]))
  }

  /** Where both maps exist the intended update is the written one. */
  lemma StoreCredentialAgrees(state: ClientState, server: string, role: string, c: Credential)
    requires state.servers.Some? && ServerOf(state.servers, server).roles.Some?
    ensures StoreCredentialAsWritten(state, server, ServerOf(state.servers, server), role, c) == Some(StoreCredential(state, server, role, c))
  {
  }

  /** The next run finds the stored credential and reuses it until it expires. */
  lemma StoredCredentialHits(state: ClientState, server: string, role: string, c: Credential, now: Time)
    ensures CacheHit(Cached(StoreCredential(state, server, role, c), server, role), now) <==> c.expires != 0 && now < c.expires
  {
  }

  /** The request `cliMain` evidently meant to open: the server URL with `CliQuery` as its query,
      the port as a bare number. */
  function LoopbackRequest(server: string, base: Query, port: nat, role: string): (l: Location)
    ensures l.target == server && l.query.Some?
    ensures QueryGet(l.query.value, "format") == "cli"
    ensures port <= Decimal.MaxInt64 ==> Decimal.Atoi(QueryGet(l.query.value, "port")) == Some(port)
    ensures role != "" ==> QueryGet(l.query.value, "role") == role
  {
    assert port <= Decimal.MaxInt64 ==> Decimal.Atoi(Decimal.Itoa(port)) == Some(port) by {
      if port <= Decimal.MaxInt64 {
        Decimal.AtoiItoa(port);
      }
    }
    Location(server, Some(CliQuery(base, Decimal.Itoa(port), role)))
  }

  /** The port value `cliMain` as written puts in its query is never a number. */
  lemma ListenerAddressNotAPort(port: nat)
    ensures Decimal.Atoi(ListenerAddress(port)) == None
  {
    Decimal.AtoiRejects(ListenerAddress(port), 3);
  }

  /** What a run of `cliMain` that loaded `state` ends with, given the values of `-s` and
      `-r`. `listenPort` is the port of the loopback listener, None when listening fails;
      `parseURL` gives the query of the server URL, None when it does not parse; `callback` is
      the query of the one request the listener answers; `putFails` says the state file
      cannot be written. */
  ghost predicate CliRun(serverFlag: string, roleFlag: string, state: ClientState, now: Time,
                         listenPort: Option<nat>, parseURL: string -> Option<Query>, callback: Query,
                         parseRFC3339: string -> Option<Time>, putFails: bool,
                         out: Outcome, browserURL: Option<Location>, saved: Option<ClientState>)
  {
    var server := Inferred(serverFlag, state.servers);
    var serverState := ServerOf(state.servers, server);
    var role := Inferred(roleFlag, serverState.roles);
    var cached := CredentialOf(serverState.roles, role);
    if server == "" then out == Failed("Cannot infer server, specify -s") && browserURL.None? && saved.None?
    else if role == "" then out == Failed("Cannot infer role, specify -r") && browserURL.None? && saved.None?
    else if CacheHit(cached, now) then out == Printed(Exports("TVM_AWS_ROLE", role, cached)) && browserURL.None? && saved.None?
    else if listenPort.None? || parseURL(server).None? then out.Failed? && browserURL.None? && saved.None?
    else
      // the browser is sent to the server URL exactly as given
      && browserURL == Some(Location(server, None))
      && match ParseCallback(callback, parseRFC3339)
        case Err(e) => out == Failed(e) && saved.None?
        case Ok((issued, c)) =>
          match StoreCredentialAsWritten(state, server, serverState, issued, c)
          case None => out == Panicked && saved.None?
          case Some(next) =>
            if putFails then out.Failed? && saved.None?
            else out == Printed(Exports("AWS_ROLE", issued, c)) && saved == Some(next) && Cached(next, server, issued) == c
  }

  /** A name inferred from an empty flag is either empty or the sole key of a map that exists. */
  lemma InferredFromEmpty<V>(m: Option<map<string, V>>)
    ensures Inferred("", m) != "" ==> m.Some? && |m.value| == 1 && Inferred("", m) in m.value
  {
  }

  /** cmd/tvm/tvm.go `cliMain` as written: `-s` and `-r` are declared but `flag.Parse` is never
      called, so both keep their default `""` and the server and role can only be inferred
      from a state file holding exactly one server with exactly one role. Every other run
      fails, and the cache write never meets a nil map. */
  method CliMain(loaded: Result<ClientState, string>, now: Time,
                 listenPort: Option<nat>, parseURL: string -> Option<Query>, callback: Query,
                 parseRFC3339: string -> Option<Time>, putFails: bool)
    returns (out: Outcome, browserURL: Option<Location>, saved: Option<ClientState>)
    ensures loaded.Err? ==> out == Failed(loaded.error) && browserURL.None? && saved.None?
    ensures loaded.Ok? ==> CliRun("", "", loaded.value, now, listenPort, parseURL, callback, parseRFC3339, putFails, out, browserURL, saved)
    ensures loaded.Ok? && (loaded.value.servers.None? || |loaded.value.servers.value| != 1) ==>
      out == Failed("Cannot infer server, specify -s") && browserURL.None? && saved.None?
    ensures loaded.Ok? && loaded.value.servers.Some? && loaded.value.servers.value.Keys == {""} ==>
      out == Failed("Cannot infer server, specify -s")
    ensures forall server :: loaded.Ok? && loaded.value.servers.Some? && loaded.value.servers.value.Keys == {server} && server != "" ==>
      var roles := loaded.value.servers.value[server].roles;
      roles.None? || |roles.value| != 1 ==>
        out == Failed("Cannot infer role, specify -r") && browserURL.None? && saved.None?
    ensures out != Panicked
  {
    out, browserURL, saved := CliMainWithFlags("", "", loaded, now, listenPort, parseURL, callback, parseRFC3339, putFails);
    if loaded.Ok? {
      var servers := loaded.value.servers;
      InferredFromEmpty(servers);
      var server := Inferred("", servers);
      if servers.Some? && |servers.value| == 1 {
        var k := SoleKey(servers.value);
        InferredIsSoleKey(servers.value, k);
      }
      InferredFromEmpty(ServerOf(servers, server).roles);
    }
  }

  /** `cliMain` with `-s` and `-r` parsed, as evidently intended: an explicit server or role is
      used as given, and only an empty one is inferred. Everything after the flags is as
      written. */
  method CliMainWithFlags(serverFlag: string, roleFlag: string, loaded: Result<ClientState, string>, now: Time,
                          listenPort: Option<nat>, parseURL: string -> Option<Query>, callback: Query,
                          parseRFC3339: string -> Option<Time>, putFails: bool)
    returns (out: Outcome, browserURL: Option<Location>, saved: Option<ClientState>)
    ensures loaded.Err? ==> out == Failed(loaded.error) && browserURL.None? && saved.None?
    ensures loaded.Ok? ==> CliRun(serverFlag, roleFlag, loaded.value, now, listenPort, parseURL, callback, parseRFC3339, putFails, out, browserURL, saved)
  {
    browserURL, saved := None, None;
    if loaded.Err? {
      return Failed(loaded.error), browserURL, saved;
    }
    var state := loaded.value;
    var server := serverFlag;
    if server == "" && state.servers.Some? && |state.servers.value| == 1 {
      server := SoleKey(state.servers.value);
      InferredIsSoleKey(state.servers.value, server);
    }
    if server == "" {
      return Failed("Cannot infer server, specify -s"), browserURL, saved;
    }
    var serverState := ServerOf(state.servers, server);
    var role := roleFlag;
    if role == "" && serverState.roles.Some? && |serverState.roles.value| == 1 {
      role := SoleKey(serverState.roles.value);
      InferredIsSoleKey(serverState.roles.value, role);
    }
    if role == "" {
      return Failed("Cannot infer role, specify -r"), browserURL, saved;
    }
    assert server == Inferred(serverFlag, state.servers) && role == Inferred(roleFlag, serverState.roles);
    var credential := CredentialOf(serverState.roles, role);
    if CacheHit(credential, now) {
      return Printed(Exports("TVM_AWS_ROLE", role, credential)), browserURL, saved;
    }
    if listenPort.None? {
      return Failed("cannot listen on 127.0.0.1"), browserURL, saved;
    }
    var base := parseURL(server);
    if base.None? {
      return Failed("cannot parse server URL"), browserURL, saved;
    }
    // built, and never attached to the URL that is opened
    var query := CliQuery(base.value, ListenerAddress(listenPort.value), role);
    browserURL := Some(Location(server, None));
    var answer := ParseCallback(callback, parseRFC3339);
    if answer.Err? {
      return Failed(answer.error), browserURL, saved;
    }
    role, credential := answer.value.0, answer.value.1;
    var next := StoreCredentialAsWritten(state, server, serverState, role, credential);
    if next.None? {
      return Panicked, browserURL, saved;
    }
    if putFails {
      return Failed("cannot write state file"), browserURL, saved;
    }
    saved := next;
    out := Printed(Exports("AWS_ROLE", role, credential));
  }
}
