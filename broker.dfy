/** The broker's request handlers (`Server` in session.go, oauth2.go, u2f_sign.go,
    u2f_register.go, server.go and admin.go), each a method over the store's two tables.
    External services are capabilities of the server: the identity provider (authorisation URL,
    code exchange, JSON decoding of the ID token), the U2F library, the token service and the
    RFC 3339 formatter. Random bytes are arguments of the handlers that read them. Calls to
    the identity provider and to the token service are recorded, in order, in `calls`. */
module Broker {
  import opened Wrappers
  import opened Records
  import opened Storage
  import opened SecondFactor
  import opened Http
  import opened Issuance
  import opened Admin
  import Base64Url
  import Jwt
  import Decimal

  /** 32 bytes read from `crypto/rand`. */
  type Nonce = s: seq<Byte> | |s| == 32 witness seq(32, i => 0)

  datatype Config = Config(rootURL: URL, sessionMaxAgeSeconds: int, credentialLifetimeSeconds: int)

  datatype IdentityProvider = IdentityProvider(
    /** `oauth2.Config.AuthCodeURL(state)`. */
    authCodeURL: string -> string,
    /** `Exchange(code)` and the token's `id_token` field: None when the exchange fails,
        "" when the token carries no ID token. */
    exchange: string -> Option<string>,
    /** JSON decoding of the ID token payload into `IDToken`, giving its `Email`. */
    claims: seq<Byte> -> Option<string>)

  /** An outbound call to the identity provider or the token service. */
  datatype Call = Exchange(code: string) | AssumeRole(input: AssumeRoleInput)

  /** The session `newSession` mints: unbound, unverified, without a challenge, remembering the
      original query, with ID and anti-forgery state each 32 random bytes as 43 characters of
      unpadded base64url. */
  function NewSessionRecord(query: Query, id: Nonce, state: Nonce): (s: Session)
    ensures s.userID == "" && !s.u2f && s.u2fChallenge.None? && s.params == query
    ensures |s.id| == 43 && |s.oauth2State| == 43
    ensures forall i :: 0 <= i < 43 ==> Base64Url.IsUrlSafe(s.id[i]) && Base64Url.IsUrlSafe(s.oauth2State[i])
    ensures Base64Url.DecodeString(s.id) == Some(id) && Base64Url.DecodeString(s.oauth2State) == Some(state)
  {
    Base64Url.DecodeEncode(id);
    Base64Url.DecodeEncode(state);
    Session(Base64Url.Encode(id), "", query, false, Base64Url.Encode(state), None)
  }

  /** What the cookie leads to in the store. */
  datatype Lookup = NoCookie | NoSession | NoUser(session: Session) | Found(session: Session, user: User)

  function LookUp(sessions: map<string, Session>, users: map<string, User>, cookie: Option<string>): Lookup
  {
    if cookie.None? then NoCookie
    else if cookie.value !in sessions then NoSession
    else
      var s := sessions[cookie.value];
      if s.userID in users then Found(s, users[s.userID]) else NoUser(s)
  }

  /** The gate of `handleGetToken`: a stored session bound to a user, second factor verified,
      whose user can be loaded. */
  predicate Authenticated(sessions: map<string, Session>, users: map<string, User>, cookie: Option<string>)
  {
    var l := LookUp(sessions, users, cookie);
    l.Found? && l.session.userID != "" && l.session.u2f
  }

  /** The callback's `state` equals the anti-forgery value stored on the cookie's session. */
  predicate StateAccepted(sessions: map<string, Session>, r: Request)
  {
    r.cookie.Some? && r.cookie.value in sessions && QueryGet(r.query, "state") == sessions[r.cookie.value].oauth2State
  }

  /** The outcome of exchanging the code and reading the ID token. */
  datatype Identity = BadCode | NoIDToken | BadIDToken(error: Jwt.JwtError) | Email(email: string)

  function IdentityOf(idp: IdentityProvider, code: string): Identity
  {
    match idp.exchange(code)
    case None => BadCode
    case Some(token) =>
      if token == "" then NoIDToken
      else match Jwt.ParseJWTWithoutVerifying(token, idp.claims)
        case Err(e) => BadIDToken(e)
        case Ok(email) => Email(email)
  }

  /** The body `fmt.Fprintln(w, "<prefix> %w", err)` writes: Fprintln does not format, so the
      verb is printed as it is. */
  function UnformattedError(prefix: string, e: StoreError): string
  {
    prefix + " %w " + ErrorText(e) + "\n"
  }

  const AdminRedirect: Response := Redirect(Location("/", Some(map["format" := ["admin"]])), None)

  /** The handlers `NewServer` registers, by HTTP method and path. */
  datatype Endpoint = GetToken | OAuth2Callback | U2FSigned | U2FRegister | AdminRoot | AdminOp | U2FApiJS
  datatype Verb = Get | Post

  /** goji's exact-path patterns: anything else is not found. */
  function Route(verb: Verb, path: string): (e: Option<Endpoint>)
    ensures verb.Post? ==> (e.Some? <==> path == "/admin")
    ensures e.Some? ==> path in {"/", "/oauth2/callback", "/u2f/sign", "/u2f/register", "/admin", "/u2f-api.js"}
  {
    match verb
    case Post => if path == "/admin" then Some(AdminOp) else None
    case Get =>
      if path == "/" then Some(GetToken)
      else if path == "/oauth2/callback" then Some(OAuth2Callback)
      else if path == "/u2f/sign" then Some(U2FSigned)
      else if path == "/u2f/register" then Some(U2FRegister)
      else if path == "/admin" then Some(AdminRoot)
      else if path == "/u2f-api.js" then Some(U2FApiJS)
      else None
  }

  /** Where the registration page sends the browser's answer: its own handler, which
      delegates when `resp` is present. */
  const RegisterAnswerPath := "/u2f/register"

  /** Where the sign page, as written, sends the browser's answer. */
  const SignAnswerPath := "/u2f/signed"

  /** The path the sign page evidently means: the route of `handleU2FSigned`. */
  const SignAnswerPathCorrected := "/u2f/sign"

  /** As written, the registration page's answer reaches its handler and the sign page's
      answer reaches none. */
  lemma AnswerRoutes()
    ensures Route(Get, RegisterAnswerPath) == Some(U2FRegister)
    ensures Route(Get, SignAnswerPath) == None
  {
  }

  /** The corrected sign answer reaches `handleU2FSigned`. */
  lemma SignAnswerRouted()
    ensures Route(Get, SignAnswerPathCorrected) == Some(U2FSigned)
  {
  }

  class Server {
    const config: Config
    const store: LocalStore
    const idp: IdentityProvider
    const u2f: U2FLibrary
    const sts: AssumeRoleInput -> Option<Credentials>
    const formatRFC3339: Time -> string
    var calls: seq<Call>

    ghost predicate Valid()
      reads this, store
    {
      store.Valid()
    }

    constructor (config: Config, store: LocalStore, idp: IdentityProvider, u2f: U2FLibrary,
                 sts: AssumeRoleInput -> Option<Credentials>, formatRFC3339: Time -> string)
      ensures this.config == config && this.store == store && this.idp == idp && this.u2f == u2f
      ensures this.sts == sts && this.formatRFC3339 == formatRFC3339 && calls == []
    {
      this.config, this.store, this.idp, this.u2f := config, store, idp, u2f;
      this.sts, this.formatRFC3339 := sts, formatRFC3339;
      calls := [];
    }

    /** The application identity of every challenge. */
    function AppID(): string
      reads this
    {
      SecondFactor.AppID(config.rootURL)
    }

    /** How `newSession` leaves the store and what it answers, from the given tables: the new
        session is stored before the cookie and redirect are produced; a failed write or a
        failed random read aborts without either. */
    ghost predicate Started(r: Request, idBytes: Option<Nonce>, stateBytes: Option<Nonce>, resp: Response,
                            sessionsBefore: map<string, Session>, journalBefore: seq<Write>)
      reads this, store
    {
      if idBytes.None? || stateBytes.None? || store.sessionWritesFail then
        resp.Abort? && store.sessions == sessionsBefore && store.journal == journalBefore
      else
        var s := NewSessionRecord(r.query, idBytes.value, stateBytes.value);
        && store.sessions == sessionsBefore[s.id := s]
        && store.journal == journalBefore + [SessionPut(s)]
        && resp == Redirect(Location(idp.authCodeURL(s.oauth2State), None),
                            Some(Cookie("session", s.id, config.sessionMaxAgeSeconds)))
    }

    /** session.go: mint a session, store it, set the cookie, redirect to the identity provider. */
    method NewSession(r: Request, idBytes: Option<Nonce>, stateBytes: Option<Nonce>) returns (resp: Response)
      requires Valid()
      modifies store
      ensures Valid() && store.users == old(store.users)
      ensures Started(r, idBytes, stateBytes, resp, old(store.sessions), old(store.journal))
    {
      if idBytes.None? || stateBytes.None? {
        return Abort("cannot read random bytes");
      }
      var session := NewSessionRecord(r.query, idBytes.value, stateBytes.value);
      var err := store.PutSession(session);
      if err.Some? {
        return Abort(ErrorText(err.value));
      }
      var cookie := Cookie("session", session.id, config.sessionMaxAgeSeconds);
      resp := Redirect(Location(idp.authCodeURL(session.oauth2State), None), Some(cookie));
    }

    /** `sendU2FChallenge`: a fresh challenge is stored on the session before the sign page is
        produced; nothing else about the session changes. */
    method SendU2FChallenge(session: Session, user: User, random: Option<seq<Byte>>) returns (resp: Response)
      requires Valid()
      modifies store
      ensures Valid() && store.users == old(store.users)
      ensures var c := NewChallenge(AppID(), [AppID()], random);
        if c.None? || store.sessionWritesFail then resp.Abort? && unchanged(store)
        else
          var s := session.(u2fChallenge := c);
          && store.sessions == old(store.sessions)[session.id := s]
          && store.journal == old(store.journal) + [SessionPut(s)]
          && resp == SignPage(SignRequest(c.value, RegistrationsOf(user.u2fDevices)))
    {
      var c := NewChallenge(AppID(), [AppID()], random);
      if c.None? {
        return Abort("cannot create challenge");
      }
      var s := session.(u2fChallenge := c);
      var err := store.PutSession(s);
      if err.Some? {
        return Abort(ErrorText(err.value));
      }
      resp := SignPage(SignRequest(c.value, RegistrationsOf(user.u2fDevices)));
    }

    /** The part of `handleOAuth2Callback` up to storing the bound session. `done` is the
        response when the handler stops here; otherwise `session` is the stored session. */
    method AcceptCallback(r: Request) returns (done: Option<Response>, session: Session)
      requires Valid()
      modifies this, store
      ensures Valid() && store.users == old(store.users)
      ensures !StateAccepted(old(store.sessions), r) ==> unchanged(store) && calls == old(calls) && done.Some?
      ensures r.cookie.None? ==> done == Some(Reply(StatusOK, "bad session cookie\n"))
      ensures r.cookie.Some? && r.cookie.value !in old(store.sessions) ==> done == Some(Reply(StatusOK, "bad session\n"))
      ensures r.cookie.Some? && r.cookie.value in old(store.sessions) && !StateAccepted(old(store.sessions), r) ==>
        done == Some(Reply(StatusOK, "bad state\n"))
      ensures StateAccepted(old(store.sessions), r) ==>
        var code := QueryGet(r.query, "code");
        var bound := old(store.sessions)[r.cookie.value];
        && calls == old(calls) + [Exchange(code)]
        && match IdentityOf(idp, code)
          case BadCode => done == Some(Reply(StatusOK, "bad code\n")) && unchanged(store)
          case NoIDToken => done.Some? && done.value.Abort? && unchanged(store)
          case BadIDToken(_) => done.Some? && done.value.Abort? && unchanged(store)
          case Email(email) =>
            var s := bound.(oauth2State := "", userID := email);
            if store.sessionWritesFail then done.Some? && done.value.Abort? && unchanged(store)
            else
              && done.None? && session == s && session.id == r.cookie.value
              && store.sessions == old(store.sessions)[r.cookie.value := s]
              && store.journal == old(store.journal) + [SessionPut(s)]
    {
      session := Session("", "", map[], false, "", None);
      if r.cookie.None? {
        return Some(Reply(StatusOK, "bad session cookie\n")), session;
      }
      var got := store.GetSession(r.cookie.value);
      if got.Err? {
        return Some(Reply(StatusOK, "bad session\n")), session;
      }
      session := got.value;
      if QueryGet(r.query, "state") != session.oauth2State {
        return Some(Reply(StatusOK, "bad state\n")), session;
      }
      var code := QueryGet(r.query, "code");
      calls := calls + [Exchange(code)];
      var token := idp.exchange(code);
      if token.None? {
        return Some(Reply(StatusOK, "bad code\n")), session;
      }
      if token.value == "" {
        return Some(Abort("token does not contain 'id_token'")), session;
      }
      var parsed := Jwt.ParseJWTWithoutVerifying(token.value, idp.claims);
      if parsed.Err? {
        return Some(Abort(Jwt.ErrorText(parsed.error))), session;
      }
      session := session.(oauth2State := "", userID := parsed.value);
      var err := store.PutSession(session);
      if err.Some? {
        return Some(Abort("cannot store session: " + ErrorText(err.value))), session;
      }
      done := None;
    }

    /** The callback's responses up to binding the session, shared by both versions of the
        handler: the cookie, session and state checks stop it with no exchange and no write; a
        bad code, a missing or malformed ID token, or a failed session write stops it after
        the one exchange, with no write. */
    twostate predicate CallbackPrefix(r: Request, resp: Response)
      reads this, store
    {
      var code := QueryGet(r.query, "code");
      if r.cookie.None? then resp == Reply(StatusOK, "bad session cookie\n") && unchanged(store) && calls == old(calls)
      else if r.cookie.value !in old(store.sessions) then
        resp == Reply(StatusOK, "bad session\n") && unchanged(store) && calls == old(calls)
      else if !StateAccepted(old(store.sessions), r) then
        resp == Reply(StatusOK, "bad state\n") && unchanged(store) && calls == old(calls)
      else
        && calls == old(calls) + [Exchange(code)]
        && match IdentityOf(idp, code)
          case BadCode => resp == Reply(StatusOK, "bad code\n") && unchanged(store)
          case Email(_) => store.sessionWritesFail ==> resp.Abort? && unchanged(store)
          case _ => resp.Abort? && unchanged(store)
    }

    /** oauth2.go `handleOAuth2Callback` as written against `LocalStore`: a missing user is
        reported as a fetch error, so no user is ever created here. */
    method HandleOAuth2Callback(r: Request, random: Option<seq<Byte>>) returns (resp: Response)
      requires Valid()
      modifies this, store
      ensures Valid() && store.users == old(store.users)
      ensures CallbackPrefix(r, resp)
      ensures StateAccepted(old(store.sessions), r) && IdentityOf(idp, QueryGet(r.query, "code")).Email? && !store.sessionWritesFail ==>
        var c := r.cookie.value;
        var email := IdentityOf(idp, QueryGet(r.query, "code")).email;
        var s := old(store.sessions)[c].(oauth2State := "", userID := email);
        && |store.journal| > |old(store.journal)|
        && store.journal[..|old(store.journal)| + 1] == old(store.journal) + [SessionPut(s)]
        && (email !in old(store.users) ==>
              && resp == Reply(StatusOK, UnformattedError("cannot fetch user:", NotFound))
              && store.sessions == old(store.sessions)[c := s] && store.journal == old(store.journal) + [SessionPut(s)])
        && (email in old(store.users) && |old(store.users)[email].u2fDevices| == 0 ==>
              && resp == Redirect(Location("/u2f/register", None), None)
              && store.sessions == old(store.sessions)[c := s] && store.journal == old(store.journal) + [SessionPut(s)])
        && (email in old(store.users) && |old(store.users)[email].u2fDevices| > 0 ==>
              var ch := NewChallenge(AppID(), [AppID()], random);
              && (ch.None? ==>
                    && resp.Abort?
                    && store.sessions == old(store.sessions)[c := s] && store.journal == old(store.journal) + [SessionPut(s)])
              && (ch.Some? ==>
                && store.sessions == old(store.sessions)[c := s.(u2fChallenge := ch)]
                && store.journal == old(store.journal) + [SessionPut(s), SessionPut(s.(u2fChallenge := ch))]
                && resp == SignPage(SignRequest(ch.value, RegistrationsOf(old(store.users)[email].u2fDevices)))))
    {
      var done, session := AcceptCallback(r);
      if done.Some? {
        return done.value;
      }
      var fetched := store.GetUser(session.userID);
      if fetched.Err? {
        return Reply(StatusOK, UnformattedError("cannot fetch user:", fetched.error));
      }
      var user := fetched.value;
      if |user.u2fDevices| == 0 {
        return Redirect(Location("/u2f/register", None), None);
      }
      resp := SendU2FChallenge(session, user, random);
    }

    /** `handleOAuth2Callback` as evidently intended: a user seen for the first time is created
        with no roles, no devices and no admin flag, and sent on to register a device. */
    method HandleOAuth2CallbackCreating(r: Request, random: Option<seq<Byte>>) returns (resp: Response)
      requires Valid()
      modifies this, store
      ensures Valid()
      ensures CallbackPrefix(r, resp)
      ensures StateAccepted(old(store.sessions), r) && IdentityOf(idp, QueryGet(r.query, "code")).Email? && !store.sessionWritesFail ==>
        var c := r.cookie.value;
        var email := IdentityOf(idp, QueryGet(r.query, "code")).email;
        var s := old(store.sessions)[c].(oauth2State := "", userID := email);
        var newcomer := User(email, [], [], false);
        email !in old(store.users) ==>
          && store.sessions == old(store.sessions)[c := s]
          && (store.userWritesFail ==>
                && resp == Reply(StatusOK, UnformattedError("cannot create user:", IOError))
                && store.users == old(store.users) && store.journal == old(store.journal) + [SessionPut(s)])
          && (!store.userWritesFail ==>
                && resp == Redirect(Location("/u2f/register", None), None)
                && store.users == old(store.users)[email := newcomer]
                && store.journal == old(store.journal) + [SessionPut(s), UserPut(newcomer)])
      ensures StateAccepted(old(store.sessions), r) && IdentityOf(idp, QueryGet(r.query, "code")).Email? ==>
        var email := IdentityOf(idp, QueryGet(r.query, "code")).email;
        email in old(store.users) ==> store.users == old(store.users)
    {
      var done, session := AcceptCallback(r);
      if done.Some? {
        return done.value;
      }
      var fetched := store.GetUser(session.userID);
      var user: User;
      if fetched.Err? {
        user := User(session.userID, [], [], false);
        var err := store.PutUser(user);
        if err.Some? {
          return Reply(StatusOK, UnformattedError("cannot create user:", err.value));
        }
      } else {
        user := fetched.value;
      }
      if |user.u2fDevices| == 0 {
        return Redirect(Location("/u2f/register", None), None);
      }
      resp := SendU2FChallenge(session, user, random);
    }

    /** u2f_sign.go `handleU2FSigned` (routed at `/u2f/sign`). */
    method HandleU2FSigned(r: Request) returns (resp: Response)
      requires Valid()
      modifies store
      ensures Valid()
      ensures var parsed := u2f.parseSignResponse(QueryGet(r.query, "resp"));
        if parsed.None? then resp.Abort? && unchanged(store)
        else match LookUp(old(store.sessions), old(store.users), r.cookie)
        case NoCookie => resp == Reply(StatusOK, "bad session cookie\n") && unchanged(store)
        case NoSession => resp == Reply(StatusOK, "bad session\n") && unchanged(store)
        case NoUser(s) =>
          resp == (if s.u2fChallenge.None? then Reply(StatusBadRequest, "challenge missing\n") else Reply(StatusOK, "bad session\n"))
          && unchanged(store)
        case Found(s, user) =>
          if s.u2fChallenge.None? then resp == Reply(StatusBadRequest, "challenge missing\n") && unchanged(store)
          else
          var done := Redirect(Location("/", Some(s.params)), None);
          match FirstVerifying(user.u2fDevices, u2f, parsed.value, s.u2fChallenge.value)
          case None => unchanged(store) && resp == (if s.u2f then done else Reply(StatusOK, "u2f sign failed\n"))
          case Some(hit) =>
            var u := user.(u2fDevices := WithCounter(user.u2fDevices, hit.index, hit.counter));
            var s' := s.(u2fChallenge := None, u2f := true);
            if store.userWritesFail then resp.Abort? && unchanged(store)
            else if store.sessionWritesFail then
              && resp.Abort? && store.users == old(store.users)[user.id := u] && store.sessions == old(store.sessions)
              && store.journal == old(store.journal) + [UserPut(u)]
            else
              && resp == done
              && store.users == old(store.users)[user.id := u] && store.sessions == old(store.sessions)[s.id := s']
              && store.journal == old(store.journal) + [UserPut(u), SessionPut(s')]
    {
      var parsed := u2f.parseSignResponse(QueryGet(r.query, "resp"));
      if parsed.None? {
        return Abort("cannot parse sign response");
      }
      if r.cookie.None? {
        return Reply(StatusOK, "bad session cookie\n");
      }
      var got := store.GetSession(r.cookie.value);
      if got.Err? {
        return Reply(StatusOK, "bad session\n");
      }
      var session := got.value;
      if session.u2fChallenge.None? {
        return Reply(StatusBadRequest, "challenge missing\n");
      }
      var fetched := store.GetUser(session.userID);
      if fetched.Err? {
        return Reply(StatusOK, "bad session\n");
      }
      var user := fetched.value;
      var hit := ScanDevices(user.u2fDevices, u2f, parsed.value, session.u2fChallenge.value);
      if hit.Some? {
        user := user.(u2fDevices := WithCounter(user.u2fDevices, hit.value.index, hit.value.counter));
        var err := store.PutUser(user);
        if err.Some? {
          return Abort(ErrorText(err.value));
        }
        session := session.(u2fChallenge := None, u2f := true);
        err := store.PutSession(session);
        if err.Some? {
          return Abort(ErrorText(err.value));
        }
      }
      if !session.u2f {
        return Reply(StatusOK, "u2f sign failed\n");
      }
      resp := Redirect(Location("/", Some(session.params)), None);
    }

    /** What `handleU2FRegisterSigned` does: verify the browser's registration against the
        session's challenge, append the device with counter 0, store the user, then the session
        with its challenge cleared. A session without a challenge makes it dereference nil. */
    twostate predicate RegisterSignedDone(r: Request, resp: Response)
      reads this, store
    {
      var parsed := u2f.parseRegisterResponse(QueryGet(r.query, "resp"));
      if parsed.None? then resp.Abort? && unchanged(store)
      else match LookUp(old(store.sessions), old(store.users), r.cookie)
      case NoCookie => resp == Reply(StatusOK, "bad session cookie\n") && unchanged(store)
      case NoSession => resp == Reply(StatusOK, "bad session\n") && unchanged(store)
      case NoUser(_) => resp == Reply(StatusOK, "bad user\n") && unchanged(store)
      case Found(s, user) =>
        if s.u2fChallenge.None? then resp.Abort? && unchanged(store)
        else match u2f.register(parsed.value, s.u2fChallenge.value)
        case None => resp == Reply(StatusInternalServerError, "error verifying response\n") && unchanged(store)
        case Some(reg) =>
          var u := user.(u2fDevices := WithRegistered(user.u2fDevices, reg));
          var s' := s.(u2fChallenge := None);
          if store.userWritesFail then resp.Abort? && unchanged(store)
          else if store.sessionWritesFail then
            && resp.Abort? && store.users == old(store.users)[user.id := u] && store.sessions == old(store.sessions)
            && store.journal == old(store.journal) + [UserPut(u)]
          else
            && resp == Reply(StatusOK, "OK\n")
            && store.users == old(store.users)[user.id := u] && store.sessions == old(store.sessions)[s.id := s']
            && store.journal == old(store.journal) + [UserPut(u), SessionPut(s')]
    }

    /** u2f_register.go `handleU2FRegisterSigned`. */
    method HandleU2FRegisterSigned(r: Request) returns (resp: Response)
      requires Valid()
      modifies store
      ensures Valid()
      ensures RegisterSignedDone(r, resp)
    {
      var parsed := u2f.parseRegisterResponse(QueryGet(r.query, "resp"));
      if parsed.None? {
        return Abort("cannot parse register response");
      }
      if r.cookie.None? {
        return Reply(StatusOK, "bad session cookie\n");
      }
      var got := store.GetSession(r.cookie.value);
      if got.Err? {
        return Reply(StatusOK, "bad session\n");
      }
      var session := got.value;
      var fetched := store.GetUser(session.userID);
      if fetched.Err? {
        return Reply(StatusOK, "bad user\n");
      }
      var user := fetched.value;
      if session.u2fChallenge.None? {
        return Abort("nil pointer dereference");
      }
      var reg := u2f.register(parsed.value, session.u2fChallenge.value);
      if reg.None? {
        return Reply(StatusInternalServerError, "error verifying response\n");
      }
      user := user.(u2fDevices := WithRegistered(user.u2fDevices, reg.value));
      var err := store.PutUser(user);
      if err.Some? {
        return Abort(ErrorText(err.value));
      }
      session := session.(u2fChallenge := None);
      err := store.PutSession(session);
      if err.Some? {
        return Abort(ErrorText(err.value));
      }
      resp := Reply(StatusOK, "OK\n");
    }

    /** u2f_register.go `handleU2FRegister` as written: the challenge is set on the session in
        memory only and never stored. */
    method HandleU2FRegister(r: Request, random: Option<seq<Byte>>) returns (resp: Response)
      requires Valid()
      modifies store
      ensures Valid()
      ensures QueryGet(r.query, "resp") != "" ==> RegisterSignedDone(r, resp)
      ensures QueryGet(r.query, "resp") == "" ==> unchanged(store)
      ensures QueryGet(r.query, "resp") == "" ==>
        match LookUp(old(store.sessions), old(store.users), r.cookie)
        case NoCookie => resp == Reply(StatusOK, "bad session cookie\n")
        case NoSession => resp == Reply(StatusOK, "bad session\n")
        case NoUser(_) => resp == Reply(StatusOK, "bad user\n")
        case Found(s, user) =>
          var c := NewChallenge(AppID(), [AppID()], random);
          if |user.u2fDevices| > 0 && !s.u2f then resp == Reply(StatusOK, "need u2f\n")
          else if c.None? then resp == Reply(StatusInternalServerError, "error\n")
          else resp == RegisterPage(RegisterRequest(c.value, RegistrationsOf(user.u2fDevices)))
    {
      if QueryGet(r.query, "resp") != "" {
        resp := HandleU2FRegisterSigned(r);
        return;
      }
      if r.cookie.None? {
        return Reply(StatusOK, "bad session cookie\n");
      }
      var got := store.GetSession(r.cookie.value);
      if got.Err? {
        return Reply(StatusOK, "bad session\n");
      }
      var session := got.value;
      var fetched := store.GetUser(session.userID);
      if fetched.Err? {
        return Reply(StatusOK, "bad user\n");
      }
      var user := fetched.value;
      if |user.u2fDevices| > 0 && !session.u2f {
        return Reply(StatusOK, "need u2f\n");
      }
      var c := NewChallenge(AppID(), [AppID()], random);
      if c.None? {
        return Reply(StatusInternalServerError, "error\n");
      }
      session := session.(u2fChallenge := c);
      resp := RegisterPage(RegisterRequest(c.value, RegistrationsOf(user.u2fDevices)));
    }

    /** `handleU2FRegister` as evidently intended: the challenge is stored on the session before
        the registration page is produced, so the browser's answer can be checked against it. */
    method HandleU2FRegisterSaving(r: Request, random: Option<seq<Byte>>) returns (resp: Response)
      requires Valid()
      modifies store
      ensures Valid()
      ensures QueryGet(r.query, "resp") != "" ==> RegisterSignedDone(r, resp)
      ensures QueryGet(r.query, "resp") == "" ==> store.users == old(store.users)
      ensures QueryGet(r.query, "resp") == "" ==>
        match LookUp(old(store.sessions), old(store.users), r.cookie)
        case NoCookie => resp == Reply(StatusOK, "bad session cookie\n") && unchanged(store)
        case NoSession => resp == Reply(StatusOK, "bad session\n") && unchanged(store)
        case NoUser(_) => resp == Reply(StatusOK, "bad user\n") && unchanged(store)
        case Found(s, user) =>
          var c := NewChallenge(AppID(), [AppID()], random);
          if |user.u2fDevices| > 0 && !s.u2f then resp == Reply(StatusOK, "need u2f\n") && unchanged(store)
          else if c.None? then resp == Reply(StatusInternalServerError, "error\n") && unchanged(store)
          else if store.sessionWritesFail then resp.Abort? && unchanged(store)
          else
            && store.sessions == old(store.sessions)[s.id := s.(u2fChallenge := c)]
            && store.journal == old(store.journal) + [SessionPut(s.(u2fChallenge := c))]
            && resp == RegisterPage(RegisterRequest(c.value, RegistrationsOf(user.u2fDevices)))
    {
      if QueryGet(r.query, "resp") != "" {
        resp := HandleU2FRegisterSigned(r);
        return;
      }
      if r.cookie.None? {
        return Reply(StatusOK, "bad session cookie\n");
      }
      var got := store.GetSession(r.cookie.value);
      if got.Err? {
        return Reply(StatusOK, "bad session\n");
      }
      var session := got.value;
      var fetched := store.GetUser(session.userID);
      if fetched.Err? {
        return Reply(StatusOK, "bad user\n");
      }
      var user := fetched.value;
      if |user.u2fDevices| > 0 && !session.u2f {
        return Reply(StatusOK, "need u2f\n");
      }
      var c := NewChallenge(AppID(), [AppID()], random);
      if c.None? {
        return Reply(StatusInternalServerError, "error\n");
      }
      session := session.(u2fChallenge := c);
      var err := store.PutSession(session);
      if err.Some? {
        return Abort(ErrorText(err.value));
      }
      resp := RegisterPage(RegisterRequest(c.value, RegistrationsOf(user.u2fDevices)));
    }

    /** server.go `handleGetToken`. */
    method HandleGetToken(r: Request, idBytes: Option<Nonce>, stateBytes: Option<Nonce>) returns (resp: Response)
      requires Valid()
      modifies this, store
      ensures Valid() && store.users == old(store.users)
      // the authentication gate: anything short of it starts over, deleting the stale session
      ensures !Authenticated(old(store.sessions), old(store.users), r.cookie) ==>
        var stale := r.cookie.Some? && r.cookie.value in old(store.sessions) && !store.sessionWritesFail;
        && calls == old(calls)
        && Started(r, idBytes, stateBytes, resp,
                   if stale then old(store.sessions) - {r.cookie.value} else old(store.sessions),
                   if stale then old(store.journal) + [SessionDeleted(r.cookie.value)] else old(store.journal))
      // past the gate nothing is written
      ensures Authenticated(old(store.sessions), old(store.users), r.cookie) ==> unchanged(store)
      ensures Authenticated(old(store.sessions), old(store.users), r.cookie) && QueryGet(r.query, "format") == "admin" ==>
        var user := LookUp(old(store.sessions), old(store.users), r.cookie).user;
        && calls == old(calls)
        && resp == (if user.admin then Redirect(Location("/admin", None), None) else Reply(StatusForbidden, "Forbidden\n"))
      ensures Authenticated(old(store.sessions), old(store.users), r.cookie) && QueryGet(r.query, "format") != "admin" ==>
        var user := LookUp(old(store.sessions), old(store.users), r.cookie).user;
        var role := DesiredRole(r.query, user.roles);
        var input := AssumeRoleInput(config.credentialLifetimeSeconds, role, RoleSessionName(user.id));
        var format := QueryGet(r.query, "format");
        if role !in user.roles then calls == old(calls) && resp == Reply(StatusForbidden, RoleNotAllowed(role))
        else
          && calls == old(calls) + [AssumeRole(input)]
          && match sts(input)
            case None => resp == Reply(StatusForbidden, "sts.AssumeRole failed\n")
            case Some(cred) =>
              if format == "cli" then
                match Decimal.Atoi(QueryGet(r.query, "port"))
                case None => resp == Reply(StatusBadRequest, "cannot parse port\n")
                case Some(port) => resp == Redirect(LoopbackLocation(port, CredentialQuery(role, cred, formatRFC3339)), None)
              else if format == "sh" then resp == Reply(StatusOK, ShellExports(cred))
              else resp == Reply(StatusOK, "")
    {
      if r.cookie.None? {
        resp := NewSession(r, idBytes, stateBytes);
        return;
      }
      var got := store.GetSession(r.cookie.value);
      if got.Err? {
        resp := NewSession(r, idBytes, stateBytes);
        return;
      }
      var session := got.value;
      if session.userID == "" || !session.u2f {
        var _ := store.DeleteSession(session.id);
        resp := NewSession(r, idBytes, stateBytes);
        return;
      }
      var fetched := store.GetUser(session.userID);
      if fetched.Err? {
        var _ := store.DeleteSession(session.id);
        resp := NewSession(r, idBytes, stateBytes);
        return;
      }
      var user := fetched.value;
      var format := QueryGet(r.query, "format");
      if format == "admin" {
        if !user.admin {
          return Reply(StatusForbidden, "Forbidden\n");
        }
        return Redirect(Location("/admin", None), None);
      }
      var desiredRole := QueryGet(r.query, "role");
      if desiredRole == "" && |user.roles| == 1 {
        desiredRole := user.roles[0];
      }
      var roleIsOK := RoleAllowed(user.roles, desiredRole);
      if !roleIsOK {
        return Reply(StatusForbidden, RoleNotAllowed(desiredRole));
      }
      var input := AssumeRoleInput(config.credentialLifetimeSeconds, desiredRole, RoleSessionName(user.id));
      calls := calls + [AssumeRole(input)];
      var issued := sts(input);
      if issued.None? {
        return Reply(StatusForbidden, "sts.AssumeRole failed\n");
      }
      var cred := issued.value;
      if format == "cli" {
        var query := CredentialQuery(desiredRole, cred, formatRFC3339);
        var port := Decimal.Atoi(QueryGet(r.query, "port"));
        if port.None? {
          return Reply(StatusBadRequest, "cannot parse port\n");
        }
        return Redirect(LoopbackLocation(port.value, query), None);
      }
      if format == "sh" {
        return Reply(StatusOK, ShellExports(cred));
      }
      resp := Reply(StatusOK, "");
    }

    /** admin.go `isAuthorizedAdmin`. */
    method IsAuthorizedAdmin(r: Request) returns (ok: bool)
      requires Valid()
      ensures ok == AdminAuthorized(store.sessions, store.users, r.cookie)
      ensures ok ==> r.cookie.Some? && r.cookie.value in store.sessions
    {
      if r.cookie.None? {
        return false;
      }
      var got := store.GetSession(r.cookie.value);
      if got.Err? {
        return false;
      }
      var fetched := store.GetUser(got.value.userID);
      if fetched.Err? {
        return false;
      }
      return fetched.value.admin;
    }

    /** admin.go `handleAdminOp`: one edit of one user, stored, then `serveAdminRoot`, which
        checks the gate again against the updated store, lists the users (`dir` is what
        `os.ReadDir` reports) and the IAM roles (`iamRoles`: the role ARNs, or the error text of
        `ListRolesPages`), and answers 500 when either listing fails. */
    method HandleAdminOp(r: Request, dir: DirListing, iamRoles: Result<seq<string>, string>) returns (resp: Response)
      requires Valid()
      modifies store
      ensures Valid() && store.sessions == old(store.sessions)
      ensures !AdminAuthorized(old(store.sessions), old(store.users), r.cookie) ==> resp == AdminRedirect && unchanged(store)
      ensures AdminAuthorized(old(store.sessions), old(store.users), r.cookie) && FormValue(r, "user") !in old(store.users) ==>
        resp == Reply(StatusBadRequest, "not found\n") && unchanged(store)
      ensures AdminAuthorized(old(store.sessions), old(store.users), r.cookie) && FormValue(r, "user") in old(store.users) ==>
        var target := FormValue(r, "user");
        var op := FormValue(r, "op");
        match AdminEdit(old(store.users)[target], op, FormValue(r, "role"))
        case None => resp == Reply(StatusBadRequest, "unknown operation\n") && unchanged(store)
        case Some(edited) =>
          if store.userWritesFail then resp == Reply(StatusInternalServerError, "input/output error\n") && unchanged(store)
          else
            && store.users == old(store.users)[target := edited]
            && store.journal == old(store.journal) + [UserPut(edited)]
            && if !AdminAuthorized(store.sessions, store.users, r.cookie) then resp == AdminRedirect
               else match DirUsers(store.users, dir)
                 case Err(e) => resp == Reply(StatusInternalServerError, ErrorText(e) + "\n")
                 case Ok(users) =>
                   match iamRoles
                   case Err(msg) => resp == Reply(StatusInternalServerError, msg + "\n")
                   case Ok(roles) => resp == AdminPage(roles, users, Flash(op, FormValue(r, "role"), target))
    {
      var authorized := IsAuthorizedAdmin(r);
      if !authorized {
        return AdminRedirect;
      }
      var fetched := store.GetUser(FormValue(r, "user"));
      if fetched.Err? {
        return Reply(StatusBadRequest, ErrorText(fetched.error) + "\n");
      }
      var user := fetched.value;
      var role := FormValue(r, "role");
      var op := FormValue(r, "op");
      var flash := Flash(op, role, user.id);
      if op == "add_role" {
        user := user.(roles := user.roles + [role]);
      } else if op == "delete_role" {
        var roles := DeleteRole(user.roles, role);
        user := user.(roles := roles);
      } else if op == "delete_admin" {
        user := user.(admin := false);
      } else if op == "add_admin" {
        user := user.(admin := true);
      } else if op == "reset_devices" {
        user := user.(u2fDevices := []);
      } else {
        return Reply(StatusBadRequest, "unknown operation\n");
      }
      var err := store.PutUser(user);
      if err.Some? {
        return Reply(StatusInternalServerError, ErrorText(err.value) + "\n");
      }
      authorized := IsAuthorizedAdmin(r);
      if !authorized {
        return AdminRedirect;
      }
      var users := store.ListUsers(dir);
      if users.Err? {
        return Reply(StatusInternalServerError, ErrorText(users.error) + "\n");
      }
      if iamRoles.Err? {
        return Reply(StatusInternalServerError, iamRoles.error + "\n");
      }
      resp := AdminPage(iamRoles.value, users.value, flash);
    }
  }
}
