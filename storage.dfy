/** `LocalStore`: sessions and users kept as one file per record, `sessions/<id>.json` and
    `users/<id>.json`. The model keeps the two directories as two tables keyed by ID (file
    names are opaque keys) and, beside them, the journal of the writes that succeeded, so
    that callers can state the order of their writes and that an error path wrote nothing. */
module Storage {
  import opened Wrappers
  import opened Records
  import opened Strings

  /** `ErrNotFound`, or an I/O error of the file system. */
  datatype StoreError = NotFound | IOError

  /** The text of `err.Error()`. */
  function ErrorText(e: StoreError): string
  {
    match e
    case NotFound => "not found"
    case IOError => "input/output error"
  }

  datatype Write = SessionPut(session: Session) | SessionDeleted(sessionID: string)
                 | UserPut(user: User) | UserDeleted(userID: string)

  /** What `os.ReadDir` reports for the users directory. */
  datatype DirListing = Missing | Unreadable | Entries(names: seq<string>)

  /** The users named by the `.json` entries of a listing, in listing order, or the first
      lookup error. */
  function ListedUsers(users: map<string, User>, names: seq<string>): (r: Result<seq<User>, StoreError>)
    ensures r.Err? ==> r.error == NotFound
  {
    if |names| == 0 then Ok([])
    else
      var name := names[|names| - 1];
      match ListedUsers(users, names[..|names| - 1])
      case Err(e) => Err(e)
      case Ok(us) =>
        if !HasSuffix(name, ".json") then Ok(us)
        else
          var id := TrimSuffix(name, ".json");
          if id in users then Ok(us + [users[id]]) else Err(NotFound)
  }

  /** The `.json` entries of a listing. */
  function JsonEntries(names: seq<string>): (js: seq<string>)
    ensures forall i :: 0 <= i < |js| ==> HasSuffix(js[i], ".json")
  {
    if |names| == 0 then []
    else
      var name := names[|names| - 1];
      JsonEntries(names[..|names| - 1]) + (if HasSuffix(name, ".json") then [name] else [])
  }

  /** A successful listing holds one user per `.json` entry, in order, each being the user
      stored under the entry's name without its suffix. */
  lemma {:induction false} ListedUsersMatchEntries(users: map<string, User>, names: seq<string>)
    requires ListedUsers(users, names).Ok?
    ensures var us := ListedUsers(users, names).value; var js := JsonEntries(names);
      |us| == |js| &&
      forall i :: 0 <= i < |us| ==> TrimSuffix(js[i], ".json") in users && us[i] == users[TrimSuffix(js[i], ".json")]
  {
    if |names| > 0 {
      ListedUsersMatchEntries(users, names[..|names| - 1]);
    }
  }

  /** The listing fails as a whole as soon as one `.json` entry names no stored user. */
  lemma {:induction false} ListedUsersFailOnMissing(users: map<string, User>, names: seq<string>, k: nat)
    requires k < |names| && HasSuffix(names[k], ".json") && TrimSuffix(names[k], ".json") !in users
    ensures ListedUsers(users, names) == Err(NotFound)
  {
    if k < |names| - 1 {
      assert names[..|names| - 1][k] == names[k];
      ListedUsersFailOnMissing(users, names[..|names| - 1], k);
    }
  }

  /** The `.json` entries of a listing are those of the listing's prefix, then its last name
      when that is a `.json` name. */
  lemma {:induction false} JsonEntriesMembers(names: seq<string>)
    ensures forall x :: x in JsonEntries(names) <==> x in names && HasSuffix(x, ".json")
  {
    if |names| > 0 {
      JsonEntriesMembers(names[..|names| - 1]);
      assert names == names[..|names| - 1] + [names[|names| - 1]];
    }
  }

  /** A listing without repeated names has no repeated `.json` entries. */
  lemma {:induction false} JsonEntriesDistinct(names: seq<string>)
    requires forall i, j :: 0 <= i < j < |names| ==> names[i] != names[j]
    ensures var js := JsonEntries(names); forall i, j :: 0 <= i < j < |js| ==> js[i] != js[j]
  {
    if |names| > 0 {
      var front := names[..|names| - 1];
      assert forall i :: 0 <= i < |front| ==> front[i] == names[i];
      JsonEntriesDistinct(front);
      JsonEntriesMembers(front);
      assert names[|names| - 1] !in JsonEntries(front);
    }
  }

  /** What `os.ReadDir` reports for a users directory whose files are exactly the table:
      every `.json` name is the file of a stored user, every stored user has its `<id>.json`
      file, and no name appears twice; names without the suffix are free. */
  ghost predicate ListsTable(users: map<string, User>, names: seq<string>)
  {
    && (forall i :: 0 <= i < |names| && HasSuffix(names[i], ".json") ==> TrimSuffix(names[i], ".json") in users)
    && (forall id :: id in users ==> id + ".json" in names)
    && (forall i, j :: 0 <= i < j < |names| ==> names[i] != names[j])
  }

  /** A listing whose `.json` entries all name stored users succeeds. */
  lemma {:induction false} ListedUsersOk(users: map<string, User>, names: seq<string>)
    requires forall i :: 0 <= i < |names| && HasSuffix(names[i], ".json") ==> TrimSuffix(names[i], ".json") in users
    ensures ListedUsers(users, names).Ok?
  {
    if |names| > 0 {
      var front := names[..|names| - 1];
      assert forall i :: 0 <= i < |front| ==> front[i] == names[i];
      ListedUsersOk(users, front);
    }
  }

  /** Listing a directory that holds exactly the table's files yields every stored user, and
      each of them once. */
  lemma ListingReflectsTable(users: map<string, User>, names: seq<string>)
    requires forall id :: id in users ==> users[id].id == id
    requires ListsTable(users, names)
    ensures ListedUsers(users, names).Ok?
    ensures var us := ListedUsers(users, names).value;
      && (forall u :: u in us <==> u in users.Values)
      && (forall i, j :: 0 <= i < j < |us| ==> us[i].id != us[j].id)
  {
    ListedUsersOk(users, names);
    ListedUsersMatchEntries(users, names);
    JsonEntriesMembers(names);
    JsonEntriesDistinct(names);
    var us := ListedUsers(users, names).value;
    var js := JsonEntries(names);
    forall u | u in users.Values
      ensures u in us
    {
      var id :| id in users && users[id] == u;
      TrimAppendedSuffix(id, ".json");
      assert id + ".json" in js;
      var i :| 0 <= i < |js| && js[i] == id + ".json";
      assert us[i] == u;
    }
    forall i, j | 0 <= i < j < |us|
      ensures us[i].id != us[j].id
    {
      assert us[i].id == TrimSuffix(js[i], ".json");
      assert us[j].id == TrimSuffix(js[j], ".json");
      assert js[i] == TrimSuffix(js[i], ".json") + ".json";
      assert js[j] == TrimSuffix(js[j], ".json") + ".json";
    }
  }

  /** What `ListUsers` gives for a listing of the users directory. */
  function DirUsers(users: map<string, User>, dir: DirListing): Result<seq<User>, StoreError>
  {
    match dir
    case Missing => Ok([])
    case Unreadable => Err(IOError)
    case Entries(names) => ListedUsers(users, names)
  }

  class LocalStore {
    /** The `sessions` directory refuses writes (every write there reports an I/O error). */
    const sessionWritesFail: bool
    /** The `users` directory refuses writes. */
    const userWritesFail: bool
    var sessions: map<string, Session>
    var users: map<string, User>
    /** The writes that succeeded, oldest first. */
    var journal: seq<Write>

    /** Each record is filed under its own ID. */
    ghost predicate Valid()
      reads this
    {
      && (forall id :: id in sessions ==> sessions[id].id == id)
      && (forall id :: id in users ==> users[id].id == id)
    }

    constructor (sessionWritesFail: bool, userWritesFail: bool)
      ensures Valid() && this.sessionWritesFail == sessionWritesFail && this.userWritesFail == userWritesFail
      ensures sessions == map[] && users == map[] && journal == []
    {
      this.sessionWritesFail, this.userWritesFail := sessionWritesFail, userWritesFail;
      sessions, users, journal := map[], map[], [];
    }

    /** `GetSession`: the stored session, or `ErrNotFound`. */
    method GetSession(id: string) returns (r: Result<Session, StoreError>)
      requires Valid()
      ensures id in sessions <==> r.Ok?
      ensures r.Ok? ==> r.value == sessions[id] && r.value.id == id
      ensures r.Err? ==> r.error == NotFound
    {
      if id !in sessions {
        return Err(NotFound);
      }
      return Ok(sessions[id]);
    }

    /** `PutSession`: files the session under its ID, replacing any earlier one. */
    method PutSession(s: Session) returns (err: Option<StoreError>)
      requires Valid()
      modifies this
      ensures Valid()
      ensures err == (if sessionWritesFail then Some(IOError) else None)
      ensures sessionWritesFail ==> unchanged(this)
      ensures !sessionWritesFail ==>
        && sessions == old(sessions)[s.id := s] && users == old(users)
        && journal == old(journal) + [SessionPut(s)]
    {
      if sessionWritesFail {
        return Some(IOError);
      }
      sessions := sessions[s.id := s];
      journal := journal + [SessionPut(s)];
      return None;
    }

    /** `DeleteSession`: `ErrNotFound` when there is no such session. */
    method DeleteSession(id: string) returns (err: Option<StoreError>)
      requires Valid()
      modifies this
      ensures Valid()
      ensures err == (if id !in old(sessions) then Some(NotFound) else if sessionWritesFail then Some(IOError) else None)
      ensures err.Some? ==> unchanged(this)
      ensures err.None? ==>
        && sessions == old(sessions) - {id} && users == old(users)
        && journal == old(journal) + [SessionDeleted(id)]
    {
      if id !in sessions {
        return Some(NotFound);
      }
      if sessionWritesFail {
        return Some(IOError);
      }
      sessions := sessions - {id};
      journal := journal + [SessionDeleted(id)];
      return None;
    }

    /** `GetUser`: the stored user, or `ErrNotFound` (never the `(nil, nil)` of other stores). */
    method GetUser(id: string) returns (r: Result<User, StoreError>)
      requires Valid()
      ensures id in users <==> r.Ok?
      ensures r.Ok? ==> r.value == users[id] && r.value.id == id
      ensures r.Err? ==> r.error == NotFound
    {
      if id !in users {
        return Err(NotFound);
      }
      return Ok(users[id]);
    }

    /** `PutUser`: files the user under its ID, replacing any earlier one. */
    method PutUser(u: User) returns (err: Option<StoreError>)
      requires Valid()
      modifies this
      ensures Valid()
      ensures err == (if userWritesFail then Some(IOError) else None)
      ensures userWritesFail ==> unchanged(this)
      ensures !userWritesFail ==>
        && users == old(users)[u.id := u] && sessions == old(sessions)
        && journal == old(journal) + [UserPut(u)]
    {
      if userWritesFail {
        return Some(IOError);
      }
      users := users[u.id := u];
      journal := journal + [UserPut(u)];
      return None;
    }

    /** `DeleteUser`: `ErrNotFound` when there is no such user. */
    method DeleteUser(id: string) returns (err: Option<StoreError>)
      requires Valid()
      modifies this
      ensures Valid()
      ensures err == (if id !in old(users) then Some(NotFound) else if userWritesFail then Some(IOError) else None)
      ensures err.Some? ==> unchanged(this)
      ensures err.None? ==>
        && users == old(users) - {id} && sessions == old(sessions)
        && journal == old(journal) + [UserDeleted(id)]
    {
      if id !in users {
        return Some(NotFound);
      }
      if userWritesFail {
        return Some(IOError);
      }
      users := users - {id};
      journal := journal + [UserDeleted(id)];
      return None;
    }

    /** `ListUsers` over the entries `os.ReadDir` reports: no directory means no users; an
        unreadable directory is an error; otherwise every `.json` entry is loaded in turn and
        the first failure fails the whole listing. */
    method ListUsers(dir: DirListing) returns (r: Result<seq<User>, StoreError>)
      requires Valid()
      ensures dir.Missing? ==> r == Ok([])
      ensures dir.Unreadable? ==> r == Err(IOError)
      ensures dir.Entries? ==> r == ListedUsers(users, dir.names)
      ensures r == DirUsers(users, dir)
      ensures r.Ok? && dir.Entries? ==> forall i :: 0 <= i < |r.value| ==> r.value[i] in users.Values
      ensures dir.Entries? && ListsTable(users, dir.names) ==>
        && r.Ok? && (forall u :: u in r.value <==> u in users.Values)
        && (forall i, j :: 0 <= i < j < |r.value| ==> r.value[i].id != r.value[j].id)
    {
      match dir {
        case Missing => return Ok([]);
        case Unreadable => return Err(IOError);
        case Entries(names) =>
          var listed: seq<User> := [];
          var i := 0;
          while i < |names|
            invariant 0 <= i <= |names|
            invariant ListedUsers(users, names[..i]) == Ok(listed)
            invariant forall j :: 0 <= j < |listed| ==> listed[j] in users.Values
          {
            assert names[..i + 1][..i] == names[..i];
            if HasSuffix(names[i], ".json") {
              var got := GetUser(TrimSuffix(names[i], ".json"));
              if got.Err? {
                ListedUsersFailOnMissing(users, names, i);
                return Err(got.error);
              }
              listed := listed + [got.value];
            }
            i := i + 1;
          }
          assert names[..i] == names;
          if ListsTable(users, names) {
            ListingReflectsTable(users, names);
          }
          return Ok(listed);
      }
    }
  }

  /** A put followed by a get of the same ID returns what was put; the other table is not
      touched, so a session and a user may share an ID. */
  method PutThenGet(store: LocalStore, s: Session, u: User) returns (gs: Result<Session, StoreError>, gu: Result<User, StoreError>)
    requires store.Valid() && !store.sessionWritesFail && !store.userWritesFail
    modifies store
    ensures gs == Ok(s) && gu == Ok(u)
    ensures store.sessions == old(store.sessions)[s.id := s] && store.users == old(store.users)[u.id := u]
  {
    var _ := store.PutSession(s);
    var _ := store.PutUser(u);
    gs := store.GetSession(s.id);
    gu := store.GetUser(u.id);
  }

  /** After a delete, a get reports not found and a second delete reports `ErrNotFound`. */
  method DeleteThenGet(store: LocalStore, id: string) returns (first: Option<StoreError>, got: Result<Session, StoreError>, second: Option<StoreError>)
    requires store.Valid() && !store.sessionWritesFail && id in store.sessions
    modifies store
    ensures first == None && got == Err(NotFound) && second == Some(NotFound)
  {
    first := store.DeleteSession(id);
    got := store.GetSession(id);
    second := store.DeleteSession(id);
  }

  /** A listing that holds one user and no ID twice is that user alone. */
  lemma SoleListed(us: seq<User>, u: User)
    requires forall x :: x in us <==> x in map[u.id := u].Values
    requires forall i, j :: 0 <= i < j < |us| ==> us[i].id != us[j].id
    ensures us == [u]
  {
    var m := map[u.id := u];
    assert m[u.id] == u;
    assert forall x :: x in m.Values ==> x == u;
    assert u in us;
    assert us[0] in us && us[|us| - 1] in us;
    assert us[0] == u && us[|us| - 1] == u;
  }

  /** A listing that holds no user is empty. */
  lemma NoneListed(us: seq<User>)
    ensures (forall x :: x !in us) ==> us == []
  {
    if us != [] {
      assert us[0] in us;
    }
  }

  /** The life of one user in a fresh store: not found, no users listed (there is no users
      directory yet); after the put it is found and is the only user listed; after the delete
      it is gone, nothing is listed and a second delete reports `ErrNotFound`. `afterPut` and
      `afterDelete` are whatever `os.ReadDir` reports for the directory at those points. */
  method UserLifecycle(store: LocalStore, u: User, afterPut: seq<string>, afterDelete: seq<string>)
    returns (got1: Result<User, StoreError>, listed1: Result<seq<User>, StoreError>,
             got2: Result<User, StoreError>, listed2: Result<seq<User>, StoreError>,
             got3: Result<User, StoreError>, listed3: Result<seq<User>, StoreError>,
             second: Option<StoreError>)
    requires store.Valid() && !store.userWritesFail && store.users == map[]
    requires ListsTable(map[u.id := u], afterPut) && ListsTable(map[], afterDelete)
    modifies store
    ensures got1 == Err(NotFound) && listed1 == Ok([])
    ensures got2 == Ok(u) && listed2 == Ok([u])
    ensures got3 == Err(NotFound) && listed3 == Ok([])
    ensures second == Some(NotFound)
  {
    got1 := store.GetUser(u.id);
    listed1 := store.ListUsers(Missing);
    var _ := store.PutUser(u);
    got2 := store.GetUser(u.id);
    listed2 := store.ListUsers(Entries(afterPut));
    assert store.users == map[u.id := u];
    SoleListed(listed2.value, u);
    var _ := store.DeleteUser(u.id);
    got3 := store.GetUser(u.id);
    listed3 := store.ListUsers(Entries(afterDelete));
    NoneListed(listed3.value);
    second := store.DeleteUser(u.id);
  }
}
