/** The authentication store of src/contexts/AuthContext.tsx: the reducer
    over `{user, isAuthenticated, loading}` and the provider's session
    operations, which keep the signed-in user under one key of a browser
    key-value store. */
module AuthStore {
  import opened Seqs
  import opened Types

  datatype AuthState = AuthState(user: Option<User>, isAuthenticated: bool, loading: bool)

  /** The actions the reducer handles, and any other action type. */
  datatype AuthAction =
    | LoginStart
    | LoginSuccess(user: User)
    | LoginFailure
    | Logout
    | UpdateUser(user: User)
    | LoadUser(loaded: Option<User>)
    | Unrecognized(actionType: string)

  /** authReducer. */
  function AuthReduce(state: AuthState, action: AuthAction): (r: AuthState)
    ensures action.LoginSuccess? || action.LoginFailure? || action.Logout? || action.LoadUser? ==>
      !r.loading && (r.isAuthenticated <==> r.user.Some?)
    ensures action.LoginStart? || action.UpdateUser? || action.Unrecognized? ==>
      r.isAuthenticated == state.isAuthenticated
  {
    match action
    case LoginStart => state.(loading := true)
    case LoginSuccess(user) => AuthState(Some(user), true, false)
    case LoginFailure => AuthState(None, false, false)
    case Logout => AuthState(None, false, false)
    case UpdateUser(user) => state.(user := Some(user))
    case LoadUser(loaded) => AuthState(loaded, loaded.Some?, false)
    case Unrecognized(_) => state
  }

  /** What each action does to the three fields. */
  lemma AuthReduceActions(state: AuthState, user: User, loaded: Option<User>)
    ensures AuthReduce(state, LoginStart) == state.(loading := true)
    ensures AuthReduce(state, LoginSuccess(user)) == AuthState(Some(user), true, false)
    ensures AuthReduce(state, LoginFailure) == AuthReduce(state, Logout) == AuthState(None, false, false)
    ensures AuthReduce(state, UpdateUser(user)) == state.(user := Some(user))
    ensures var r := AuthReduce(state, LoadUser(loaded));
      r.user == loaded && (r.isAuthenticated <==> loaded != None) && !r.loading
  {
  }

  /** Signed in only with a user. */
  predicate AuthConsistent(state: AuthState)
  {
    state.isAuthenticated ==> state.user.Some?
  }

  /** Every action keeps `isAuthenticated ==> user != null`. */
  lemma AuthReducePreservesConsistency(state: AuthState, action: AuthAction)
    requires AuthConsistent(state)
    ensures AuthConsistent(AuthReduce(state, action))
  {
  }

  /** The session key the provider writes. */
  const UserKey := "uspAdmin_user"

  /** What JSON.parse makes of a stored string, as far as the provider is
      concerned: a user object, the literal `null`, or something that does
      not parse (an empty string included). */
  datatype StoredValue = UserJson(user: User) | NullJson | Unparsable

  /** The user the mount effect loads: the stored user, or none when the key
      is absent, empty, `null` or unparsable. */
  function SavedUser(storage: map<string, StoredValue>): (r: Option<User>)
    ensures r.Some? <==> UserKey in storage && storage[UserKey].UserJson?
    ensures r.Some? ==> storage[UserKey] == UserJson(r.value)
  {
    if UserKey in storage && storage[UserKey].UserJson? then Some(storage[UserKey].user) else None
  }

  /** `sampleUsers.find(u => u.username === username && u.active)`. */
  function FindActiveUser(users: seq<User>, username: string): (r: Option<User>)
    ensures r.None? <==> forall i :: 0 <= i < |users| ==> !(users[i].username == username && users[i].active)
    ensures r.Some? ==> r.value in users && r.value.username == username && r.value.active
  {
    Find((u: User) => u.username == username && u.active, users)
  }

  /** The demo users table the provider looks names up in. */
  const SampleUsers: seq<User> := [
    User("1", "admin", "admin@uspcontractor.com", SuperAdmin, true, "2024-01-01T00:00:00Z",
         Some("2024-12-15T08:30:00Z"), "John Administrator"),
    User("2", "field_manager", "field@uspcontractor.com", Admin, true, "2024-01-02T00:00:00Z",
         Some("2024-12-15T07:15:00Z"), "Sarah Field Manager"),
    User("3", "viewer", "viewer@uspcontractor.com", Viewer, true, "2024-01-03T00:00:00Z",
         Some("2024-12-14T16:45:00Z"), "Mike Observer")
  ]

  /** The demo names admin and viewer sign in as their own records. */
  lemma SampleLogins()
    ensures FindActiveUser(SampleUsers, "admin") == Some(SampleUsers[0])
    ensures FindActiveUser(SampleUsers, "viewer") == Some(SampleUsers[2])
  {
    assert SampleUsers[0].username == "admin" && SampleUsers[0].active;
    assert SampleUsers[2].username == "viewer" && SampleUsers[2].active;
    assert SampleUsers[0].username != "viewer" && SampleUsers[1].username != "viewer";
  }

  /** A name outside the three demo users does not sign in. */
  lemma UnknownLoginsFail(username: string)
    requires username != "admin" && username != "field_manager" && username != "viewer"
    ensures FindActiveUser(SampleUsers, username) == None
  {
    assert SampleUsers[0].username == "admin";
    assert SampleUsers[1].username == "field_manager";
    assert SampleUsers[2].username == "viewer";
  }

  /** AuthProvider: the reducer state and the browser store it writes. */
  class AuthProvider {
    var state: AuthState
    var storage: map<string, StoredValue>

    predicate Valid()
      reads this
    {
      AuthConsistent(state)
    }

    /** The provider before its mount effect: no user, loading. */
    constructor(browserStorage: map<string, StoredValue>)
      ensures state == AuthState(None, false, true) && storage == browserStorage
      ensures Valid()
    {
      state := AuthState(None, false, true);
      storage := browserStorage;
    }

    /** The mount effect: load whatever user the store holds, or none. */
    method LoadSavedUser()
      modifies this
      requires Valid()
      ensures Valid()
      ensures storage == old(storage)
      ensures state == AuthState(SavedUser(storage), SavedUser(storage).Some?, false)
    {
      if UserKey in storage {
        match storage[UserKey]
        case UserJson(user) => state := AuthReduce(state, LoadUser(Some(user)));
        case NullJson => state := AuthReduce(state, LoadUser(None));
        case Unparsable => state := AuthReduce(state, LoadUser(None));
      } else {
        state := AuthReduce(state, LoadUser(None));
      }
    }

    /** login: succeeds exactly when an active user has that username; the
        password takes no part. On success the user, with `lastLogin` set to
        `now`, is stored and signed in; on failure the store is untouched and
        nobody is signed in. */
    method Login(username: string, password: string, users: seq<User>, now: string) returns (ok: bool)
      modifies this
      requires Valid()
      ensures Valid()
      ensures ok <==> FindActiveUser(users, username).Some?
      ensures ok ==> var updated := FindActiveUser(users, username).value.(lastLogin := Some(now));
        && storage == old(storage)[UserKey := UserJson(updated)]
        && state == AuthState(Some(updated), true, false)
        && SavedUser(storage) == state.user
      ensures !ok ==> storage == old(storage) && state == AuthState(None, false, false)
    {
      state := AuthReduce(state, LoginStart);
      var user := FindActiveUser(users, username);
      if user.Some? {
        var updatedUser := user.value.(lastLogin := Some(now));
        storage := storage[UserKey := UserJson(updatedUser)];
        state := AuthReduce(state, LoginSuccess(updatedUser));
        ok := true;
      } else {
        state := AuthReduce(state, LoginFailure);
        ok := false;
      }
    }

    /** logout: drops the stored user and signs out. */
    method Logout()
      modifies this
      requires Valid()
      ensures Valid()
      ensures storage == old(storage) - {UserKey}
      ensures state == AuthState(None, false, false)
      ensures SavedUser(storage) == state.user
    {
      storage := storage - {UserKey};
      state := AuthReduce(state, AuthAction.Logout);
    }

    /** updateUser: stores and installs the new user record, leaving the
        sign-in flags as they were. */
    method UpdateUser(user: User)
      modifies this
      requires Valid()
      ensures Valid()
      ensures storage == old(storage)[UserKey := UserJson(user)]
      ensures state == old(state).(user := Some(user))
      ensures SavedUser(storage) == state.user
    {
      storage := storage[UserKey := UserJson(user)];
      state := AuthReduce(state, AuthAction.UpdateUser(user));
    }
  }
}
