// The GitHub sign-in state: the initial state, reading the saved copy back, what is saved, the
// store's transitions and the start-up token check.
module Auth {
  import opened JsValues

  const IsAuthenticatedKey := "isAuthenticated"
  const AccessTokenKey := "accessToken"
  const UserKey := "user"
  const IsLoadingKey := "isLoading"
  const ErrorKey := "error"

  /** Signed out, not loading, no error. */
  const InitialState: Object := map[
    IsAuthenticatedKey := JBool(false),
    AccessTokenKey := JNull,
    UserKey := JNull,
    IsLoadingKey := JBool(false),
    ErrorKey := JNull
  ]

  /** The keys that are saved; loading and error are not. */
  const PersistentKeys: set<string> := {IsAuthenticatedKey, AccessTokenKey, UserKey}

  /** A helper fact about the constant key names, used by the proofs below; not a property of an operation. */
  lemma KeysDistinct()
    ensures IsAuthenticatedKey != AccessTokenKey && IsAuthenticatedKey != UserKey && AccessTokenKey != UserKey
    ensures IsLoadingKey !in PersistentKeys && ErrorKey !in PersistentKeys && IsLoadingKey != ErrorKey
  {
    assert IsAuthenticatedKey[0] != AccessTokenKey[0] && AccessTokenKey[0] != UserKey[0] && IsAuthenticatedKey[0] != UserKey[0];
    assert IsAuthenticatedKey[0] == IsLoadingKey[0] && IsAuthenticatedKey[2] != IsLoadingKey[2];
    assert ErrorKey[0] != IsAuthenticatedKey[0] && ErrorKey[0] != AccessTokenKey[0] && ErrorKey[0] != UserKey[0];
    assert IsLoadingKey[0] != AccessTokenKey[0] && IsLoadingKey[0] != UserKey[0] && IsLoadingKey[0] != ErrorKey[0];
  }

  /**
   * The state read back from storage: outside a browser, or when nothing is saved, the saved
   * text does not parse, or it is not an array or object, the initial state; otherwise the
   * initial state overlaid with the saved value, with loading and error reset.
   */
  function LoadAuthState(browser: bool, saved: Stored): (r: Object)
    ensures !browser || !saved.Parsed? || !IsObject(saved.value) ==> r == InitialState
    ensures InitialState.Keys <= r.Keys
    ensures r[IsLoadingKey] == JBool(false) && r[ErrorKey] == JNull
    ensures browser && saved.Parsed? && IsObject(saved.value) ==>
              forall k :: k in OwnFields(saved.value) && k != IsLoadingKey && k != ErrorKey ==>
                k in r && r[k] == OwnFields(saved.value)[k]
    ensures forall k :: k in r && k !in InitialState ==> saved.Parsed? && k in OwnFields(saved.value)
  {
    if browser && saved.Parsed? && Truthy(saved.value) && IsObject(saved.value) then
      (InitialState + OwnFields(saved.value))[IsLoadingKey := JBool(false)][ErrorKey := JNull]
    else InitialState
  }

  /** The part of a state that is saved: those of the three persistent keys that it has. */
  function Saved(state: Object): (r: Object)
    ensures r.Keys == state.Keys * PersistentKeys
    ensures forall k :: k in r ==> r[k] == state[k]
  {
    map k | k in state && k in PersistentKeys :: state[k]
  }

  /** `setLoading(loading)`: starting an operation clears the error; ending one keeps it. */
  function WithLoading(state: Object, loading: bool): (r: Object)
    ensures IsLoadingKey in r && r[IsLoadingKey] == JBool(loading)
    ensures loading ==> ErrorKey in r && r[ErrorKey] == JNull
    ensures !loading ==> (ErrorKey in r <==> ErrorKey in state) && (ErrorKey in state ==> r[ErrorKey] == state[ErrorKey])
    ensures forall k :: k in state && k != IsLoadingKey && k != ErrorKey ==> k in r && r[k] == state[k]
    ensures forall k :: k in r ==> k in state || k == IsLoadingKey || k == ErrorKey
  {
    KeysDistinct();
    if loading then state[IsLoadingKey := JBool(true)][ErrorKey := JNull]
    else state[IsLoadingKey := JBool(false)]
  }

  /** `setError(error)`: the error is recorded and loading ends. */
  function WithError(state: Object, error: Json): (r: Object)
    ensures ErrorKey in r && r[ErrorKey] == error && IsLoadingKey in r && r[IsLoadingKey] == JBool(false)
    ensures forall k :: k in state && k != IsLoadingKey && k != ErrorKey ==> k in r && r[k] == state[k]
    ensures forall k :: k in r ==> k in state || k == IsLoadingKey || k == ErrorKey
  {
    KeysDistinct();
    state[ErrorKey := error][IsLoadingKey := JBool(false)]
  }

  /** `setUser(accessToken, user)`: signed in with that token and user, not loading, no error. */
  function WithUser(state: Object, accessToken: string, user: Json): (r: Object)
    ensures InitialState.Keys <= r.Keys
    ensures r[IsAuthenticatedKey] == JBool(true) && r[AccessTokenKey] == JStr(accessToken) && r[UserKey] == user
    ensures r[IsLoadingKey] == JBool(false) && r[ErrorKey] == JNull
    ensures forall k :: k in state && k !in InitialState ==> k in r && r[k] == state[k]
    ensures forall k :: k in r ==> k in state || k in InitialState
  {
    state + map[
      IsAuthenticatedKey := JBool(true),
      AccessTokenKey := JStr(accessToken),
      UserKey := user,
      IsLoadingKey := JBool(false),
      ErrorKey := JNull
    ]
  }

  /** The test `init` makes before it checks the saved token. */
  predicate HasSavedSignIn(state: Object) {
    Truthy(Field(state, IsAuthenticatedKey)) && Truthy(Field(state, AccessTokenKey)) && Truthy(Field(state, UserKey))
  }

  /** The initial state is not signed in. */
  lemma InitialSignedOut()
    ensures !HasSavedSignIn(InitialState)
  {
    assert Field(InitialState, IsAuthenticatedKey) == JBool(false);
  }

  /**
   * Signing in and then reading the saved copy back gives the initial state with the three
   * persistent fields of the sign-in, whatever else the state held.
   */
  lemma SignInReloads(state: Object, accessToken: string, user: Json)
    ensures LoadAuthState(true, Persisted(Saved(WithUser(state, accessToken, user)))) ==
            InitialState[IsAuthenticatedKey := JBool(true)][AccessTokenKey := JStr(accessToken)][UserKey := user]
  {
    var saved := Saved(WithUser(state, accessToken, user));
    SavedSignIn(state, accessToken, user);
    assert OwnFields(JObj(saved)) == saved;
  }

  /** What a sign-in saves: exactly its three persistent fields. */
  lemma SavedSignIn(state: Object, accessToken: string, user: Json)
    ensures Saved(WithUser(state, accessToken, user)) ==
            map[IsAuthenticatedKey := JBool(true), AccessTokenKey := JStr(accessToken), UserKey := user]
  {
    KeysDistinct();
    var saved := Saved(WithUser(state, accessToken, user));
    var expected := map[IsAuthenticatedKey := JBool(true), AccessTokenKey := JStr(accessToken), UserKey := user];
    assert saved.Keys == expected.Keys;
  }

  /** A sign-in with a non-empty token and a user passes the start-up test after a reload. */
  lemma SignInPassesCheck(state: Object, accessToken: string, user: Json)
    requires accessToken != [] && Truthy(user)
    ensures HasSavedSignIn(LoadAuthState(true, Persisted(Saved(WithUser(state, accessToken, user)))))
  {
    SignInReloads(state, accessToken, user);
    KeysDistinct();
  }

  /** What the token request at start-up reports. */
  datatype TokenCheck = Accepted | Rejected | RequestFailed

  /**
   * The sign-in store: the state it holds and the saved entry, which only exists in a browser.
   */
  class AuthStore {
    const browser: bool
    var state: Object
    var stored: Stored

    constructor (browser: bool, stored: Stored)
      ensures this.browser == browser && this.stored == stored
      ensures state == LoadAuthState(browser, stored)
    {
      this.browser := browser;
      this.stored := stored;
      state := LoadAuthState(browser, stored);
    }

    method SetLoading(loading: bool)
      modifies this
      ensures state == WithLoading(old(state), loading) && stored == old(stored)
    {
      state := WithLoading(state, loading);
    }

    method SetError(error: Json)
      modifies this
      ensures state == WithError(old(state), error) && stored == old(stored)
    {
      state := WithError(state, error);
    }

    /** `setUser`: the new state, and in a browser its persistent fields saved. */
    method SetUser(accessToken: string, user: Json)
      modifies this
      ensures state == WithUser(old(state), accessToken, user)
      ensures browser ==> stored == Persisted(Saved(state))
      ensures !browser ==> stored == old(stored)
      ensures browser ==> (LoadAuthState(browser, stored) ==
                InitialState[IsAuthenticatedKey := JBool(true)][AccessTokenKey := JStr(accessToken)][UserKey := user])
    {
      state := WithUser(state, accessToken, user);
      if browser {
        stored := Persisted(Saved(state));
        SignInReloads(old(state), accessToken, user);
      }
    }

    /** `signOut`: the initial state, and in a browser the saved entry removed. */
    method SignOut()
      modifies this
      ensures state == InitialState
      ensures browser ==> stored == Absent
      ensures !browser ==> stored == old(stored)
      ensures LoadAuthState(browser, stored) == InitialState
    {
      state := InitialState;
      if browser {
        stored := Absent;
      }
    }

    /**
     * `init`: when the saved state passes the start-up test, the token check decides: accepted
     * keeps the saved state; rejected removes the saved entry and signs out; a failed request
     * signs out but keeps the entry. Otherwise nothing changes.
     */
    method Init(check: TokenCheck)
      modifies this
      ensures var loaded := LoadAuthState(browser, old(stored));
              if !HasSavedSignIn(loaded) then state == old(state) && stored == old(stored)
              else match check
                case Accepted => state == loaded && stored == old(stored)
                case Rejected => state == InitialState && stored == (if browser then Absent else old(stored))
                case RequestFailed => state == InitialState && stored == old(stored)
    {
      var current := LoadAuthState(browser, stored);
      if HasSavedSignIn(current) {
        match check
        case Accepted =>
          var next := current[IsLoadingKey := JBool(false)][ErrorKey := JNull];
          assert next == current;
          state := next;
        case Rejected =>
          if browser {
            stored := Absent;
          }
          state := InitialState;
        case RequestFailed =>
          state := InitialState;
      }
    }
  }
}
