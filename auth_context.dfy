/**
 * The local authentication context: a registry of users kept in browser
 * storage under "budget-buddy-users" (email to stored user), the saved
 * session under "budget-buddy-user", and the `user`/`loading` state.
 */
module AuthContext {
  import opened Wrappers
  import opened Records

  /** A registered user as stored, password in plain text as the source keeps it. */
  datatype StoredUser = StoredUser(id: string, email: string, password: string)

  /** `{ data: { user }, error: null }` or `{ data: null, error: { message } }`. */
  datatype AuthResult = AuthOk(user: User) | AuthError(message: string)

  /** The registry and the saved session as decoded from storage, and the context's state. */
  datatype AuthState = AuthState(users: map<string, StoredUser>, savedSession: Option<User>, user: Option<User>, loading: bool)

  function SessionOf(u: StoredUser): (sess: User)
    ensures sess.id == u.id && sess.email == u.email
  {
    User(u.id, u.email)
  }

  /** Lines 22-29: a saved session, if any, becomes the user; loading ends either way. */
  function LoadSpec(s: AuthState): AuthState {
    s.(user := if s.savedSession.Some? then s.savedSession else s.user, loading := false)
  }

  /** Lines 31-61, `freshId` standing for `Date.now().toString()`. */
  function SignUpSpec(s: AuthState, email: string, password: string, freshId: string): (AuthState, AuthResult) {
    if email in s.users then (s, AuthError("User already exists"))
    else
      var stored := StoredUser(freshId, email, password);
      var sess := SessionOf(stored);
      (s.(users := s.users[email := stored], user := Some(sess), savedSession := Some(sess)), AuthOk(sess))
  }

  /** Lines 63-90: an unknown email is registered on the spot; a known one must match its password. */
  function SignInSpec(s: AuthState, email: string, password: string, freshId: string): (AuthState, AuthResult) {
    if email !in s.users then SignUpSpec(s, email, password, freshId)
    else
      var existing := s.users[email];
      if existing.password != password then (s, AuthError("Invalid password"))
      else
        var sess := SessionOf(existing);
        (s.(user := Some(sess), savedSession := Some(sess)), AuthOk(sess))
  }

  /** Lines 92-95. */
  function SignOutSpec(s: AuthState): AuthState {
    s.(user := None, savedSession := None)
  }

  class AuthProvider {
    var users: map<string, StoredUser>
    var savedSession: Option<User>
    var user: Option<User>
    var loading: bool

    function State(): AuthState
      reads this
    {
      AuthState(users, savedSession, user, loading)
    }

    /** The provider over what storage holds, before its effect has run. */
    constructor (storedUsers: map<string, StoredUser>, stored: Option<User>)
      ensures State() == AuthState(storedUsers, stored, None, true)
    {
      users := storedUsers;
      savedSession := stored;
      user := None;
      loading := true;
    }

    method Load()
      modifies this
      ensures State() == LoadSpec(old(State()))
    {
      if savedSession.Some? {
        user := savedSession;
      }
      loading := false;
    }

    method SignUp(email: string, password: string, freshId: string) returns (result: AuthResult)
      modifies this
      ensures (State(), result) == SignUpSpec(old(State()), email, password, freshId)
    {
      if email in users {
        return AuthError("User already exists");
      }
      var stored := StoredUser(freshId, email, password);
      users := users[email := stored];
      var sess := SessionOf(stored);
      user := Some(sess);
      savedSession := Some(sess);
      result := AuthOk(sess);
    }

    method SignIn(email: string, password: string, freshId: string) returns (result: AuthResult)
      modifies this
      ensures (State(), result) == SignInSpec(old(State()), email, password, freshId)
    {
      if email !in users {
        result := SignUp(email, password, freshId);
        return;
      }
      var existing := users[email];
      if existing.password != password {
        return AuthError("Invalid password");
      }
      var sess := SessionOf(existing);
      user := Some(sess);
      savedSession := Some(sess);
      result := AuthOk(sess);
    }

    method SignOut()
      modifies this
      ensures State() == SignOutSpec(old(State()))
    {
      user := None;
      savedSession := None;
    }
  }

  /**
   * The registry's invariant: every user is stored under its own email; a
   * saved session is a registered user; once loaded, the in-memory user is
   * the saved session.
   */
  ghost predicate Consistent(s: AuthState) {
    (forall e :: e in s.users ==> s.users[e].email == e)
    && (s.savedSession.Some? ==>
          s.savedSession.value.email in s.users
          && s.users[s.savedSession.value.email].id == s.savedSession.value.id)
    && (!s.loading ==> s.user == s.savedSession)
  }

  /** The state right after loading satisfies the invariant when storage does and nothing was signed in before. */
  lemma LoadEstablishes(s: AuthState)
    requires forall e :: e in s.users ==> s.users[e].email == e
    requires s.savedSession.Some? ==>
      s.savedSession.value.email in s.users && s.users[s.savedSession.value.email].id == s.savedSession.value.id
    requires s.user.None?
    ensures Consistent(LoadSpec(s))
  {
  }

  lemma {:induction false} SignUpPreserves(s: AuthState, email: string, password: string, freshId: string)
    requires Consistent(s) && !s.loading
    ensures Consistent(SignUpSpec(s, email, password, freshId).0)
  {
    if email !in s.users {
      var s' := SignUpSpec(s, email, password, freshId).0;
      assert s'.users[email].email == email;
      assert forall e :: e in s'.users ==> s'.users[e].email == e;
    }
  }

  lemma SignInPreserves(s: AuthState, email: string, password: string, freshId: string)
    requires Consistent(s) && !s.loading
    ensures Consistent(SignInSpec(s, email, password, freshId).0)
  {
    if email !in s.users {
      SignUpPreserves(s, email, password, freshId);
    }
  }

  lemma SignOutPreserves(s: AuthState)
    requires Consistent(s)
    ensures Consistent(SignOutSpec(s))
  {
  }

  /** An already-registered email is refused and nothing changes. */
  lemma SignUpExisting(s: AuthState, email: string, password: string, freshId: string)
    requires email in s.users
    ensures SignUpSpec(s, email, password, freshId) == (s, AuthError("User already exists"))
  {
  }

  /** A new email is stored with its id and password, and becomes the session. */
  lemma SignUpNew(s: AuthState, email: string, password: string, freshId: string)
    requires email !in s.users
    ensures var (s', r) := SignUpSpec(s, email, password, freshId);
      r == AuthOk(User(freshId, email))
      && s'.users == s.users[email := StoredUser(freshId, email, password)]
      && s'.user == Some(User(freshId, email)) && s'.savedSession == s'.user
  {
  }

  /** Signing in with an unknown email is signing up. */
  lemma SignInUnregistered(s: AuthState, email: string, password: string, freshId: string)
    requires email !in s.users
    ensures SignInSpec(s, email, password, freshId) == SignUpSpec(s, email, password, freshId)
  {
  }

  /** A wrong password is refused and nothing changes, the session included. */
  lemma SignInWrongPassword(s: AuthState, email: string, password: string, freshId: string)
    requires email in s.users && s.users[email].password != password
    ensures SignInSpec(s, email, password, freshId) == (s, AuthError("Invalid password"))
  {
  }

  /** The right password signs in as the stored id and email, without touching the registry. */
  lemma SignInCorrect(s: AuthState, email: string, password: string, freshId: string)
    requires email in s.users && s.users[email].password == password
    ensures var (s', r) := SignInSpec(s, email, password, freshId);
      r == AuthOk(User(s.users[email].id, s.users[email].email))
      && s'.users == s.users && s'.user == Some(r.user) && s'.savedSession == s'.user
  {
  }

  /** The registry only grows and never changes a stored user. */
  lemma RegistryOnlyGrows(s: AuthState, email: string, password: string, freshId: string)
    ensures var s' := SignInSpec(s, email, password, freshId).0;
      forall e :: e in s.users ==> e in s'.users && s'.users[e] == s.users[e]
    ensures var s' := SignUpSpec(s, email, password, freshId).0;
      forall e :: e in s.users ==> e in s'.users && s'.users[e] == s.users[e]
  {
  }

  /** After signing up, signing in with the same credentials gives the same user, whatever id a new account would get. */
  lemma SignUpThenSignIn(s: AuthState, email: string, password: string, freshId: string, laterId: string)
    requires SignUpSpec(s, email, password, freshId).1.AuthOk?
    ensures var (s1, r1) := SignUpSpec(s, email, password, freshId);
      SignInSpec(s1, email, password, laterId).1 == r1
  {
  }

  /** After signing out, also after any sign-in, there is no saved session, so the next load finds no user; the registry is kept. */
  lemma SignOutThenLoad(s: AuthState, email: string, password: string, freshId: string)
    ensures LoadSpec(SignOutSpec(s)).user.None?
    ensures LoadSpec(SignOutSpec(s)).users == s.users
    ensures var t := SignInSpec(s, email, password, freshId).0;
      LoadSpec(SignOutSpec(t)).user.None? && LoadSpec(SignOutSpec(t)).users == t.users
  {
  }

  /**
   * The registry is a plain object, so `existingUsers[email]` also finds the
   * properties every object inherits. These are the names of
   * `Object.prototype`'s properties in ECMAScript 2024.
   */
  const InheritedKeys: set<string> := {
    "constructor", "hasOwnProperty", "isPrototypeOf", "propertyIsEnumerable",
    "toLocaleString", "toString", "valueOf", "__proto__",
    "__defineGetter__", "__defineSetter__", "__lookupGetter__", "__lookupSetter__"
  }

  /** What the lookup at lines 37 and 69 finds, as written. */
  datatype Lookup = Own(stored: StoredUser) | Inherited | Missing

  function LookupAsWritten(users: map<string, StoredUser>, email: string): (r: Lookup)
    ensures r.Missing? <==> email !in users && email !in InheritedKeys
    ensures r.Own? <==> email in users
  {
    if email in users then Own(users[email]) else if email in InheritedKeys then Inherited else Missing
  }

  /** `signUp` as written: any truthy lookup counts as an existing user. */
  function SignUpAsWritten(s: AuthState, email: string, password: string, freshId: string): (AuthState, AuthResult) {
    if !LookupAsWritten(s.users, email).Missing? then (s, AuthError("User already exists"))
    else SignUpSpec(s, email, password, freshId)
  }

  /** `signIn` as written: an inherited property has no `password`, so every password differs from it. */
  function SignInAsWritten(s: AuthState, email: string, password: string, freshId: string): (AuthState, AuthResult) {
    match LookupAsWritten(s.users, email)
    case Missing => SignUpAsWritten(s, email, password, freshId)
    case Inherited => (s, AuthError("Invalid password"))
    case Own(existing) =>
      if existing.password != password then (s, AuthError("Invalid password"))
      else
        var sess := SessionOf(existing);
        (s.(user := Some(sess), savedSession := Some(sess)), AuthOk(sess))
  }

  /** As written, a name such as "toString" can neither register nor sign in, whatever the password. */
  lemma InheritedNameLockedOut(s: AuthState, password: string, freshId: string)
    requires "toString" !in s.users
    ensures SignUpAsWritten(s, "toString", password, freshId).1 == AuthError("User already exists")
    ensures SignInAsWritten(s, "toString", password, freshId).1 == AuthError("Invalid password")
    ensures SignInSpec(s, "toString", password, freshId).1 == AuthOk(User(freshId, "toString"))
  {
  }

  /** For names that are not inherited properties, the code as written and the model agree. */
  lemma AsWrittenAgreesOffInherited(s: AuthState, email: string, password: string, freshId: string)
    requires email !in InheritedKeys
    ensures SignUpAsWritten(s, email, password, freshId) == SignUpSpec(s, email, password, freshId)
    ensures SignInAsWritten(s, email, password, freshId) == SignInSpec(s, email, password, freshId)
  {
  }
}
