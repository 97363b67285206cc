/**
 * The session and identity store (src/contexts/AuthContext.tsx): a fixed
 * credential table, the current user, the loading flag, the persisted
 * `user` storage slot, and the role flags derived from the user.
 */
module AuthContext {
  import opened Common

  datatype Role = SuperAdmin | Admin | Student

  /** The user the session holds: a credential entry with its password removed. */
  datatype User = User(id: string, name: string, email: string, role: Role, department: Option<string>)

  /** An entry of the mock credential table. */
  datatype Credential = Credential(
    id: string, name: string, email: string, password: string, role: Role, department: Option<string>)

  const MockUsers: seq<Credential> := [
    Credential("1", "Super Admin", "superadmin@college.edu", "password123", SuperAdmin, None),
    Credential("2", "Computer Science Admin", "csadmin@college.edu", "password123", Admin, Some("Computer Science")),
    Credential("3", "John Student", "john@college.edu", "password123", Student, Some("Computer Science"))
  ]

  const InvalidCredentials: string := "Invalid email or password"

  /** Something thrown by an awaited call: an `Error` object with a message, or any other value. */
  datatype Thrown = ErrorObject(message: string) | OtherValue

  /** How the `login` promise settles. */
  datatype Outcome = Resolved | Rejected(reason: Thrown)

  /** The observable state of the provider: `user`, `isLoading` and the storage slot. */
  datatype Session = Session(user: Option<User>, isLoading: bool, stored: Option<User>)

  // ---------------------------------------------------------------------------
  // Role flags (the values the provider exposes next to `user`)

  predicate IsAuthenticated(user: Option<User>) {
    user.Some?
  }

  predicate IsSuperAdmin(user: Option<User>) {
    user.Some? && user.value.role == SuperAdmin
  }

  predicate IsAdmin(user: Option<User>) {
    user.Some? && user.value.role == Admin
  }

  predicate IsStudent(user: Option<User>) {
    user.Some? && user.value.role == Student
  }

  function Count(b: bool): nat {
    if b then 1 else 0
  }

  /** At most one role flag holds, and exactly one holds when someone is signed in. */
  lemma RoleFlagsExclusive(user: Option<User>)
    ensures Count(IsSuperAdmin(user)) + Count(IsAdmin(user)) + Count(IsStudent(user))
            == if IsAuthenticated(user) then 1 else 0
  {
    if user.Some? {
      match user.value.role
      case SuperAdmin =>
      case Admin =>
      case Student =>
    }
  }

  // ---------------------------------------------------------------------------
  // Credential lookup: `mockUsers.find(u => u.email === email && u.password === password)`

  predicate Matches(c: Credential, email: string, password: string) {
    c.email == email && c.password == password
  }

  predicate HasMatch(email: string, password: string) {
    exists i :: 0 <= i < |MockUsers| && Matches(MockUsers[i], email, password)
  }

  /** The index of the first entry at or after `from` whose email and password both match exactly. */
  function Find(table: seq<Credential>, email: string, password: string, from: nat): (r: Option<nat>)
    requires from <= |table|
    ensures r.Some? ==> from <= r.value < |table| && Matches(table[r.value], email, password)
    ensures r.Some? ==> forall j :: from <= j < r.value ==> !Matches(table[j], email, password)
    ensures r.None? <==> forall j :: from <= j < |table| ==> !Matches(table[j], email, password)
    decreases |table| - from
  {
    if from == |table| then None
    else if Matches(table[from], email, password) then Some(from)
    else Find(table, email, password, from + 1)
  }

  function WithoutPassword(c: Credential): User {
    User(c.id, c.name, c.email, c.role, c.department)
  }

  // ---------------------------------------------------------------------------
  // The provider's transitions, as functions of the state before them

  /** The state when the provider is created: nobody signed in, still loading. */
  function Initial(stored: Option<User>): Session {
    Session(None, true, stored)
  }

  /** The start-up effect: take the stored user if there is one, then stop loading. */
  function Restored(s: Session): Session {
    Session(if s.stored.Some? then s.stored else s.user, false, s.stored)
  }

  /** `login(email, password)`: the state afterwards and how the promise settles. */
  function LoginStep(s: Session, email: string, password: string): (Session, Outcome) {
    match Find(MockUsers, email, password, 0)
    case Some(i) =>
      var u := WithoutPassword(MockUsers[i]);
      (Session(Some(u), false, Some(u)), Resolved)
    case None =>
      (s.(isLoading := false), Rejected(ErrorObject(InvalidCredentials)))
  }

  /** `logout()`: clear the user and the storage slot. */
  function LoggedOut(s: Session): Session {
    s.(user := None, stored := None)
  }

  /** The signed-in user always mirrors the storage slot. */
  predicate Mirrored(s: Session) {
    s.user == s.stored
  }

  // ---------------------------------------------------------------------------
  // The provider itself

  class AuthProvider {
    var user: Option<User>
    var isLoading: bool
    /** The `localStorage` slot named `user`, already decoded. */
    var stored: Option<User>

    function State(): Session
      reads this
    {
      Session(user, isLoading, stored)
    }

    constructor (storage: Option<User>)
      ensures State() == Initial(storage)
    {
      user := None;
      isLoading := true;
      stored := storage;
    }

    /** The effect that runs once after mounting. */
    method Restore()
      modifies this
      ensures State() == Restored(old(State()))
    {
      if stored.Some? {
        user := stored;
      }
      isLoading := false;
    }

    method Login(email: string, password: string) returns (outcome: Outcome)
      modifies this
      ensures (State(), outcome) == LoginStep(old(State()), email, password)
    {
      isLoading := true;
      var matched := Find(MockUsers, email, password, 0);
      if matched.Some? {
        var u := WithoutPassword(MockUsers[matched.value]);
        user := Some(u);
        stored := Some(u);
        outcome := Resolved;
      } else {
        outcome := Rejected(ErrorObject(InvalidCredentials));
      }
      isLoading := false;
    }

    method Logout()
      modifies this
      ensures State() == LoggedOut(old(State()))
    {
      user := None;
      stored := None;
    }
  }

  // ---------------------------------------------------------------------------
  // Properties of the transitions

  /** After start-up the provider is not loading and holds the stored user, if any. */
  lemma RestoreTakesStoredUser(stored: Option<User>)
    ensures Restored(Initial(stored)) == Session(stored, false, stored)
    ensures Mirrored(Restored(Initial(stored)))
  {
  }

  /** Running the start-up step twice gives the same state as running it once. */
  lemma RestoreIdempotent(s: Session)
    ensures Restored(Restored(s)) == Restored(s)
  {
  }

  /** `login` resolves iff some table entry matches both email and password exactly. */
  lemma LoginResolvesIff(s: Session, email: string, password: string)
    ensures LoginStep(s, email, password).1 == Resolved <==> HasMatch(email, password)
  {
  }

  /** A successful login stores the first matching entry, without its password, in the user and the slot. */
  lemma LoginSuccess(s: Session, email: string, password: string)
    requires HasMatch(email, password)
    ensures exists i :: (
              && 0 <= i < |MockUsers|
              && Matches(MockUsers[i], email, password)
              && (forall j :: 0 <= j < i ==> !Matches(MockUsers[j], email, password))
              && LoginStep(s, email, password).0
                 == Session(Some(WithoutPassword(MockUsers[i])), false, Some(WithoutPassword(MockUsers[i]))))
    ensures LoginStep(s, email, password).0.user.value.email == email
  {
    var i :| 0 <= i < |MockUsers| && Matches(MockUsers[i], email, password);
    var r := Find(MockUsers, email, password, 0);
    assert r.Some?;
  }

  /** A failed login leaves the user and the slot as they were and rejects with the fixed message. */
  lemma LoginFailure(s: Session, email: string, password: string)
    requires !HasMatch(email, password)
    ensures LoginStep(s, email, password) == (s.(isLoading := false), Rejected(ErrorObject(InvalidCredentials)))
  {
  }

  /** Whatever happens, the provider is not loading after `login`. */
  lemma LoginEndsLoading(s: Session, email: string, password: string)
    ensures !LoginStep(s, email, password).0.isLoading
  {
  }

  /** Login and logout keep the user mirrored in the storage slot. */
  lemma TransitionsKeepMirrored(s: Session, email: string, password: string)
    requires Mirrored(s)
    ensures Mirrored(LoginStep(s, email, password).0)
    ensures Mirrored(LoggedOut(s))
    ensures Mirrored(Restored(s))
  {
  }

  /** Logging out twice gives the same state as logging out once. */
  lemma LogoutIdempotent(s: Session)
    ensures LoggedOut(LoggedOut(s)) == LoggedOut(s)
  {
  }

  /** A login followed by a logout brings an empty start-up state back to where it was. */
  lemma LoginLogoutRoundTrip(email: string, password: string)
    ensures LoggedOut(LoginStep(Restored(Initial(None)), email, password).0) == Restored(Initial(None))
  {
  }

  /** Wrong password for a known student: rejected, nobody signed in. */
  lemma WrongPasswordScenario()
    ensures LoginStep(Restored(Initial(None)), "john@college.edu", "wrongpassword")
            == (Session(None, false, None), Rejected(ErrorObject(InvalidCredentials)))
  {
    assert !Matches(MockUsers[0], "john@college.edu", "wrongpassword");
    assert !Matches(MockUsers[1], "john@college.edu", "wrongpassword");
    assert !Matches(MockUsers[2], "john@college.edu", "wrongpassword");
  }

  /** The super admin's demo credentials sign in as a super admin. */
  lemma SuperAdminScenario()
    ensures LoginStep(Restored(Initial(None)), "superadmin@college.edu", "password123").1 == Resolved
    ensures IsSuperAdmin(LoginStep(Restored(Initial(None)), "superadmin@college.edu", "password123").0.user)
  {
    assert Matches(MockUsers[0], "superadmin@college.edu", "password123");
  }
}
