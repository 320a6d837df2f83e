/**
 * The user store of store/userStore.ts: the logged-in user, a loading flag
 * and the last error. Key generation is an input: the key pair it produced,
 * or what it threw.
 */
module UserStore {
  import opened Wrappers
  import opened Types
  import Text

  const NameRequired: string := "Name is required"
  const FailedToCreate: string := "Failed to create user"

  datatype KeyPair = KeyPair(publicKey: string, privateKey: string)

  /** A thrown value: an `Error` with its message, or anything else. */
  datatype Thrown = ErrorObject(message: string) | OtherValue

  datatype UserState = UserState(user: Option<User>, isLoading: bool, error: Option<string>)

  /** How the promise `createUser` returns settles. */
  datatype Outcome = Resolved(user: User) | Rejected(reason: Thrown)

  /** No user, not loading, no error. */
  const Initial: UserState := UserState(None, false, None)

  /** The error text recorded for a thrown value. */
  function ErrorMessage(thrown: Thrown): (r: string)
    ensures thrown.ErrorObject? ==> r == thrown.message
    ensures thrown.OtherValue? ==> r == FailedToCreate
  {
    match thrown
    case ErrorObject(message) => message
    case OtherValue => FailedToCreate
  }

  /**
   * The user `createUser` builds: identified by its public key, named by the
   * trimmed name, holding its private key. The name it gets is not blank and
   * has nothing left to trim.
   */
  function NewUser(name: string, keys: KeyPair): (u: User)
    requires !Text.AllWhitespace(name)
    ensures u.id == u.publicKey == keys.publicKey
    ensures u.privateKey == Some(keys.privateKey) && u.avatar.None?
    ensures u.name == Text.Trim(name)
    ensures u.name != [] && Text.Trim(u.name) == u.name
  {
    Text.TrimEmptyIff(name);
    Text.TrimIdempotent(name);
    User(keys.publicKey, Text.Trim(name), keys.publicKey, Some(keys.privateKey), None)
  }

  /**
   * The state after `createUser(name)` and how its promise settles. A blank
   * name is refused with "Name is required" and nothing else changes; a
   * generated key pair makes the new user current and clears the error; a
   * failed key generation records its message, keeps the user, and is
   * passed on. Loading is never left on.
   */
  function AfterCreateUser(s: UserState, name: string, keyGen: Result<KeyPair, Thrown>): (r: (UserState, Outcome))
    ensures r.1.Rejected? <==> Text.AllWhitespace(name) || keyGen.Failure?
    ensures Text.AllWhitespace(name) ==>
      r.1 == Rejected(ErrorObject(NameRequired)) && r.0 == s.(error := Some(NameRequired))
    ensures !Text.AllWhitespace(name) ==> !r.0.isLoading
    ensures r.1.Resolved? ==> r.0.user == Some(r.1.user) && r.0.error.None? && r.1.user == NewUser(name, keyGen.value)
    ensures r.1.Rejected? ==> r.0.user == s.user && r.0.error.Some?
    ensures !Text.AllWhitespace(name) && keyGen.Failure? ==>
      r.1 == Rejected(keyGen.error) && r.0.error == Some(ErrorMessage(keyGen.error))
  {
    Text.TrimEmptyIff(name);
    if Text.Trim(name) == [] then
      (s.(error := Some(NameRequired)), Rejected(ErrorObject(NameRequired)))
    else
      var loading := s.(isLoading := true, error := None);
      match keyGen
      case Success(keys) =>
        var user := NewUser(name, keys);
        (loading.(user := Some(user), isLoading := false), Resolved(user))
      case Failure(thrown) =>
        (loading.(isLoading := false, error := Some(ErrorMessage(thrown))), Rejected(thrown))
  }

  /** A successful creation followed by `logout` leaves no user and no error, and not loading. */
  lemma CreateThenLogout(s: UserState, name: string, keys: KeyPair)
    requires !Text.AllWhitespace(name)
    ensures AfterCreateUser(s, name, Success(keys)).0.(user := None) == Initial
  {
  }

  /** The user store. */
  class Store {
    var user: Option<User>
    var isLoading: bool
    var error: Option<string>

    function State(): UserState
      reads this
    {
      UserState(user, isLoading, error)
    }

    constructor ()
      ensures State() == Initial
    {
      user := None;
      isLoading := false;
      error := None;
    }

    /** `createUser(name)`, its successive updates in order. */
    method CreateUser(name: string, keyGen: Result<KeyPair, Thrown>) returns (outcome: Outcome)
      modifies this
      ensures (State(), outcome) == AfterCreateUser(old(State()), name, keyGen)
    {
      ghost var before := State();
      Text.TrimEmptyIff(name);
      if Text.Trim(name) == [] {
        error := Some(NameRequired);
        return Rejected(ErrorObject(NameRequired));
      }
      isLoading, error := true, None;
      match keyGen {
        case Success(keys) =>
          var newUser := NewUser(name, keys);
          user, isLoading := Some(newUser), false;
          assert State() == before.(user := Some(newUser), isLoading := false, error := None);
          return Resolved(newUser);
        case Failure(thrown) =>
          isLoading, error := false, Some(ErrorMessage(thrown));
          assert State() == before.(isLoading := false, error := Some(ErrorMessage(thrown)));
          return Rejected(thrown);
      }
    }

    /** `setUser(user)`: the user becomes current and the error is cleared; loading is kept. */
    method SetUser(newUser: User)
      modifies this
      ensures user == Some(newUser) && error.None? && isLoading == old(isLoading)
    {
      user, error := Some(newUser), None;
    }

    /** `logout()`: no user; loading and error are kept. */
    method Logout()
      modifies this
      ensures user.None? && isLoading == old(isLoading) && error == old(error)
    {
      user := None;
    }
  }
}
