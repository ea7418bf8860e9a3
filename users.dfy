/** The account handlers of the server over an in-memory user table. Password
    hashing and its comparison are parameters (`hash`, `matches`) standing for
    the bcrypt library; a session token is modelled by the claims it signs. */
module Users {
  import opened Base
  import opened Text
  import opened Order
  import opened Tables

  /** A stored account. `password` holds a hash; an account created by other
      means may have none. */
  datatype User = User(
    id: string,
    email: string,
    password: Option<string>,
    name: Option<string>,
    role: Role,
    createdAt: int)

  function UserId(u: User): string { u.id }
  function Email(u: User): string { u.email }

  /** The user object `register` returns: id, email and role. */
  datatype Account = Account(id: string, email: string, role: Role)

  /** The user object of `login` and `getMe`: id, email, role and name. */
  datatype Profile = Profile(id: string, email: string, role: Role, name: Option<string>)

  /** A row of `getAllUsers`. */
  datatype Summary = Summary(id: string, name: Option<string>, email: string, role: Role, createdAt: int)

  /** The reply of `updateUserRole`. */
  datatype RoleChange = RoleChange(id: string, role: Role)

  /** A user object together with the token issued for it. */
  datatype Session<T> = Session(user: T, token: Claims)

  const RegisterFailed := "User registration failed. Email might already exist."
  const InvalidCredentials := "Invalid credentials"
  const LoginFailed := "Login failed"
  const UpdateFailed := "Update failed"
  const DeleteFailed := "Delete failed"
  const UserDeleted := "User deleted"

  /** The claims signed into a token: exactly the user's id and role. */
  function TokenFor(u: User): (c: Claims)
    ensures c.id == u.id && c.role == u.role
  {
    Claims(u.id, u.role)
  }

  function AccountOf(u: User): Account { Account(u.id, u.email, u.role) }
  function ProfileOf(u: User): Profile { Profile(u.id, u.email, u.role, u.name) }
  function SummaryOf(u: User): Summary { Summary(u.id, u.name, u.email, u.role, u.createdAt) }
  function SummaryCreatedAt(s: Summary): int { s.createdAt }

  /** The role of a new account given how many accounts exist: the first one
      is an administrator, every later one a plain user. */
  function NewAccountRole(count: nat): (r: Role)
    ensures r in {ADMIN, USER}
  {
    if count == 0 then ADMIN else USER
  }

  lemma NewAccountRoleMeaning(count: nat)
    ensures NewAccountRole(count) == ADMIN <==> count == 0
    ensures NewAccountRole(count) == USER <==> count > 0
  {
  }

  /** The row `register` stores. */
  function NewUser(id: string, email: string, password: string, name: Option<string>, count: nat,
                   hash: string -> string, now: int): (u: User)
    ensures u.id == id && u.email == email && u.name == name && u.createdAt == now
    ensures u.password == Some(hash(password))
    ensures u.role == ADMIN <==> count == 0
  {
    User(id, email, Some(hash(password)), name, NewAccountRole(count), now)
  }

  // ---------------------------------------------------------------------------
  // Reads

  /** `login`: a missing email or plaintext password makes the database or
      bcrypt throw (500); an unknown email, an account without a password and
      a wrong password all give the same 401. */
  function Login(users: seq<User>, email: Option<string>, password: Option<string>,
                 matches: (string, string) -> bool): (r: Outcome<Session<Profile>>)
    ensures email.None? ==> r == Fail(500, LoginFailed)
    ensures r.Ok? <==>
      email.Some? && password.Some? && IndexOf(users, Email, email.value).Some? &&
      var u := users[IndexOf(users, Email, email.value).value];
      Truthy(u.password) && matches(password.value, u.password.value)
    ensures r.Ok? ==>
      var u := users[IndexOf(users, Email, email.value).value];
      r == Ok(200, Session(ProfileOf(u), TokenFor(u)))
    ensures r.Fail? ==> r == Fail(500, LoginFailed) || r == Fail(401, InvalidCredentials)
  {
    match email
    case None => Fail(500, LoginFailed)
    case Some(e) =>
      match IndexOf(users, Email, e)
      case None => Fail(401, InvalidCredentials)
      case Some(i) =>
        var u := users[i];
        if !Truthy(u.password) then Fail(401, InvalidCredentials)
        else if password.None? then Fail(500, LoginFailed)
        else if !matches(password.value, u.password.value) then Fail(401, InvalidCredentials)
        else Ok(200, Session(ProfileOf(u), TokenFor(u)))
  }

  /** The three ways credentials can be wrong are told apart by nothing in the reply. */
  lemma WrongCredentialsLookAlike(users: seq<User>, e: string, p: string, matches: (string, string) -> bool)
    ensures var found := IndexOf(users, Email, e);
      (found.None? ||
       !Truthy(users[found.value].password) ||
       !matches(p, users[found.value].password.value))
      <==> Login(users, Some(e), Some(p), matches) == Fail(401, InvalidCredentials)
  {
  }

  /** `getMe`: the profile of the account the token names, or null when it is gone. */
  function GetMe(users: seq<User>, caller: Claims): (r: Option<Profile>)
    ensures r.Some? <==> IndexOf(users, UserId, caller.id).Some?
    ensures r.Some? ==>
      r.value.id == caller.id && r.value == ProfileOf(users[IndexOf(users, UserId, caller.id).value])
  {
    match IndexOf(users, UserId, caller.id)
    case Some(i) => Some(ProfileOf(users[i]))
    case None => None
  }

  function Summaries(users: seq<User>): (s: seq<Summary>)
    ensures |s| == |users|
    ensures forall i :: 0 <= i < |users| ==> s[i] == SummaryOf(users[i])
  {
    seq(|users|, i requires 0 <= i < |users| => SummaryOf(users[i]))
  }

  /** `getAllUsers`: one summary per account, newest first. */
  function GetAllUsers(users: seq<User>): (r: seq<Summary>)
    ensures SortedDesc(r, SummaryCreatedAt)
    ensures multiset(r) == multiset(Summaries(users))
    ensures forall s :: s in r <==> s in Summaries(users)
  {
    var r := SortDesc(Summaries(users), SummaryCreatedAt);
    assert forall s :: s in r <==> s in Summaries(users) by {
      forall s ensures s in r <==> s in Summaries(users) {
        MultisetMembership(r, Summaries(users), s);
      }
    }
    r
  }

  // ---------------------------------------------------------------------------
  // The store

  class UserStore {
    var users: seq<User>
    var nextId: nat

    /** Keys are unique and issued, and so are emails. */
    ghost predicate Valid()
      reads this
    {
      GoodTable(users, UserId, nextId) && UniqueKeys(users, Email)
    }

    constructor ()
      ensures Valid() && users == []
    {
      users, nextId := [], 0;
    }

    /** `register`: 400 with one fixed message when bcrypt or the database
        refuses (no password, no email, or an email already taken); otherwise
        the stored account, its token and status 201. */
    method Register(email: Option<string>, password: Option<string>, name: Option<string>,
                    hash: string -> string, now: int)
      returns (r: Outcome<Session<Account>>)
      requires Valid()
      modifies this
      ensures Valid()
      ensures password.None? || email.None? || IndexOf(old(users), Email, email.value).Some? ==>
        r == Fail(400, RegisterFailed) && users == old(users) && nextId == old(nextId)
      ensures password.Some? && email.Some? && IndexOf(old(users), Email, email.value).None? ==>
        var u := NewUser(NatToString(old(nextId)), email.value, password.value, name, |old(users)|, hash, now);
        users == old(users) + [u] && nextId == old(nextId) + 1 &&
        r == Ok(201, Session(AccountOf(u), TokenFor(u)))
    {
      if password.None? || email.None? || IndexOf(users, Email, email.value).Some? {
        return Fail(400, RegisterFailed);
      }
      var u := NewUser(NatToString(nextId), email.value, password.value, name, |users|, hash, now);
      AppendKeepsGood(users, UserId, nextId, u);
      AppendUniqueEmail(users, u);
      users := users + [u];
      nextId := nextId + 1;
      r := Ok(201, Session(AccountOf(u), TokenFor(u)));
    }

    /** `updateUserRole`: 400 for an unknown id or a role outside the enum;
        otherwise only that account's role changes (an absent role changes
        nothing) and its id and role are returned. */
    method UpdateUserRole(id: string, role: Option<string>) returns (r: Outcome<RoleChange>)
      requires Valid()
      modifies this
      ensures Valid() && nextId == old(nextId)
      ensures IndexOf(old(users), UserId, id).None? || (role.Some? && ParseRole(role.value).None?) ==>
        r == Fail(400, UpdateFailed) && users == old(users)
      ensures IndexOf(old(users), UserId, id).Some? && (role.None? || ParseRole(role.value).Some?) ==>
        var i := IndexOf(old(users), UserId, id).value;
        var newRole := if role.Some? then ParseRole(role.value).value else old(users)[i].role;
        users == old(users)[i := old(users)[i].(role := newRole)] &&
        r == Ok(200, RoleChange(id, newRole))
    {
      var found := IndexOf(users, UserId, id);
      if found.None? || (role.Some? && ParseRole(role.value).None?) {
        return Fail(400, UpdateFailed);
      }
      var i := found.value;
      var newRole := if role.Some? then ParseRole(role.value).value else users[i].role;
      var u := users[i].(role := newRole);
      ReplaceKeepsGood(users, UserId, nextId, i, u);
      ReplaceKeepsUnique(users, Email, i, u);
      users := users[i := u];
      r := Ok(200, RoleChange(id, newRole));
    }

    /** `deleteUser`: 400 for an unknown id, or when the database refuses
        because content rows still name the account as their author;
        otherwise that account goes. */
    method DeleteUser(id: string, referenced: bool) returns (r: Outcome<string>)
      requires Valid()
      modifies this
      ensures Valid() && nextId == old(nextId)
      ensures IndexOf(old(users), UserId, id).None? || referenced ==>
        r == Fail(400, DeleteFailed) && users == old(users)
      ensures IndexOf(old(users), UserId, id).Some? && !referenced ==>
        r == Ok(200, UserDeleted) &&
        users == RemoveAt(old(users), IndexOf(old(users), UserId, id).value)
    {
      var found := IndexOf(users, UserId, id);
      if found.None? || referenced {
        return Fail(400, DeleteFailed);
      }
      RemoveKeepsGood(users, UserId, nextId, found.value);
      RemoveKeepsUnique(users, Email, found.value);
      users := RemoveAt(users, found.value);
      r := Ok(200, UserDeleted);
    }
  }

  lemma AppendUniqueEmail(users: seq<User>, u: User)
    requires UniqueKeys(users, Email) && IndexOf(users, Email, u.email).None?
    ensures UniqueKeys(users + [u], Email)
  {
  }

  // ---------------------------------------------------------------------------
  // How the handlers fit together

  /** An account just registered can log in with the password it gave, and
      gets a token for itself; this relies only on bcrypt accepting what it
      hashed and never producing an empty hash. */
  lemma LoginAfterRegister(users: seq<User>, u: User, p: string,
                           hash: string -> string, matches: (string, string) -> bool)
    requires UniqueKeys(users + [u], Email)
    requires u.password == Some(hash(p)) && hash(p) != "" && matches(p, hash(p))
    ensures Login(users + [u], Some(u.email), Some(p), matches) == Ok(200, Session(ProfileOf(u), TokenFor(u)))
  {
    var t := users + [u];
    var found := IndexOf(t, Email, u.email);
    assert found == Some(|users|);
  }

  /** A registered account is what its own token's `/me` shows. */
  lemma MeAfterRegister(users: seq<User>, u: User)
    requires UniqueKeys(users + [u], UserId)
    ensures GetMe(users + [u], TokenFor(u)) == Some(ProfileOf(u))
  {
    assert IndexOf(users + [u], UserId, u.id) == Some(|users|);
  }

  /** Once an account is deleted, logging in with its email fails like any
      unknown email, and its token's `/me` gives null. */
  lemma DeletedAccountIsGone(users: seq<User>, id: string, p: Option<string>, matches: (string, string) -> bool)
    requires UniqueKeys(users, UserId) && UniqueKeys(users, Email) && IndexOf(users, UserId, id).Some?
    ensures var i := IndexOf(users, UserId, id).value;
      var rest := RemoveAt(users, i);
      Login(rest, Some(users[i].email), p, matches) == Fail(401, InvalidCredentials) &&
      GetMe(rest, TokenFor(users[i])) == None
  {
    var i := IndexOf(users, UserId, id).value;
    var rest := RemoveAt(users, i);
    RemoveAtRemovesOnlyThatKey(users, UserId, id);
    var e := users[i].email;
    forall j | 0 <= j < |rest| ensures rest[j].email != e {
      assert rest[j] in users && rest[j].id != id;
      var k :| 0 <= k < |users| && users[k] == rest[j];
    }
  }
}
