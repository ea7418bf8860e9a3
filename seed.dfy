/** `seedAdmin`: at start-up, create an administrator account from the
    environment unless one with that email exists. The environment variables
    are parameters (None: not set). */
module Seed {
  import opened Base
  import opened Text
  import opened Tables
  import opened Users

  const DefaultName := "Admin"

  /** The account seeding would create, with the name defaulting to "Admin". */
  function AdminUser(id: string, email: string, password: string, name: Option<string>,
                     hash: string -> string, now: int): (u: User)
    ensures u.id == id && u.email == email && u.role == ADMIN && u.createdAt == now
    ensures u.password == Some(hash(password))
    ensures u.name == Some(if Truthy(name) then name.value else DefaultName)
  {
    User(id, email, Some(hash(password)), Some(OrElse(name, DefaultName)), ADMIN, now)
  }

  /** Seeding creates the account when both variables are set (non-empty)
      and no account has that email. */
  predicate Creates(users: seq<User>, email: Option<string>, password: Option<string>) {
    Truthy(email) && Truthy(password) && IndexOf(users, Email, email.value).None?
  }

  /** The table after seeding; n is the next id to issue. */
  function Seeded(users: seq<User>, n: nat, email: Option<string>, password: Option<string>,
                  name: Option<string>, hash: string -> string, now: int): seq<User>
  {
    if Creates(users, email, password)
    then users + [AdminUser(NatToString(n), email.value, password.value, name, hash, now)]
    else users
  }

  method SeedAdmin(store: UserStore, email: Option<string>, password: Option<string>,
                   name: Option<string>, hash: string -> string, now: int)
    requires store.Valid()
    modifies store
    ensures store.Valid()
    ensures store.users == Seeded(old(store.users), old(store.nextId), email, password, name, hash, now)
    ensures store.nextId == old(store.nextId) + (if Creates(old(store.users), email, password) then 1 else 0)
  {
    if !Truthy(email) || !Truthy(password) {
      return;
    }
    var existing := IndexOf(store.users, Email, email.value);
    if existing.None? {
      var u := AdminUser(NatToString(store.nextId), email.value, password.value, name, hash, now);
      AppendKeepsGood(store.users, UserId, store.nextId, u);
      AppendUniqueEmail(store.users, u);
      store.users := store.users + [u];
      store.nextId := store.nextId + 1;
    }
  }

  // ---------------------------------------------------------------------------
  // Properties

  /** Without both variables set, or with the email taken, nothing changes;
      otherwise exactly one administrator with a hashed password is added. */
  lemma SeededMeaning(users: seq<User>, n: nat, email: Option<string>, password: Option<string>,
                      name: Option<string>, hash: string -> string, now: int)
    ensures !Creates(users, email, password) ==> Seeded(users, n, email, password, name, hash, now) == users
    ensures Creates(users, email, password) ==>
      var s := Seeded(users, n, email, password, name, hash, now);
      |s| == |users| + 1 && s[..|users|] == users &&
      s[|users|].email == email.value && s[|users|].role == ADMIN &&
      s[|users|].password == Some(hash(password.value))
  {
    if Creates(users, email, password) {
      var s := Seeded(users, n, email, password, name, hash, now);
      assert s[..|users|] == users;
    }
  }

  /** After seeding, an account with the configured email exists (when both
      variables are set), whether it was just created or already there. */
  lemma SeededEmailExists(users: seq<User>, n: nat, email: Option<string>, password: Option<string>,
                          name: Option<string>, hash: string -> string, now: int)
    requires Truthy(email) && Truthy(password)
    ensures IndexOf(Seeded(users, n, email, password, name, hash, now), Email, email.value).Some?
  {
    var s := Seeded(users, n, email, password, name, hash, now);
    if Creates(users, email, password) {
      assert Email(s[|users|]) == email.value;
    }
  }

  /** Running the seed a second time, at any later moment and counter, leaves
      the table as the first run left it. */
  lemma SeedIdempotent(users: seq<User>, n: nat, n': nat, email: Option<string>, password: Option<string>,
                       name: Option<string>, hash: string -> string, now: int, now': int)
    ensures var once := Seeded(users, n, email, password, name, hash, now);
      Seeded(once, n', email, password, name, hash, now') == once
  {
    if Truthy(email) && Truthy(password) {
      SeededEmailExists(users, n, email, password, name, hash, now);
    }
  }

  /** With both variables set, the table is non-empty after seeding, so every
      later registration is given the USER role. */
  lemma RegistrationAfterSeedIsUser(users: seq<User>, n: nat, email: Option<string>, password: Option<string>,
                                    name: Option<string>, hash: string -> string, now: int)
    requires Truthy(email) && Truthy(password)
    ensures NewAccountRole(|Seeded(users, n, email, password, name, hash, now)|) == USER
  {
    SeededEmailExists(users, n, email, password, name, hash, now);
  }
}
