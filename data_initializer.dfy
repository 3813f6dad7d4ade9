/** config/DataInitializer.java: at start-up, an `admin` and a `user`
    account are created unless an account of that name already exists.
    entity/User.java and repository/UserRepository.java are not part of this
    model: the repository is a map from username to account, and the
    password encoder is a function the caller supplies. */
module Seeding {
  import opened Common

  datatype User = User(username: string, password: string, email: string, roles: set<string>, active: bool)

  /** The account `initData` builds for `admin`. */
  function Admin(encode: string -> string): (u: User)
    ensures u.username == "admin" && u.password == encode("admin")
    ensures u.email == "admin@example.com" && u.roles == {"ADMIN"} && u.active
  {
    User("admin", encode("admin"), "admin@example.com", {"ADMIN"}, true)
  }

  /** The account `initData` builds for `user`. */
  function StandardUser(encode: string -> string): (u: User)
    ensures u.username == "user" && u.password == encode("password")
    ensures u.email == "user@example.com" && u.roles == {"USER"} && u.active
  {
    User("user", encode("password"), "user@example.com", {"USER"}, true)
  }

  /** Adding an account only where its name is free. */
  function AddIfAbsent(users: map<string, User>, u: User): (r: map<string, User>)
    ensures u.username in r
    ensures u.username !in users ==> r == users[u.username := u]
    ensures u.username in users ==> r == users
  {
    if u.username in users then users else users[u.username := u]
  }

  /** The store after one run of `initData`. */
  function Seeded(users: map<string, User>, encode: string -> string): (r: map<string, User>)
    ensures r.Keys == users.Keys + {"admin", "user"}
  {
    AddIfAbsent(AddIfAbsent(users, Admin(encode)), StandardUser(encode))
  }

  class UserRepository {
    var users: map<string, User>

    constructor ()
      ensures users == map[]
    {
      users := map[];
    }

    /** `findByUsername`. */
    function FindByUsername(username: string): (r: Option<User>)
      reads this
      ensures r.Some? <==> username in users
      ensures r.Some? ==> r.value == users[username]
    {
      if username in users then Some(users[username]) else None
    }

    /** `save`: the account is stored under its username. */
    method Save(u: User)
      modifies this
      ensures users == old(users)[u.username := u]
    {
      users := users[u.username := u];
    }
  }

  /** `initData`: two guarded inserts, `admin` first. */
  method InitData(repository: UserRepository, encode: string -> string)
    modifies repository
    ensures repository.users == Seeded(old(repository.users), encode)
  {
    if repository.FindByUsername("admin").None? {
      repository.Save(Admin(encode));
    }
    if repository.FindByUsername("user").None? {
      repository.Save(StandardUser(encode));
    }
  }

  /** Accounts that existed before a run are exactly as they were, and a
      name that was free now holds the account built for it. */
  lemma SeededKeepsExisting(users: map<string, User>, encode: string -> string)
    ensures forall name | name in users :: Seeded(users, encode)[name] == users[name]
    ensures "admin" !in users ==> Seeded(users, encode)["admin"] == Admin(encode)
    ensures "user" !in users ==> Seeded(users, encode)["user"] == StandardUser(encode)
  {
  }

  /** A second run changes nothing. */
  lemma SeededIdempotent(users: map<string, User>, encode: string -> string)
    ensures Seeded(Seeded(users, encode), encode) == Seeded(users, encode)
  {
  }
}
