/**
 * The database behind `PrismaService`: the `user` table keyed by username,
 * the `contact` table keyed by an auto-incremented id, and the queries the
 * services run against them.
 */
module Store {
  import opened Wrappers

  /** A row of the user table; `password` holds a bcrypt hash. */
  datatype User = User(username: string, password: string, name: string, token: Option<string>)

  /** A row of the contact table; `username` is the owning user. */
  datatype Contact = Contact(
    id: nat, firstName: string, lastName: Option<string>, email: Option<string>,
    phone: Option<string>, username: string)

  /** Every row is stored under its own username. */
  predicate KeyedByUsername(users: map<string, User>) {
    forall k :: k in users ==> users[k].username == k
  }

  /** No two users hold the same session token. */
  predicate TokensUnique(users: map<string, User>) {
    forall a, b :: a in users && b in users && users[a].token.Some? && users[a].token == users[b].token ==> a == b
  }

  /** A stored token is one `uuid()` issued, so never empty. */
  predicate TokensIssued(users: map<string, User>) {
    forall k :: k in users ==> users[k].token != Some("")
  }

  predicate UsersValid(users: map<string, User>) {
    KeyedByUsername(users) && TokensUnique(users) && TokensIssued(users)
  }

  predicate TokenInUse(users: map<string, User>, token: string) {
    exists k :: k in users && users[k].token == Some(token)
  }

  /** What `uuid()` hands out: a non-empty token no user holds yet. */
  predicate FreshToken(users: map<string, User>, token: string) {
    token != "" && !TokenInUse(users, token)
  }

  /** `user.findFirst({where: {token}})`: the user holding `token`, if any. */
  function FindFirstByToken(users: map<string, User>, token: string): (r: Option<User>)
    requires UsersValid(users)
    ensures r.Some? <==> TokenInUse(users, token)
    ensures r.Some? ==>
      r.value.token == Some(token) && r.value.username in users && users[r.value.username] == r.value
  {
    if TokenInUse(users, token) then
      var k :| k in users && users[k].token == Some(token);
      Some(users[k])
    else
      None
  }

  /** `user.update({where: {username}, data: {token}})`: only that user's token changes. */
  function WithToken(users: map<string, User>, username: string, token: Option<string>): (r: map<string, User>)
    requires username in users
    ensures r.Keys == users.Keys
    ensures r[username].token == token
    ensures r[username].username == users[username].username
    ensures r[username].password == users[username].password && r[username].name == users[username].name
    ensures forall k :: k in users && k != username ==> r[k] == users[k]
  {
    users[username := users[username].(token := token)]
  }

  /** Setting a user's token to a fresh one or to none keeps the tokens unique. */
  lemma WithTokenValid(users: map<string, User>, username: string, token: Option<string>)
    requires UsersValid(users) && username in users
    requires token.Some? ==> FreshToken(users, token.value)
    ensures UsersValid(WithToken(users, username, token))
  {
  }

  /** Every contact is stored under its positive id, below the next id, and owned by a user. */
  predicate ContactsValid(contacts: map<nat, Contact>, nextId: nat, users: map<string, User>) {
    1 <= nextId &&
    forall id :: id in contacts ==>
      contacts[id].id == id && 0 < id < nextId && contacts[id].username in users
  }

  class Database {
    var users: map<string, User>
    var contacts: map<nat, Contact>
    var nextContactId: nat

    ghost predicate Valid()
      reads this
    {
      UsersValid(users) && ContactsValid(contacts, nextContactId, users)
    }

    /** `user` is the row currently stored under its username. */
    predicate IsCurrent(user: User)
      reads this
    {
      user.username in users && users[user.username] == user
    }

    constructor ()
      ensures Valid()
      ensures users == map[] && contacts == map[] && nextContactId == 1
    {
      users := map[];
      contacts := map[];
      nextContactId := 1;
    }
  }
}
