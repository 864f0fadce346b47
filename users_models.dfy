/** The user record and the subscription table (backend/users/models.py). */
module UsersModels {
  import opened Wrappers

  /** `MAX_LENGTH`: the limit on username, first name and last name. */
  const MaxNameLength: nat := 150
  const MaxEmailLength: nat := 254
  const MaxTopRecipesLength: nat := 500

  type UserId = nat

  /** A `MyUser` row. The avatar is optional: `None` is an empty image field. */
  datatype User = User(
    id: UserId,
    username: string,
    email: string,
    firstName: string,
    lastName: string,
    topRecipes: string,
    avatar: Option<string>)

  /** A `SubscrUser` row: `subscriber` follows `author`. */
  datatype Subscription = Subscription(subscriber: UserId, author: UserId)

  /** The field bounds of one user: username, email, first and last name non-blank and
      within their maximum lengths; the favourite-dishes text within 500 characters. */
  predicate ValidUser(u: User) {
    && 1 <= |u.username| <= MaxNameLength
    && 1 <= |u.email| <= MaxEmailLength
    && 1 <= |u.firstName| <= MaxNameLength
    && 1 <= |u.lastName| <= MaxNameLength
    && |u.topRecipes| <= MaxTopRecipesLength
  }

  /** The two `unique=True` columns: no two users share a username or an email. */
  predicate UsersUnique(users: map<UserId, User>) {
    forall a, b :: a in users && b in users && a != b ==>
      users[a].username != users[b].username && users[a].email != users[b].email
  }

  /** Every user is stored under its own id, satisfies its bounds, and the unique columns hold. */
  predicate ValidUsers(users: map<UserId, User>) {
    && (forall k :: k in users ==> users[k].id == k && ValidUser(users[k]))
    && UsersUnique(users)
  }

  /** A new user can be added exactly when its username and email are both unused. */
  lemma {:induction false} AddUserKeepsValid(users: map<UserId, User>, u: User)
    requires ValidUsers(users) && ValidUser(u) && u.id !in users
    ensures ValidUsers(users[u.id := u]) <==>
      forall k :: k in users ==> users[k].username != u.username && users[k].email != u.email
  {
    var users' := users[u.id := u];
    if forall k :: k in users ==> users[k].username != u.username && users[k].email != u.email {
      assert UsersUnique(users');
    } else {
      var k :| k in users && (users[k].username == u.username || users[k].email == u.email);
      assert k != u.id && k in users' && u.id in users';
    }
  }
}
