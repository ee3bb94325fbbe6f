/** The user endpoints of the API: self-registration, and the administrator's
    create, update and delete. Password hashing is the `auth` module's, which
    is not part of this model: it is the parameter `hash`. */
module Accounts {
  import opened Wrappers
  import opened Seqs
  import opened Records

  predicate IsAdmin(u: User) {
    u.role == "admin"
  }

  predicate EmailTaken(users: seq<User>, email: string) {
    exists i :: 0 <= i < |users| && users[i].email == email
  }

  /** The `unique=True` constraint on `users.email`. */
  predicate UniqueEmails(users: seq<User>) {
    forall i, j :: 0 <= i < j < |users| ==> users[i].email != users[j].email
  }

  predicate FreshUserId(users: seq<User>, id: int) {
    forall i :: 0 <= i < |users| ==> users[i].id != id
  }

  /** Position of the first user with primary key `id` (`.first()`). */
  function FindUser(users: seq<User>, id: int): (r: Option<nat>)
    ensures r.Some? ==> r.value < |users| && users[r.value].id == id
    ensures r.Some? ==> forall j :: 0 <= j < r.value ==> users[j].id != id
    ensures r.None? ==> FreshUserId(users, id)
    decreases |users|
  {
    if users == [] then None
    else if users[0].id == id then Some(0)
    else match FindUser(users[1..], id)
      case None => None
      case Some(k) => Some(k + 1)
  }

  /** `POST /auth/register`: a taken email is refused with 400; otherwise a
      user with role "user" is added. */
  function Register(s: Store, email: string, password: string, hash: string -> string, newId: int): Outcome<Store>
    requires FreshUserId(s.users, newId)
  {
    if EmailTaken(s.users, email) then Fail(400)
    else Ok(s.(users := s.users + [User(newId, email, hash(password), "user")]))
  }

  /** `POST /users`: administrators only (403), then as registration. */
  function CreateUser(s: Store, me: User, email: string, password: string, hash: string -> string, newId: int): Outcome<Store>
    requires FreshUserId(s.users, newId)
  {
    if !IsAdmin(me) then Fail(403)
    else if EmailTaken(s.users, email) then Fail(400)
    else Ok(s.(users := s.users + [User(newId, email, hash(password), "user")]))
  }

  /** Python's truth test on an optional text: present and not empty. */
  predicate Truthy(o: Option<string>) {
    o.Some? && o.value != ""
  }

  /** `PUT /users/{id}`: administrators only (403), a missing user is 404;
      the role, email and password are replaced only by non-empty values. An
      email another user has breaks the unique constraint when the change is
      committed, which the server answers with 500. */
  function UpdateUser(s: Store, me: User, userId: int, role: Option<string>, email: Option<string>,
                      password: Option<string>, hash: string -> string): Outcome<Store>
  {
    if !IsAdmin(me) then Fail(403)
    else match FindUser(s.users, userId)
      case None => Fail(404)
      case Some(i) =>
        var u := s.users[i];
        var v := u.(role := if Truthy(role) then role.value else u.role,
                    email := if Truthy(email) then email.value else u.email,
                    hashedPassword := if Truthy(password) then hash(password.value) else u.hashedPassword);
        if v.email != u.email && EmailTaken(s.users, v.email) then Fail(500)
        else Ok(s.(users := s.users[i := v]))
  }

  function NotUser(id: int): User -> bool {
    (u: User) => u.id != id
  }

  /** `DELETE /users/{id}`: administrators only (403), a missing user is 404,
      and nobody may delete themselves (400). The user's tasks, strategies,
      insights and shares stay, with their owner column set to NULL (what
      SQLAlchemy does to the children of a deleted parent when the
      relationship has no delete cascade). */
  function DeleteUser(s: Store, me: User, userId: int): Outcome<Store> {
    if !IsAdmin(me) then Fail(403)
    else match FindUser(s.users, userId)
      case None => Fail(404)
      case Some(i) =>
        if s.users[i].id == me.id then Fail(400)
        else Ok(Store(
          Keep(s.users, NotUser(userId)),
          DisownShares(s.shares, userId),
          Reown(s.tasks, userId, None),
          Reown(s.strategies, userId, None),
          Reown(s.insights, userId, None)))
  }

  function DisownShares(shares: seq<Share>, userId: int): seq<Share> {
    seq(|shares|, i requires 0 <= i < |shares| =>
      if shares[i].ownerId == Some(userId) then shares[i].(ownerId := None) else shares[i])
  }

  // ---------------------------------------------------------------------------
  // Properties

  /** Registering makes the email taken, so registering it again is refused;
      the new account is a plain user holding the password's hash, and the
      emails stay unique. */
  lemma RegisterThenTaken(s: Store, email: string, password: string, hash: string -> string, newId: int, otherId: int)
    requires FreshUserId(s.users, newId) && UniqueEmails(s.users)
    requires Register(s, email, password, hash, newId).Ok?
    ensures var t := Register(s, email, password, hash, newId).value;
      t.users[|t.users| - 1] == User(newId, email, hash(password), "user")
      && UniqueEmails(t.users)
      && (FreshUserId(t.users, otherId) ==> Register(t, email, password, hash, otherId) == Fail(400))
  {
    var t := Register(s, email, password, hash, newId).value;
    assert t.users[|s.users|].email == email;
  }

  /** Registration refuses exactly the emails already registered. */
  lemma RegisterRefusesIff(s: Store, email: string, password: string, hash: string -> string, newId: int)
    requires FreshUserId(s.users, newId)
    ensures Register(s, email, password, hash, newId) == Fail(400) <==> EmailTaken(s.users, email)
    ensures Register(s, email, password, hash, newId).Ok? <==> !EmailTaken(s.users, email)
  {
  }

  /** For an administrator, creating a user is registering one; anyone else
      gets 403 whatever the email. */
  lemma CreateUserIsRegister(s: Store, me: User, email: string, password: string, hash: string -> string, newId: int)
    requires FreshUserId(s.users, newId)
    ensures IsAdmin(me) ==> CreateUser(s, me, email, password, hash, newId) == Register(s, email, password, hash, newId)
    ensures !IsAdmin(me) ==> CreateUser(s, me, email, password, hash, newId) == Fail(403)
  {
  }

  /** The update's answers: 403 for non-administrators, 404 for an unknown
      id; nothing else is refused except an email clash. */
  lemma UpdateUserGuards(s: Store, me: User, userId: int, role: Option<string>, email: Option<string>,
                         password: Option<string>, hash: string -> string)
    ensures var r := UpdateUser(s, me, userId, role, email, password, hash);
      (r == Fail(403) <==> !IsAdmin(me))
      && (r == Fail(404) <==> IsAdmin(me) && FreshUserId(s.users, userId))
      && (r.Fail? ==> r.code in {403, 404, 500})
      && (!Truthy(email) && IsAdmin(me) && !FreshUserId(s.users, userId) ==> r.Ok?)
  {
  }

  /** Empty values change nothing: an update made only of absent or empty
      fields gives the store back. */
  lemma EmptyUpdateKeeps(s: Store, me: User, userId: int, role: Option<string>, email: Option<string>,
                         password: Option<string>, hash: string -> string)
    requires IsAdmin(me) && !FreshUserId(s.users, userId)
    requires !Truthy(role) && !Truthy(email) && !Truthy(password)
    ensures UpdateUser(s, me, userId, role, email, password, hash) == Ok(s)
  {
    var i := FindUser(s.users, userId).value;
    assert s.users[i := s.users[i]] == s.users;
  }

  /** An update touches only the chosen user, keeps its id, sets exactly the
      non-empty fields, and keeps the emails unique. */
  lemma UpdateUserEffect(s: Store, me: User, userId: int, role: Option<string>, email: Option<string>,
                         password: Option<string>, hash: string -> string)
    requires UniqueEmails(s.users)
    requires UpdateUser(s, me, userId, role, email, password, hash).Ok?
    ensures var t := UpdateUser(s, me, userId, role, email, password, hash).value;
      var i := FindUser(s.users, userId).value;
      |t.users| == |s.users|
      && (forall j :: 0 <= j < |s.users| && j != i ==> t.users[j] == s.users[j])
      && t.users[i].id == userId
      && t.users[i].role == (if Truthy(role) then role.value else s.users[i].role)
      && t.users[i].email == (if Truthy(email) then email.value else s.users[i].email)
      && (Truthy(password) ==> t.users[i].hashedPassword == hash(password.value))
      && (!Truthy(password) ==> t.users[i].hashedPassword == s.users[i].hashedPassword)
      && UniqueEmails(t.users)
      && SameExceptUsers(s, t)
  {
    var t := UpdateUser(s, me, userId, role, email, password, hash).value;
    var i := FindUser(s.users, userId).value;
    forall a, b | 0 <= a < b < |t.users|
      ensures t.users[a].email != t.users[b].email
    {
      if a == i || b == i {
        var other := if a == i then b else a;
        assert s.users[other].email == t.users[other].email;
      }
    }
  }

  /** The deletion's answers: 403, 404 and 400 in that order of precedence. */
  lemma DeleteUserGuards(s: Store, me: User, userId: int)
    ensures var r := DeleteUser(s, me, userId);
      (r == Fail(403) <==> !IsAdmin(me))
      && (r == Fail(404) <==> IsAdmin(me) && FreshUserId(s.users, userId))
      && (r == Fail(400) <==> IsAdmin(me) && !FreshUserId(s.users, userId) && userId == me.id)
      && (r.Ok? <==> IsAdmin(me) && !FreshUserId(s.users, userId) && userId != me.id)
  {
  }

  /** The shares once made by `userId` lose their owner; every other share,
      and every id, email, permission and the order, stay. */
  predicate SharesDisowned(before: seq<Share>, after: seq<Share>, userId: int) {
    |after| == |before|
    && forall i :: 0 <= i < |before| ==>
         after[i].id == before[i].id && after[i].email == before[i].email
         && after[i].permission == before[i].permission
         && after[i].ownerId == (if before[i].ownerId == Some(userId) then None else before[i].ownerId)
  }

  /** A deletion removes exactly that user, keeping the others in order; every
      task, strategy, insight and share stays, the deleted user's ones without
      an owner and everyone else's with theirs, so nothing is owned by the
      deleted user any more. */
  lemma DeleteUserEffect(s: Store, me: User, userId: int)
    requires DeleteUser(s, me, userId).Ok?
    ensures var t := DeleteUser(s, me, userId).value;
      (forall u :: u in t.users <==> u in s.users && u.id != userId)
      && IsSubsequence(t.users, s.users)
      && Reowned(s.tasks, t.tasks, userId, None)
      && Reowned(s.strategies, t.strategies, userId, None)
      && Reowned(s.insights, t.insights, userId, None)
      && SharesDisowned(s.shares, t.shares, userId)
      && (forall i :: 0 <= i < |t.tasks| ==> t.tasks[i].owner != Some(userId))
      && (forall i :: 0 <= i < |t.strategies| ==> t.strategies[i].owner != Some(userId))
      && (forall i :: 0 <= i < |t.insights| ==> t.insights[i].owner != Some(userId))
      && (forall i :: 0 <= i < |t.shares| ==> t.shares[i].ownerId != Some(userId))
  {
    KeepIsSubsequence(s.users, NotUser(userId));
    ReownSpec(s.tasks, userId, None);
    ReownSpec(s.strategies, userId, None);
    ReownSpec(s.insights, userId, None);
  }
}
