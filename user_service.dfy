/** Presence: users are stored under their nickname; registering marks a user online,
    and status changes are allowed only for a nickname the store already holds. */
module Users {
  import opened Common
  import opened Entities

  /** Every stored user is kept under its own nickname. */
  ghost predicate KeyedByNickname(users: map<string, UserDoc>) {
    forall k :: k in users ==> users[k].nickName == Some(k)
  }

  /** isUserExistInDatabase: a null nickname is rejected; otherwise the nickname key
      is looked up. */
  function UserExists(users: map<string, UserDoc>, nickName: Option<string>): (res: Result<bool>)
    ensures res.Err? <==> nickName.None?
    ensures res.Err? ==> res.error == IllegalArgument(NicknameIsNull)
    ensures res.Ok? ==> (res.value <==> nickName.value in users)
  {
    match nickName
    case None => Err(IllegalArgument(NicknameIsNull))
    case Some(k) => Ok(k in users)
  }

  /** The user store after a registration, and the user as saved. */
  datatype Registered = Registered(users: map<string, UserDoc>, saved: UserDoc)

  /** saveUserAsync: mark the user online and store it under its nickname, replacing
      any stored user with that nickname; a user without one is inserted under a key
      the store issues. */
  function Register(users: map<string, UserDoc>, u: UserDoc): Registered {
    var online := u.(status := Online);
    match online.nickName
    case Some(k) => Registered(users[k := online], online)
    case None =>
      var key := FreshId(users.Keys);
      var saved := online.(nickName := Some(key));
      Registered(users[key := saved], saved)
  }

  /** The user store after a status change, and how the call ended. */
  datatype Updated = Updated(users: map<string, UserDoc>, outcome: Outcome)

  /** updateStatusToOnlineAsync / updateStatusToOfflineAsync: check existence, then
      store the caller's user, with `status` forced, under its nickname. */
  function UpdateStatus(users: map<string, UserDoc>, u: UserDoc, status: UserStatus): Updated {
    match UserExists(users, u.nickName)
    case Err(e) => Updated(users, Thrown(e))
    case Ok(false) => Updated(users, Thrown(IllegalArgument(UserNotInDatabase)))
    case Ok(true) => Updated(users[u.nickName.value := u.(status := status)], Done)
  }

  /** findConnectedUsers: the stored users whose status is online. */
  function Connected(users: map<string, UserDoc>): (online: set<UserDoc>)
    ensures forall d :: d in online ==> d.status == Online
    ensures forall k :: k in users && users[k].status == Online ==> users[k] in online
    ensures forall d :: d in online ==> exists k :: k in users && users[k] == d
  {
    set k | k in users && users[k].status == Online :: users[k]
  }

  /** Registration is an upsert: the user is stored online under its nickname,
      whatever was stored before, and every other user is untouched; a user without a
      nickname is inserted under a new key, so no stored user is replaced. */
  lemma RegisterStoresOnline(users: map<string, UserDoc>, u: UserDoc)
    requires KeyedByNickname(users)
    ensures var r := Register(users, u);
      && KeyedByNickname(r.users)
      && r.saved.status == Online && r.saved.fullName == u.fullName && r.saved.password == u.password
      && (u.nickName.Some? ==> r.saved == u.(status := Online))
      && r.saved.nickName.Some? && r.users == users[r.saved.nickName.value := r.saved]
      && r.saved in Connected(r.users)
      && (u.nickName.None? ==> r.saved.nickName.value !in users && r.users.Keys == users.Keys + {r.saved.nickName.value})
  {
  }

  /** A status change for a stored nickname writes the caller's user, fullName and
      password included, with the status forced. */
  lemma UpdateWritesCallerUser(users: map<string, UserDoc>, u: UserDoc, status: UserStatus)
    requires u.nickName.Some? && u.nickName.value in users
    ensures UpdateStatus(users, u, status) == Updated(users[u.nickName.value := u.(status := status)], Done)
  {
  }

  /** A status change for an unknown or null nickname fails and writes nothing. */
  lemma UpdateUnknownUserFails(users: map<string, UserDoc>, u: UserDoc, status: UserStatus)
    requires u.nickName.None? || u.nickName.value !in users
    ensures UpdateStatus(users, u, status).users == users
    ensures UpdateStatus(users, u, status).outcome
         == Thrown(IllegalArgument(if u.nickName.None? then NicknameIsNull else UserNotInDatabase))
  {
  }

  /** Status changes keep every user under its own nickname and never add a user. */
  lemma UpdateKeepsStore(users: map<string, UserDoc>, u: UserDoc, status: UserStatus)
    requires KeyedByNickname(users)
    ensures KeyedByNickname(UpdateStatus(users, u, status).users)
    ensures UpdateStatus(users, u, status).users.Keys == users.Keys
  {
  }

  /** Setting the same status twice leaves the same store as setting it once. */
  lemma UpdateIdempotent(users: map<string, UserDoc>, u: UserDoc, status: UserStatus)
    ensures var once := UpdateStatus(users, u, status);
      UpdateStatus(once.users, u, status) == once
  {
    var once := UpdateStatus(users, u, status);
    if once.outcome.Done? {
      var k := u.nickName.value;
      assert once.users[k := u.(status := status)] == once.users;
    }
  }

  /** A user who goes online and then offline is not among the connected users, and
      the other users' presence is unchanged. */
  lemma OnlineThenOfflineDisconnects(users: map<string, UserDoc>, u: UserDoc)
    requires KeyedByNickname(users) && u.nickName.Some? && u.nickName.value in users
    ensures var after := UpdateStatus(UpdateStatus(users, u, Online).users, u, Offline).users;
      && (forall d :: d in Connected(after) ==> d.nickName != u.nickName)
      && (forall d :: d in Connected(users) && d.nickName != u.nickName ==> d in Connected(after))
  {
    var k := u.nickName.value;
    var mid := UpdateStatus(users, u, Online).users;
    var after := UpdateStatus(mid, u, Offline).users;
    assert after == users[k := u.(status := Offline)];
    forall d | d in Connected(after)
      ensures d.nickName != u.nickName
    {
      var j :| j in after && after[j] == d;
    }
    forall d | d in Connected(users) && d.nickName != u.nickName
      ensures d in Connected(after)
    {
      var j :| j in users && users[j] == d;
      assert after[j] == d;
    }
  }

  /** The user service: the user collection, keyed by nickname. */
  class UserService {
    var users: map<string, UserDoc>

    ghost predicate Valid()
      reads this
    {
      KeyedByNickname(users)
    }

    constructor ()
      ensures Valid() && users == map[]
    {
      users := map[];
    }

    /** Marks the caller's user online and stores it. */
    method SaveUser(user: User)
      requires Valid()
      modifies this, user
      ensures Valid()
      ensures Register(old(users), old(user.Doc())) == Registered(users, user.Doc())
    {
      user.status := Online;
      if user.nickName.None? {
        // the store issues a key it does not hold to a user saved without one
        user.nickName := Some(FreshId(users.Keys));
      }
      users := users[user.nickName.value := user.Doc()];
    }

    /** Sets the caller's user offline and stores it, if its nickname is stored. */
    method UpdateStatusToOffline(user: User) returns (outcome: Outcome)
      requires Valid()
      modifies this, user
      ensures Valid()
      ensures UpdateStatus(old(users), old(user.Doc()), Offline) == Updated(users, outcome)
      ensures user.Doc() == if outcome.Done? then old(user.Doc()).(status := Offline) else old(user.Doc())
    {
      var present := UserExists(users, user.nickName);
      match present {
        case Err(e) =>
          outcome := Thrown(e);
        case Ok(false) =>
          outcome := Thrown(IllegalArgument(UserNotInDatabase));
        case Ok(true) =>
          user.status := Offline;
          users := users[user.nickName.value := user.Doc()];
          outcome := Done;
      }
    }

    /** Sets the caller's user online and stores it, if its nickname is stored. */
    method UpdateStatusToOnline(user: User) returns (outcome: Outcome)
      requires Valid()
      modifies this, user
      ensures Valid()
      ensures UpdateStatus(old(users), old(user.Doc()), Online) == Updated(users, outcome)
      ensures user.Doc() == if outcome.Done? then old(user.Doc()).(status := Online) else old(user.Doc())
    {
      var present := UserExists(users, user.nickName);
      match present {
        case Err(e) =>
          outcome := Thrown(e);
        case Ok(false) =>
          outcome := Thrown(IllegalArgument(UserNotInDatabase));
        case Ok(true) =>
          user.status := Online;
          users := users[user.nickName.value := user.Doc()];
          outcome := Done;
      }
    }

    /** The users currently online. */
    method FindConnectedUsers() returns (online: set<UserDoc>)
      ensures online == Connected(users)
    {
      online := Connected(users);
    }
  }
}
