/**
 * The user handlers (getUsers, createUser, updateUser, deleteUser) as
 * functions from the store before the request to the store after it and the
 * reply written.  The methods of Store.Store are proved to compute these.
 */
module UserStore {
  import opened Decimal
  import opened Http
  import opened Records

  /** getUsers: an empty store is reported as "not found", never as an empty array. */
  function List(users: seq<User>): (r: Reply<User>)
    ensures r.status == StatusNotFound <==> |users| == 0
    ensures |users| > 0 ==> r == Reply(StatusOK, Items(users))
  {
    if |users| == 0 then MessageReply(StatusNotFound, "No users found")
    else Reply(StatusOK, Items(users))
  }

  /** The body decodes, has every required field and names a username not yet taken. */
  predicate Admits(users: seq<User>, body: Decoded<User>) {
    body.Decoded? && ValidateUserInput(body.value) && !HasUsername(users, body.value.username)
  }

  /**
   * createUser: a rejected request leaves the store as it was; an admitted one
   * appends one user whose ID is the old count plus one.
   */
  function Create(users: seq<User>, body: Decoded<User>, now: Timestamp): (o: Outcome<User>)
    ensures !Admits(users, body) ==> o.store == users
    ensures body.DecodeError? ==> o.reply == ErrorReply(StatusBadRequest, body.message)
    ensures body.Decoded? && !ValidateUserInput(body.value) ==>
      o.reply == ErrorReply(StatusBadRequest, "Invalid user input")
    ensures body.Decoded? && ValidateUserInput(body.value) && HasUsername(users, body.value.username) ==>
      o.reply == ErrorReply(StatusConflict, "User already exists")
    ensures Admits(users, body) ==>
      && |o.store| == |users| + 1
      && o.store[..|users|] == users
      && o.store[|users|].id == |users| + 1
      && o.store[|users|].username == body.value.username
      && o.store[|users|].email == body.value.email
      && o.store[|users|].password == body.value.password
      && o.store[|users|].created == now
      && o.reply == Reply(StatusCreated, Item(o.store[|users|]))
  {
    match body
    case DecodeError(msg) => Outcome(users, ErrorReply(StatusBadRequest, msg))
    case Decoded(u) =>
      if !ValidateUserInput(u) then Outcome(users, ErrorReply(StatusBadRequest, "Invalid user input"))
      else if HasUsername(users, u.username) then Outcome(users, ErrorReply(StatusConflict, "User already exists"))
      else
        var added := u.(id := |users| + 1, created := now);
        Outcome(users + [added], Reply(StatusCreated, Item(added)))
  }

  /**
   * updateUser: the first user whose rendered ID equals the parameter gets the
   * body's username, email and password; its ID and creation time stay.  The
   * body is only decoded once a user is found, so a bad body with an unknown
   * ID is a 404.  Nothing is validated: an empty or taken username is stored.
   */
  function Update(users: seq<User>, id: string, body: Decoded<User>): (o: Outcome<User>)
    ensures |o.store| == |users|
    ensures o.reply.status == StatusNotFound <==> forall j :: 0 <= j < |users| ==> FormatInt(users[j].id) != id
    ensures o.reply.status != StatusOK ==> o.store == users
    ensures var k := FirstMatch(UserIds(users), id);
      if k == |users| then o.reply == MessageReply(StatusNotFound, "User not found")
      else if body.DecodeError? then o.reply == ErrorReply(StatusBadRequest, body.message)
      else
        && (forall j :: 0 <= j < |users| && j != k ==> o.store[j] == users[j])
        && o.store[k].id == users[k].id
        && o.store[k].created == users[k].created
        && o.store[k].username == body.value.username
        && o.store[k].email == body.value.email
        && o.store[k].password == body.value.password
        && o.reply == Reply(StatusOK, Item(o.store[k]))
  {
    var k := FirstMatch(UserIds(users), id);
    if k == |users| then Outcome(users, MessageReply(StatusNotFound, "User not found"))
    else match body
      case DecodeError(msg) => Outcome(users, ErrorReply(StatusBadRequest, msg))
      case Decoded(u) =>
        var changed := users[k].(username := u.username, email := u.email, password := u.password);
        Outcome(users[k := changed], Reply(StatusOK, Item(changed)))
  }

  /** deleteUser: the first user whose rendered ID equals the parameter is spliced out. */
  function Delete(users: seq<User>, id: string): (o: Outcome<User>)
    ensures o.reply.status == StatusNotFound <==> forall j :: 0 <= j < |users| ==> FormatInt(users[j].id) != id
    ensures var k := FirstMatch(UserIds(users), id);
      if k == |users| then o == Outcome(users, MessageReply(StatusNotFound, "User not found"))
      else
        && |o.store| == |users| - 1
        && o.store[..k] == users[..k]
        && o.store[k..] == users[k + 1..]
        && o.reply == MessageReply(StatusOK, "User deleted")
  {
    var k := FirstMatch(UserIds(users), id);
    if k == |users| then Outcome(users, MessageReply(StatusNotFound, "User not found"))
    else Outcome(RemoveAt(users, k), MessageReply(StatusOK, "User deleted"))
  }

  /** A successful delete removes one occurrence of the matched user; every other one stays. */
  lemma DeleteRemovesOneOccurrence(users: seq<User>, id: string)
    requires FirstMatch(UserIds(users), id) < |users|
    ensures var k := FirstMatch(UserIds(users), id);
      multiset(Delete(users, id).store) + multiset{users[k]} == multiset(users)
  {
    var k := FirstMatch(UserIds(users), id);
    DeleteStoppedAt(users, id, k);
    RemoveAtMultiset(users, k);
  }

  /** Update once the scan has stopped at position k (used by the Store methods). */
  lemma UpdateStoppedAt(users: seq<User>, id: string, body: Decoded<User>, k: nat)
    requires FirstMatch(UserIds(users), id) == k
    ensures k == |users| ==> Update(users, id, body) == Outcome(users, MessageReply(StatusNotFound, "User not found"))
    ensures k < |users| && body.DecodeError? ==> Update(users, id, body) == Outcome(users, ErrorReply(StatusBadRequest, body.message))
    ensures k < |users| && body.Decoded? ==> var u := body.value;
      Update(users, id, body) == Outcome(users[k := users[k].(username := u.username, email := u.email, password := u.password)], Reply(StatusOK, Item(users[k].(username := u.username, email := u.email, password := u.password))))
  {
  }

  /** Delete once the scan has stopped at position k (used by the Store methods). */
  lemma DeleteStoppedAt(users: seq<User>, id: string, k: nat)
    requires FirstMatch(UserIds(users), id) == k
    ensures k == |users| ==> Delete(users, id) == Outcome(users, MessageReply(StatusNotFound, "User not found"))
    ensures k < |users| ==> Delete(users, id) == Outcome(RemoveAt(users, k), MessageReply(StatusOK, "User deleted"))
  {
  }

  /** Creation refuses a taken username, so it keeps usernames distinct. */
  lemma CreateKeepsUsernamesUnique(users: seq<User>, body: Decoded<User>, now: Timestamp)
    requires UniqueUsernames(users)
    ensures UniqueUsernames(Create(users, body, now).store)
  {
  }

  /** Deleting a user keeps usernames distinct. */
  lemma DeleteKeepsUsernamesUnique(users: seq<User>, id: string)
    requires UniqueUsernames(users)
    ensures UniqueUsernames(Delete(users, id).store)
  {
    var k := FirstMatch(UserIds(users), id);
    if k < |users| {
      var s := Delete(users, id).store;
      forall i, j | 0 <= i < j < |s| ensures s[i].username != s[j].username {
        var i', j' := if i < k then i else i + 1, if j < k then j else j + 1;
        assert s[i] == users[i'] && s[j] == users[j'];
      }
    }
  }

  /** Updating is not checked against the other usernames: it can give two users the same one. */
  lemma UpdateCanDuplicateUsername(t: Timestamp)
    ensures var users := [User(1, "alice", "a@example.com", "pw1", t), User(2, "bob", "b@example.com", "pw2", t)];
      var o := Update(users, "2", Decoded(User(0, "alice", "b@example.com", "pw2", t)));
      && UniqueUsernames(users)
      && o.reply.status == StatusOK
      && !UniqueUsernames(o.store)
  {
    var users := [User(1, "alice", "a@example.com", "pw1", t), User(2, "bob", "b@example.com", "pw2", t)];
    assert FormatInt(1) == "1" && FormatInt(2) == "2";
    FirstMatchAt(UserIds(users), "2", 1);
  }

  /** The IDs of a store built by creations alone: 1, 2, ..., n in order. */
  predicate DenseIds(users: seq<User>) {
    forall i :: 0 <= i < |users| ==> users[i].id == i + 1
  }

  /** In such a store, the rendering of n names the n-th user. */
  lemma DenseIdLookup(users: seq<User>, n: int)
    requires DenseIds(users) && 1 <= n <= |users|
    ensures FirstMatch(UserIds(users), FormatInt(n)) == n - 1
  {
    FirstMatchFindsId(UserIds(users), n);
    assert UserIds(users)[n - 1] == n;
  }

  /** Creation and update keep the IDs dense. */
  lemma CreateUpdateKeepIdsDense(users: seq<User>, body: Decoded<User>, now: Timestamp, id: string)
    requires DenseIds(users)
    ensures DenseIds(Create(users, body, now).store)
    ensures DenseIds(Update(users, id, body).store)
  {
  }

  /**
   * IDs are the count plus one, so deleting any user but the newest and then
   * creating one gives two users the same ID.
   */
  lemma DeleteThenCreateReusesId(users: seq<User>, n: int, body: Decoded<User>, now: Timestamp)
    requires DenseIds(users) && 1 <= n < |users|
    requires Admits(Delete(users, FormatInt(n)).store, body)
    ensures var s := Create(Delete(users, FormatInt(n)).store, body, now).store;
      && |s| == |users|
      && s[|s| - 2].id == |users|
      && s[|s| - 1].id == |users|
  {
    DenseIdLookup(users, n);
    DeleteStoppedAt(users, FormatInt(n), n - 1);
    var d := Delete(users, FormatInt(n)).store;
    assert d == RemoveAt(users, n - 1);
    assert d[|d| - 1] == users[|users| - 1];
    var s := Create(d, body, now).store;
    assert s[|s| - 2] == d[|d| - 1];
  }
}
