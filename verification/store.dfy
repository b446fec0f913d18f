/**
 * The process-wide record store: the `users` and `posts` slices and the
 * handlers that change them in place.  Each handler is proved to leave the
 * store, and to write the reply, that the matching function of UserStore or
 * PostStore describes.
 */
module Store {
  import opened Decimal
  import opened Http
  import opened Records
  import opened Auth
  import UserStore
  import PostStore

  class Store {
    var users: seq<User>
    var posts: seq<Post>

    /** Both collections start empty. */
    constructor ()
      ensures users == [] && posts == []
    {
      users := [];
      posts := [];
    }

    /** userExists: a linear scan for the username. */
    method UserExists(name: string) returns (found: bool)
      ensures found <==> HasUsername(users, name)
    {
      var i := 0;
      while i < |users|
        invariant 0 <= i <= |users|
        invariant forall j :: 0 <= j < i ==> users[j].username != name
      {
        if users[i].username == name {
          return true;
        }
        i := i + 1;
      }
      return false;
    }

    /** findPostByID: the first post with this ID, compared as an integer.  No handler calls it. */
    method FindPostByID(id: int) returns (found: Option<Post>)
      ensures found.None? <==> forall j :: 0 <= j < |posts| ==> posts[j].id != id
      ensures found.Some? ==> found.value.id == id
      ensures found.Some? ==> exists k :: 0 <= k < |posts| && posts[k] == found.value &&
                                          forall j :: 0 <= j < k ==> posts[j].id != id
    {
      var i := 0;
      while i < |posts|
        invariant 0 <= i <= |posts|
        invariant forall j :: 0 <= j < i ==> posts[j].id != id
      {
        if posts[i].id == id {
          return Some(posts[i]);
        }
        i := i + 1;
      }
      return None;
    }

    /**
     * The `for i, user := range users` loop of updateUser and deleteUser: the
     * position of the first user whose rendered ID equals the parameter, or
     * the count when there is none.
     */
    method UserIndex(id: string) returns (i: nat)
      ensures i <= |users|
      ensures i < |users| ==> FormatInt(users[i].id) == id
      ensures forall j :: 0 <= j < i ==> FormatInt(users[j].id) != id
    {
      i := 0;
      while i < |users| && FormatInt(users[i].id) != id
        invariant i <= |users|
        invariant forall j :: 0 <= j < i ==> FormatInt(users[j].id) != id
      {
        i := i + 1;
      }
    }

    /** The same loop over the posts, in updatePost and deletePost. */
    method PostIndex(id: string) returns (i: nat)
      ensures i <= |posts|
      ensures i < |posts| ==> FormatInt(posts[i].id) == id
      ensures forall j :: 0 <= j < i ==> FormatInt(posts[j].id) != id
    {
      i := 0;
      while i < |posts| && FormatInt(posts[i].id) != id
        invariant i <= |posts|
        invariant forall j :: 0 <= j < i ==> FormatInt(posts[j].id) != id
      {
        i := i + 1;
      }
    }

    method GetUsers() returns (r: Reply<User>)
      ensures r == UserStore.List(users)
    {
      if |users| == 0 {
        r := MessageReply(StatusNotFound, "No users found");
        return;
      }
      r := Reply(StatusOK, Items(users));
    }

    method CreateUser(body: Decoded<User>, now: Timestamp) returns (r: Reply<User>)
      modifies this
      ensures Outcome(users, r) == UserStore.Create(old(users), body, now)
      ensures posts == old(posts)
    {
      match body
      case DecodeError(msg) =>
        r := ErrorReply(StatusBadRequest, msg);
      case Decoded(newUser) =>
        if !ValidateUserInput(newUser) {
          r := ErrorReply(StatusBadRequest, "Invalid user input");
          return;
        }
        var taken := UserExists(newUser.username);
        if taken {
          r := ErrorReply(StatusConflict, "User already exists");
          return;
        }
        var added := newUser.(id := |users| + 1, created := now);
        users := users + [added];
        r := Reply(StatusCreated, Item(added));
    }

    method UpdateUser(id: string, body: Decoded<User>) returns (r: Reply<User>)
      modifies this
      ensures Outcome(users, r) == UserStore.Update(old(users), id, body)
      ensures posts == old(posts)
    {
      var i := UserIndex(id);
      FirstMatchAt(UserIds(users), id, i);
      UserStore.UpdateStoppedAt(users, id, body, i);
      if i == |users| {
        r := MessageReply(StatusNotFound, "User not found");
        return;
      }
      match body
      case DecodeError(msg) =>
        r := ErrorReply(StatusBadRequest, msg);
      case Decoded(updated) =>
        users := users[i := users[i].(username := updated.username, email := updated.email, password := updated.password)];
        r := Reply(StatusOK, Item(users[i]));
    }

    method DeleteUser(id: string) returns (r: Reply<User>)
      modifies this
      ensures Outcome(users, r) == UserStore.Delete(old(users), id)
      ensures posts == old(posts)
    {
      var i := UserIndex(id);
      FirstMatchAt(UserIds(users), id, i);
      UserStore.DeleteStoppedAt(users, id, i);
      if i == |users| {
        r := MessageReply(StatusNotFound, "User not found");
        return;
      }
      users := RemoveAt(users, i);
      r := MessageReply(StatusOK, "User deleted");
    }

    method GetPosts() returns (r: Reply<Post>)
      ensures r == PostStore.List(posts)
    {
      if |posts| == 0 {
        r := MessageReply(StatusNotFound, "No posts found");
        return;
      }
      r := Reply(StatusOK, Items(posts));
    }

    method CreatePost(body: Decoded<Post>, now: Timestamp) returns (r: Reply<Post>)
      modifies this
      ensures Outcome(posts, r) == PostStore.Create(old(posts), body, now)
      ensures users == old(users)
    {
      match body
      case DecodeError(msg) =>
        r := ErrorReply(StatusBadRequest, msg);
      case Decoded(newPost) =>
        var added := newPost.(id := |posts| + 1, created := now);
        posts := posts + [added];
        r := Reply(StatusCreated, Item(added));
    }

    method UpdatePost(id: string, body: Decoded<Post>) returns (r: Reply<Post>)
      modifies this
      ensures Outcome(posts, r) == PostStore.Update(old(posts), id, body)
      ensures users == old(users)
    {
      var i := PostIndex(id);
      FirstMatchAt(PostIds(posts), id, i);
      PostStore.UpdateStoppedAt(posts, id, body, i);
      if i == |posts| {
        r := MessageReply(StatusNotFound, "Post not found");
        return;
      }
      match body
      case DecodeError(msg) =>
        r := ErrorReply(StatusBadRequest, msg);
      case Decoded(updated) =>
        posts := posts[i := posts[i].(title := updated.title, content := updated.content)];
        r := Reply(StatusOK, Item(posts[i]));
    }

    method DeletePost(id: string) returns (r: Reply<Post>)
      modifies this
      ensures Outcome(posts, r) == PostStore.Delete(old(posts), id)
      ensures users == old(users)
    {
      var i := PostIndex(id);
      FirstMatchAt(PostIds(posts), id, i);
      PostStore.DeleteStoppedAt(posts, id, i);
      if i == |posts| {
        r := MessageReply(StatusNotFound, "Post not found");
        return;
      }
      posts := RemoveAt(posts, i);
      r := MessageReply(StatusOK, "Post deleted");
    }

    /**
     * The authenticated route group: AuthMiddleware runs first and aborts a
     * request it rejects, so no post handler runs and the store is untouched.
     */
    method ServePosts(creds: BasicAuth, req: PostStore.PostRequest, now: Timestamp) returns (r: Reply<Post>)
      modifies this
      ensures Outcome(posts, r) == PostStore.Serve(old(posts), creds, req, now)
      ensures users == old(users)
    {
      if !Authorized(creds) {
        r := UnauthorizedReply();
        return;
      }
      match req
      case ListPosts =>
        r := GetPosts();
      case NewPost(body) =>
        r := CreatePost(body, now);
      case EditPost(id, body) =>
        r := UpdatePost(id, body);
      case RemovePost(id) =>
        r := DeletePost(id);
    }
  }
}
