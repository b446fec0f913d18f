/**
 * The post handlers (getPosts, createPost, updatePost, deletePost) as
 * functions from the store before the request to the store after it and the
 * reply written, and the authenticated route group that serves them.
 */
module PostStore {
  import opened Decimal
  import opened Http
  import opened Records
  import opened Auth

  /** getPosts: an empty store is reported as "not found", never as an empty array. */
  function List(posts: seq<Post>): (r: Reply<Post>)
    ensures r.status == StatusNotFound <==> |posts| == 0
    ensures |posts| > 0 ==> r == Reply(StatusOK, Items(posts))
  {
    if |posts| == 0 then MessageReply(StatusNotFound, "No posts found")
    else Reply(StatusOK, Items(posts))
  }

  /**
   * createPost: any body that decodes is appended with the old count plus one
   * as its ID; title and content are not checked and the owner's ID is kept
   * as sent.
   */
  function Create(posts: seq<Post>, body: Decoded<Post>, now: Timestamp): (o: Outcome<Post>)
    ensures body.DecodeError? ==> o == Outcome(posts, ErrorReply(StatusBadRequest, body.message))
    ensures body.Decoded? ==>
      && |o.store| == |posts| + 1
      && o.store[..|posts|] == posts
      && o.store[|posts|].id == |posts| + 1
      && o.store[|posts|].title == body.value.title
      && o.store[|posts|].content == body.value.content
      && o.store[|posts|].userId == body.value.userId
      && o.store[|posts|].created == now
      && o.reply == Reply(StatusCreated, Item(o.store[|posts|]))
  {
    match body
    case DecodeError(msg) => Outcome(posts, ErrorReply(StatusBadRequest, msg))
    case Decoded(p) =>
      var added := p.(id := |posts| + 1, created := now);
      Outcome(posts + [added], Reply(StatusCreated, Item(added)))
  }

  /**
   * updatePost: the first post whose rendered ID equals the parameter gets the
   * body's title and content; its ID, owner and creation time stay.
   */
  function Update(posts: seq<Post>, id: string, body: Decoded<Post>): (o: Outcome<Post>)
    ensures |o.store| == |posts|
    ensures o.reply.status == StatusNotFound <==> forall j :: 0 <= j < |posts| ==> FormatInt(posts[j].id) != id
    ensures o.reply.status != StatusOK ==> o.store == posts
    ensures var k := FirstMatch(PostIds(posts), id);
      if k == |posts| then o.reply == MessageReply(StatusNotFound, "Post not found")
      else if body.DecodeError? then o.reply == ErrorReply(StatusBadRequest, body.message)
      else
        && (forall j :: 0 <= j < |posts| && j != k ==> o.store[j] == posts[j])
        && o.store[k].id == posts[k].id
        && o.store[k].userId == posts[k].userId
        && o.store[k].created == posts[k].created
        && o.store[k].title == body.value.title
        && o.store[k].content == body.value.content
        && o.reply == Reply(StatusOK, Item(o.store[k]))
  {
    var k := FirstMatch(PostIds(posts), id);
    if k == |posts| then Outcome(posts, MessageReply(StatusNotFound, "Post not found"))
    else match body
      case DecodeError(msg) => Outcome(posts, ErrorReply(StatusBadRequest, msg))
      case Decoded(p) =>
        var changed := posts[k].(title := p.title, content := p.content);
        Outcome(posts[k := changed], Reply(StatusOK, Item(changed)))
  }

  /** deletePost: the first post whose rendered ID equals the parameter is spliced out. */
  function Delete(posts: seq<Post>, id: string): (o: Outcome<Post>)
    ensures o.reply.status == StatusNotFound <==> forall j :: 0 <= j < |posts| ==> FormatInt(posts[j].id) != id
    ensures var k := FirstMatch(PostIds(posts), id);
      if k == |posts| then o == Outcome(posts, MessageReply(StatusNotFound, "Post not found"))
      else
        && |o.store| == |posts| - 1
        && o.store[..k] == posts[..k]
        && o.store[k..] == posts[k + 1..]
        && o.reply == MessageReply(StatusOK, "Post deleted")
  {
    var k := FirstMatch(PostIds(posts), id);
    if k == |posts| then Outcome(posts, MessageReply(StatusNotFound, "Post not found"))
    else Outcome(RemoveAt(posts, k), MessageReply(StatusOK, "Post deleted"))
  }

  /** A successful delete removes one occurrence of the matched post; every other one stays. */
  lemma DeleteRemovesOneOccurrence(posts: seq<Post>, id: string)
    requires FirstMatch(PostIds(posts), id) < |posts|
    ensures var k := FirstMatch(PostIds(posts), id);
      multiset(Delete(posts, id).store) + multiset{posts[k]} == multiset(posts)
  {
    var k := FirstMatch(PostIds(posts), id);
    DeleteStoppedAt(posts, id, k);
    RemoveAtMultiset(posts, k);
  }

  /** Update once the scan has stopped at position k (used by the Store methods). */
  lemma UpdateStoppedAt(posts: seq<Post>, id: string, body: Decoded<Post>, k: nat)
    requires FirstMatch(PostIds(posts), id) == k
    ensures k == |posts| ==> Update(posts, id, body) == Outcome(posts, MessageReply(StatusNotFound, "Post not found"))
    ensures k < |posts| && body.DecodeError? ==> Update(posts, id, body) == Outcome(posts, ErrorReply(StatusBadRequest, body.message))
    ensures k < |posts| && body.Decoded? ==> var u := body.value;
      Update(posts, id, body) == Outcome(posts[k := posts[k].(title := u.title, content := u.content)], Reply(StatusOK, Item(posts[k].(title := u.title, content := u.content))))
  {
  }

  /** Delete once the scan has stopped at position k (used by the Store methods). */
  lemma DeleteStoppedAt(posts: seq<Post>, id: string, k: nat)
    requires FirstMatch(PostIds(posts), id) == k
    ensures k == |posts| ==> Delete(posts, id) == Outcome(posts, MessageReply(StatusNotFound, "Post not found"))
    ensures k < |posts| ==> Delete(posts, id) == Outcome(RemoveAt(posts, k), MessageReply(StatusOK, "Post deleted"))
  {
  }

  /** The four routes of the authenticated group. */
  datatype PostRequest =
    | ListPosts
    | NewPost(body: Decoded<Post>)
    | EditPost(id: string, body: Decoded<Post>)
    | RemovePost(id: string)

  /**
   * A request to the authenticated group: the gate runs first and a rejected
   * request never reaches a handler, so the store is untouched.
   */
  function Serve(posts: seq<Post>, creds: BasicAuth, req: PostRequest, now: Timestamp): (o: Outcome<Post>)
    ensures !Authorized(creds) ==> o == Outcome(posts, UnauthorizedReply())
    ensures o.reply.status == StatusUnauthorized <==> !Authorized(creds)
    ensures Authorized(creds) ==> match req
      case ListPosts => o == Outcome(posts, List(posts))
      case NewPost(body) => o == Create(posts, body, now)
      case EditPost(id, body) => o == Update(posts, id, body)
      case RemovePost(id) => o == Delete(posts, id)
  {
    if !Authorized(creds) then Outcome(posts, UnauthorizedReply())
    else match req
      case ListPosts => Outcome(posts, List(posts))
      case NewPost(body) => Create(posts, body, now)
      case EditPost(id, body) => Update(posts, id, body)
      case RemovePost(id) => Delete(posts, id)
  }

  /** validatePostInput is never called on the create path: an empty post is stored. */
  lemma EmptyPostIsCreated(posts: seq<Post>, now: Timestamp)
    ensures var p := Post(0, "", "", 0, now);
      && !ValidatePostInput(p)
      && Create(posts, Decoded(p), now).reply.status == StatusCreated
      && |Create(posts, Decoded(p), now).store| == |posts| + 1
  {
  }
}
