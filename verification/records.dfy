/**
 * The two record types of the store, the input validators, and the linear
 * scans the handlers use to find a record.
 */
module Records {
  import opened Decimal

  /** A creation time; the model never inspects it. */
  datatype Timestamp = Timestamp(unixNanos: int)

  datatype User = User(id: int, username: string, email: string, password: string, created: Timestamp)

  datatype Post = Post(id: int, title: string, content: string, userId: int, created: Timestamp)

  datatype Option<T> = None | Some(value: T)

  /** validateUserInput: every required field of a new user is non-empty. */
  function ValidateUserInput(u: User): (ok: bool)
    ensures ok <==> |u.username| > 0 && |u.email| > 0 && |u.password| > 0
  {
    u.username != "" && u.email != "" && u.password != ""
  }

  /** validatePostInput: title and content are non-empty.  No handler calls it. */
  function ValidatePostInput(p: Post): (ok: bool)
    ensures ok <==> |p.title| > 0 && |p.content| > 0
  {
    p.title != "" && p.content != ""
  }

  /** Some stored user has this username. */
  predicate HasUsername(users: seq<User>, name: string) {
    exists i :: 0 <= i < |users| && users[i].username == name
  }

  /** No two stored users share a username. */
  predicate UniqueUsernames(users: seq<User>) {
    forall i, j :: 0 <= i < j < |users| ==> users[i].username != users[j].username
  }

  function UserIds(users: seq<User>): (ids: seq<int>)
    ensures |ids| == |users|
    ensures forall i :: 0 <= i < |users| ==> ids[i] == users[i].id
  {
    seq(|users|, i requires 0 <= i < |users| => users[i].id)
  }

  function PostIds(posts: seq<Post>): (ids: seq<int>)
    ensures |ids| == |posts|
    ensures forall i :: 0 <= i < |posts| ==> ids[i] == posts[i].id
  {
    seq(|posts|, i requires 0 <= i < |posts| => posts[i].id)
  }

  /**
   * The position the handlers' `for i, r := range ...` loop stops at: the
   * first ID whose decimal rendering equals the path parameter, or |ids| when
   * there is none.
   */
  function FirstMatch(ids: seq<int>, param: string): (k: nat)
    ensures k <= |ids|
    ensures k < |ids| ==> FormatInt(ids[k]) == param
    ensures forall j :: 0 <= j < k ==> FormatInt(ids[j]) != param
  {
    FirstMatchFrom(ids, param, 0)
  }

  /** The same scan, started at position `from`. */
  function FirstMatchFrom(ids: seq<int>, param: string, from: nat): (k: nat)
    requires from <= |ids|
    ensures from <= k <= |ids|
    ensures k < |ids| ==> FormatInt(ids[k]) == param
    ensures forall j :: from <= j < k ==> FormatInt(ids[j]) != param
    decreases |ids| - from
  {
    if from == |ids| then from
    else if FormatInt(ids[from]) == param then from
    else FirstMatchFrom(ids, param, from + 1)
  }

  /** A scan that has passed k mismatches and stops at a match (or at the end) stops where FirstMatch does. */
  lemma FirstMatchAt(ids: seq<int>, param: string, k: nat)
    requires k <= |ids|
    requires forall j :: 0 <= j < k ==> FormatInt(ids[j]) != param
    requires k < |ids| ==> FormatInt(ids[k]) == param
    ensures FirstMatch(ids, param) == k
  {
  }

  /** A parameter that is a rendered ID finds the first record with exactly that ID. */
  lemma FirstMatchFindsId(ids: seq<int>, n: int)
    ensures var k := FirstMatch(ids, FormatInt(n));
      && (k < |ids| ==> ids[k] == n)
      && (forall j :: 0 <= j < k ==> ids[j] != n)
      && (k == |ids| <==> n !in ids)
  {
    var k := FirstMatch(ids, FormatInt(n));
    if k < |ids| {
      FormatIntInjective(ids[k], n);
    }
  }

  /** A parameter `%d` cannot print (such as "07", "+7" or "") finds nothing. */
  lemma NonCanonicalMatchesNothing(ids: seq<int>, param: string)
    requires !IsCanonicalInt(param)
    ensures FirstMatch(ids, param) == |ids|
  {
    var k := FirstMatch(ids, param);
    if k < |ids| {
      FormatIntIsCanonical(ids[k]);
    }
  }

  /** `append(s[:k], s[k+1:]...)`: the slice without its element at k. */
  function RemoveAt<T>(s: seq<T>, k: nat): (r: seq<T>)
    requires k < |s|
    ensures |r| == |s| - 1
    ensures forall j :: 0 <= j < k ==> r[j] == s[j]
    ensures forall j :: k <= j < |r| ==> r[j] == s[j + 1]
  {
    s[..k] + s[k + 1..]
  }

  /** The splice removes exactly one occurrence of the element at k and nothing else. */
  lemma RemoveAtMultiset<T>(s: seq<T>, k: nat)
    requires k < |s|
    ensures multiset(RemoveAt(s, k)) + multiset{s[k]} == multiset(s)
  {
    assert s == s[..k] + [s[k]] + s[k + 1..];
  }
}
