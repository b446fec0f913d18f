# In-memory record store of the GinGo HTTP server

The server keeps two process-wide ordered collections, `users` and `posts`
(route.go:30-31), and serves CRUD handlers over them. The user routes are open.
The post routes sit behind a basic-auth gate that accepts exactly one identity
(`admin` / `password123`). This project models that store and its handlers:

- `decimal.dfy` (module `Decimal`) models `fmt.Sprintf("%d", id)`, which the
  update and delete handlers use to compare a record's ID with the `:id` path
  parameter. It proves that this rendering is a bijection onto the canonical
  decimal strings. So `"07"`, `"+7"` or `""` never match, and a rendered ID
  matches only itself.
- `http.dfy` (module `Http`) holds the framework's side of a handler: the
  decoded request body (`Decoded`: a record, or the binder's error text), the
  basic-auth credentials, the status codes, and the reply (status and JSON
  body).
- `records.dfy` (module `Records`) holds `User` and `Post`, the two validators,
  and the linear scan (`FirstMatch`) and slice splice (`RemoveAt`) that the
  handlers use.
- `users.dfy` and `posts.dfy` (modules `UserStore`, `PostStore`) describe each
  handler as a function from the collection before the request to the
  collection after it and the reply. Their contracts state each effect: which
  position changes, which fields change, the length, the order of the other
  records, and the status code. Lemmas relate several handlers: usernames stay
  unique under create and delete but not under update, and deleting then
  creating reuses an ID.
- `auth.dfy` (module `Auth`) is the credential check of `AuthMiddleware`.
- `store.dfy` (module `Store`) is the store itself: a class with the two
  collections as fields and one method per handler. Each method uses the
  source's loops and is proved to produce exactly the outcome that the
  matching `UserStore`/`PostStore` function describes.

Inputs the program gets from outside become parameters: the request body as
decoded by the binder, the basic-auth header, the path parameter, and the
current time (`Timestamp`).

## Model

| member | source | states |
|---|---|---|
| `Decimal.FormatInt` | route.go:138 | The `%d` rendering of an ID is non-empty and starts with '-' exactly when the ID is negative |
| `Decimal.FormatIntIsCanonical` | route.go:138 | Every rendering is canonical: digits after an optional '-', no leading zero, never "-0" |
| `Decimal.ParseFormat` | route.go:138 | Reading back the rendering of any integer gives that integer |
| `Decimal.FormatParse` | route.go:158 | Every canonical decimal string is the rendering of the integer it denotes |
| `Decimal.FormatIntInjective` | route.go:193 | Two IDs render to the same string exactly when they are equal |
| `Decimal.FormatIntMatches` | route.go:212 | A path parameter equals the rendering of ID n exactly when it is canonical and denotes n |
| `Records.ValidateUserInput` | route.go:66-68 | A new user is valid exactly when username, email and password are all non-empty |
| `Records.ValidatePostInput` | route.go:222-224 | A post is valid exactly when title and content are both non-empty |
| `Records.FirstMatch` | route.go:137-138 | The handlers' scan stops at the first record whose rendered ID equals the parameter, or at the end when none does |
| `Records.FirstMatchFindsId` | route.go:157-158 | With the rendering of n as parameter, the scan finds the first record whose ID is n, and reaches the end exactly when no ID is n |
| `Records.NonCanonicalMatchesNothing` | route.go:192-193 | A parameter `%d` cannot produce (leading zero, plus sign, empty) matches no record |
| `Records.RemoveAt` | route.go:159 | The splice drops the length by one and keeps the records before and after position k in their order |
| `Records.RemoveAtMultiset` | route.go:213 | The splice removes exactly one occurrence of the record at k and no other record |
| `UserStore.List` | route.go:105-111 | Listing answers 404 exactly when there are no users, and otherwise 200 with all users in order |
| `UserStore.Create` | route.go:114-132 | A body that does not decode gives 400, an empty required field gives 400, and a taken username gives 409; each leaves the users unchanged. Otherwise one user is appended, the earlier ones are unchanged, it gets ID = old count + 1, the body's username, email and password and the current time, and the reply is 201 with that user |
| `UserStore.Update` | route.go:135-152 | Length unchanged. 404 exactly when no rendered ID equals the parameter. 400 when a match exists but the body does not decode. On 200, only the first match changes: it takes the body's username, email and password and keeps its ID and creation time; every other user is unchanged. Every non-200 leaves the users unchanged |
| `UserStore.Delete` | route.go:155-165 | 404 exactly when no rendered ID matches, with the users unchanged. Otherwise the first match is removed: length drops by one and the records before and after keep their order. The reply is 200 |
| `UserStore.DeleteRemovesOneOccurrence` | route.go:157-160 | A successful delete removes one occurrence of the matched user and keeps every other user |
| `UserStore.CreateKeepsUsernamesUnique` | route.go:124-130 | If usernames are pairwise distinct before a create, they still are after it |
| `UserStore.DeleteKeepsUsernamesUnique` | route.go:157-161 | If usernames are pairwise distinct before a delete, they still are after it |
| `UserStore.UpdateCanDuplicateUsername` | route.go:144-146 | An update succeeds in giving a second user an existing username, so uniqueness is not kept by update |
| `UserStore.DenseIdLookup` | route.go:128 | In a store built by creations alone (IDs 1..n in order), the parameter "k" finds the k-th user |
| `UserStore.CreateUpdateKeepIdsDense` | route.go:128-146 | Create and update keep the IDs of such a store equal to 1..n |
| `UserStore.DeleteThenCreateReusesId` | route.go:128-130 | In such a store, deleting any user except the newest and then creating one leaves two users with the same ID |
| `Auth.Authorized` | route.go:45-51 | The gate passes exactly when credentials are present and equal admin / password123 |
| `Auth.UnauthorizedReply` | route.go:47 | A rejected request is answered with 401 |
| `PostStore.List` | route.go:168-174 | Listing answers 404 exactly when there are no posts, and otherwise 200 with all posts in order |
| `PostStore.Create` | route.go:177-187 | A body that does not decode gives 400 with the posts unchanged. Any decoded post, with no field checks, is appended after the unchanged earlier posts. It gets ID = old count + 1, keeps the body's title, content and owner ID, and gets the current time. The reply is 201 with that post |
| `PostStore.Update` | route.go:190-206 | Length unchanged. 404 exactly when no rendered ID matches. 400 on a decode failure after a match. On 200, only the first match changes: it takes the body's title and content and keeps its ID, owner ID and creation time; every other post is unchanged |
| `PostStore.Delete` | route.go:209-219 | 404 exactly when no rendered ID matches, with the posts unchanged. Otherwise the first match is removed: length drops by one and the order of the rest is kept. The reply is 200 |
| `PostStore.DeleteRemovesOneOccurrence` | route.go:211-214 | A successful delete removes one occurrence of the matched post and keeps every other post |
| `PostStore.Serve` | route.go:43-53 | A request to the post group without the admin credentials gets 401 and leaves the posts unchanged. 401 is answered exactly when the gate rejects. An accepted request gets exactly the outcome of its handler |
| `PostStore.EmptyPostIsCreated` | route.go:179-186 | A post with empty title and content fails validatePostInput and is still created with 201 |
| `Store.Store.constructor` | route.go:30-31 | Both collections start empty |
| `Store.Store.UserExists` | route.go:56-63 | The scan returns true exactly when some stored user has the given username |
| `Store.Store.FindPostByID` | route.go:227-234 | None exactly when no post has the ID (compared as integers); otherwise the first post with that ID |
| `Store.Store.UserIndex` | route.go:137-138 | The range loop over users stops at the first user whose rendered ID equals the parameter, or at the count when none does |
| `Store.Store.PostIndex` | route.go:192-193 | The range loop over posts stops at the first post whose rendered ID equals the parameter, or at the count when none does |
| `Store.Store.GetUsers` | route.go:105-111 | Returns the reply `UserStore.List` gives for the current users and changes nothing |
| `Store.Store.CreateUser` | route.go:114-132 | The new users and the reply are those `UserStore.Create` gives for the old users; posts unchanged |
| `Store.Store.UpdateUser` | route.go:135-152 | The scan and the in-place field update leave the users and writes the reply that `UserStore.Update` gives; posts unchanged |
| `Store.Store.DeleteUser` | route.go:155-165 | The scan and the splice leave the users and write the reply that `UserStore.Delete` gives; posts unchanged |
| `Store.Store.GetPosts` | route.go:168-174 | Returns the reply `PostStore.List` gives for the current posts and changes nothing |
| `Store.Store.CreatePost` | route.go:177-187 | The new posts and the reply are those `PostStore.Create` gives; users unchanged |
| `Store.Store.UpdatePost` | route.go:190-206 | The scan and the in-place field update leave the posts and writes the reply that `PostStore.Update` gives; users unchanged |
| `Store.Store.DeletePost` | route.go:209-219 | The scan and the splice leave the posts and write the reply that `PostStore.Delete` gives; users unchanged |
| `Store.Store.ServePosts` | route.go:43-53 | The gate followed by the chosen post handler leaves the posts and writes the reply that `PostStore.Serve` gives; users unchanged |

## Left out

- main.go: it only starts a second server that renders an HTML template, so it has no store logic.
- Route wiring in `hew` and `router.Run` (route.go:81-102) are framework set-up. The grouping they set up is kept: post requests go through `ServePosts` and user requests go straight to their handlers.
- `LoggerMiddleware` and `logRequest` (route.go:71-78, 237-246) only measure wall-clock latency and write log lines.
- `complexBusinessLogic` and `simulateTransaction` (route.go:249-266) only sleep. `healthCheck` and `handleBindError` (route.go:256-271) write fixed replies, and no route uses them.
- JSON decoding is left out because it is the framework's: gin's `BindJSON` is an input that is either a decoded record or an error text. The model does not decide which bodies fail, or which fields a partial body leaves empty. Parsing the `Authorization` header is an input too (`BasicAuth`), and so is encoding the reply as JSON (`Reply`).
- `time.Now()` is a `Timestamp` parameter, and creation times are opaque values.
- Concurrency is left out: the source shares the two slices between requests without locking, and the model runs one request at a time.
- Go's 64-bit `int` is not modelled: IDs and counts are unbounded integers. An ID is the count plus one, so it stays far below the 64-bit limit.
- The four `for i, r := range ...` loops are one scan method per collection (`UserIndex`, `PostIndex`), and the handler acts after the scan returns. The source acts inside the loop and returns at once, which has the same effect.
- Slice aliasing is not modelled. `append(users[:i], users[i+1:]...)` shifts records inside the same backing array. The model keeps only the resulting sequence.
- Store.Store.FindPostByID returns the post by value. The source returns the address of the loop variable's copy, which does not alias the stored post either.
- The dummy user's ID, email and creation time (route.go:34-40) are left out because nothing reads them. Only its username and password are modelled, as the constants of `Auth`.
