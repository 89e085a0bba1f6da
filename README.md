# Developer connector: posts, registration and client auth state in Dafny

This project models three pieces of a social-profile web application
(an Express REST API over MongoDB with a React/Redux client):

- **Post engagement and ownership** (`posts.dfy`, module `Posts`): creating,
  reading and deleting a post, liking and unliking it, and adding and deleting
  comments. The handlers are methods of a `PostStore` class whose `posts`
  field maps post ids to post documents. Each handler reads a copy of the
  document, edits its `likes` or `comments` array and writes the whole
  document back. New likes and comments go in front (`unshift`). Removals use
  `splice` at an index computed with `map(...).indexOf(...)`. Author checks run
  before any write, and every error path leaves the store unchanged. The
  store's invariant is that a user likes a post at most once and that comment
  ids are unique within a post. Every handler preserves it.
- **The JavaScript array primitives** the handlers rely on (`seqs.dfy`, module
  `Seqs`): `filter`, `map`, `indexOf` (-1 when absent), `find`, and
  `splice(start, 1)`. For `splice`, a negative start counts from the end, as
  in JavaScript. `Filter`, `Map`, `IndexOf` and `Find` each carry their own
  contract. The removal idiom built from them, `splice(map(...).indexOf(...), 1)`,
  is proved equal to an independent reference definition, `RemoveFirst`, which
  removes the first element with a given key.
- **Client authentication reducer** (`auth_reducer.dfy`, module
  `AuthReducer`): a pure transition function over `{token, isAuthenticated,
  loading, user}`. The browser storage slot for the token is an extra state
  field, `storedToken`. The lemmas state each action's effect, frame
  conditions and idempotence of the session-ending actions. One invariant,
  `Coherent`, holds in every reachable state. A second one, `Mirrored` (the
  state's token equals the stored token), holds only while every sign-in
  payload carries a string token. The application's own registration never
  meets that condition: the register route answers the plain text
  'User registered' (routes/api/users.js:66), and the client dispatches that
  text as the REGISTER_SUCCESS payload (client/src/actions/auth.js:26-30).
  The payload therefore has no `token` key. Every real registration stores
  "undefined" and leaves the in-memory token as it was
  (`RegisterFromFreshStart`).
- **User registration** (`users.dfy`, module `Users`): every field rule is
  checked first, and all failures are reported together. An email already in
  use is then rejected. Otherwise exactly one record is appended, with the
  password replaced by its hash. The email test, the avatar URL and the hash
  are uninterpreted function-valued constants of the `Registry` class. If
  emails are unique before a registration, they are unique after it.

Comment deletion is modelled as written. The handler looks the comment up by
id and checks that comment's author. It then removes the element at the index
of the requester's *first* comment, found by author. When the requester has
an earlier comment on the same post, that earlier comment is removed and the
requested one stays. `DeleteCommentMayRemoveAnother` exhibits this on a
two-comment post. `DeleteCommentRemovesRequestedIff` states exactly when the
requested comment is the one removed.

Both removals are guarded: unlike checks presence first
(routes/api/posts.js:205-210), and comment deletion checks the found
comment's author (routes/api/posts.js:335). `SpliceAtIndexOf` proves that the
splice index is then never -1. A duplicate email answers 'This email is
already taken.' (routes/api/users.js:38), modelled as `Users.Error.EmailTaken`.

## Model

| member | source | states |
|---|---|---|
| `Seqs.Filter` | routes/api/posts.js:162-165 | the filtered likes all come from the original array and carry the requester's id; the result is empty exactly when no like has that id |
| `Seqs.Map` | routes/api/posts.js:213-214 | the mapped array has the same length, and each entry is the key of the element at the same position |
| `Seqs.IndexOf` | routes/api/posts.js:213-215 | the result is -1 exactly when the value is absent; otherwise it is a position holding the value, and no earlier position holds it |
| `Seqs.Find` | routes/api/posts.js:319-321 | the result is none exactly when no comment has the id; otherwise it is the element at the first position with that id |
| `Seqs.Splice` | routes/api/posts.js:217 | at a valid index, splice removes exactly that element and keeps the rest in order; any start from -length up to length-1 shortens the array by one; a start of -1 drops the last element; a start past the end changes nothing |
| `Seqs.RemoveFirstAt` | routes/api/posts.js:212-217 | removing the first like of a user deletes the element at that user's first position; the others keep their order, and the length drops by one |
| `Seqs.SpliceAtIndexOf` | routes/api/posts.js:204-217 | once a presence check has passed, `splice(map(key).indexOf(k), 1)` gets an index in range, that index is the first with key k, and the splice equals the reference `RemoveFirst` |
| `Seqs.RemoveFirstKeepsDistinct` | routes/api/posts.js:204-217 | if likes are unique per user, they stay unique after a removal, and the removed user has no like left |
| `Seqs.PrependFreshKeepsDistinct` | routes/api/posts.js:161-169 | putting a like in front for a user without one keeps likes unique per user |
| `Seqs.AppendFreshKeepsDistinct` | routes/api/users.js:33-62 | inserting a record whose email is not yet used keeps emails unique |
| `Posts.PostStore.CreatePost` | routes/api/posts.js:14-51 | empty text gives ValidationFailed before any lookup; an unknown requester gives UserNotFound; otherwise exactly one new post is stored, with the requester as author, name and avatar copied from their record, and no likes or comments; errors leave the store unchanged |
| `Posts.PostStore.GetPost` | routes/api/posts.js:69-96 | returns the stored post, or NotFound when the id is not stored |
| `Posts.PostStore.DeletePost` | routes/api/posts.js:101-142 | a missing post gives NotFound; a requester who is not the author gives Unauthorized and the post stays; only the author's request removes that post, and only that post |
| `Posts.PostStore.LikePost` | routes/api/posts.js:147-185 | a missing post gives NotFound; a requester who already likes the post gives AlreadyLiked with nothing changed; otherwise the new likes are the requester's like followed by the old likes in order; likes stay unique per user |
| `Posts.PostStore.UnlikePost` | routes/api/posts.js:190-234 | a missing post gives NotFound; a requester with no like gives NotLiked with nothing changed; otherwise the requester's first like is removed, the length drops by one, the others keep their order, and the requester no longer likes the post |
| `Posts.PostStore.AddComment` | routes/api/posts.js:239-299 | empty text gives ValidationFailed before any read; checks run in order: unknown requester gives UserNotFound, then a missing post gives NotFound; otherwise a comment by the requester, with the given text and with name and avatar copied from their record, is put in front of the old comments |
| `Posts.PostStore.DeleteComment` | routes/api/posts.js:304-368 | a missing post gives NotFound; an absent comment id gives CommentNotFound; a comment by someone else gives Unauthorized; in all three the store is unchanged; otherwise the removed comment is the requester's first comment, one element goes, and the others keep their order |
| `Posts.CommentRemoval` | routes/api/posts.js:319-350 | once the found comment's author is the requester, the author-based splice index is in range and removes the requester's first comment; comment ids stay unique |
| `Posts.LikeThenUnlike` | routes/api/posts.js:161-217 | liking and then unliking a post the requester did not like gives back the original likes |
| `Posts.DeleteCommentMayRemoveAnother` | routes/api/posts.js:319-350 | on comments [c1, c2] by the same author, a request for c2 finds c2 and passes the author check, but the splice leaves [c2] |
| `Posts.DeleteCommentRemovesRequestedIff` | routes/api/posts.js:334-350 | with unique comment ids, a requester's comment at position i survives the handler's removal exactly when the requester has an earlier comment on the post |
| `AuthReducer.Initial` | client/src/reducers/auth.js:12-21 | `initialState`: the state it builds is coherent, and its token equals the stored token; its field values are stated by `InitialState` |
| `AuthReducer.SignIn` | client/src/reducers/auth.js:33-42 | the REGISTER_SUCCESS/LOGIN_SUCCESS branch: isAuthenticated is true and loading false whatever the payload says, storage receives the string form of the payload's token, and the result is coherent; the overlay is stated by `SignInEffect` |
| `AuthReducer.SignOut` | client/src/reducers/auth.js:43-55 | the session-ending branch: null token, storage cleared, isAuthenticated false, loading false, user unchanged, result coherent |
| `AuthReducer.Reduce` | client/src/reducers/auth.js:23-59 | the `switch`: only USER_LOADED and a sign-in payload carrying `user` change the user; USER_LOADED and unknown actions leave storage alone; a coherent state stays coherent (loading exactly while isAuthenticated is null, no token in memory or storage when isAuthenticated is false); per-action effects are the lemmas below |
| `AuthReducer.InitialState` | client/src/reducers/auth.js:12-21 | the initial token is what storage holds; isAuthenticated is null, loading is true, and user is null |
| `AuthReducer.UserLoadedEffect` | client/src/reducers/auth.js:26-32 | USER_LOADED sets isAuthenticated true, loading false and user to the payload; the token and storage are untouched |
| `AuthReducer.SignInEffect` | client/src/reducers/auth.js:33-42 | REGISTER_SUCCESS and LOGIN_SUCCESS overlay the payload's keys (token, user); loading ends false and isAuthenticated ends true whatever the payload says; storage receives the payload's token |
| `AuthReducer.SignInStoresToken` | client/src/reducers/auth.js:33-42 | with a string token in the payload, the state's token and the stored token are both that token |
| `AuthReducer.SignInWithoutToken` | client/src/reducers/auth.js:36-42 | a payload without a token key keeps the old token in the state but stores the string "undefined" |
| `AuthReducer.SignOutEffect` | client/src/reducers/auth.js:43-55 | the five failure, logout and account-deleted actions give a null token, clear storage, set loading false and isAuthenticated false, and leave user unchanged |
| `AuthReducer.SignOutAbsorbs` | client/src/reducers/auth.js:43-55 | a session-ending action applied after a session-ending action changes nothing, so each one is idempotent |
| `AuthReducer.UnknownActionIsIdentity` | client/src/reducers/auth.js:56-57 | an unrecognised action returns the state unchanged |
| `AuthReducer.ReduceAllCoherent` | client/src/reducers/auth.js:23-59 | any sequence of actions keeps a coherent state coherent |
| `AuthReducer.ReachableCoherent` | client/src/reducers/auth.js:12-59 | every state reachable from the initial state is coherent |
| `AuthReducer.ReduceAllMirrored` | client/src/reducers/auth.js:33-55 | if every sign-in payload carries a string token, a state whose token equals the stored token keeps that equality |
| `AuthReducer.ReachableMirrored` | client/src/reducers/auth.js:12-59 | from the initial state, with string tokens in every sign-in payload, the in-memory and stored tokens never diverge |
| `AuthReducer.RegisterFromFreshStart` | client/src/reducers/auth.js:33-42 | REGISTER_SUCCESS with the payload the register route actually sends (no `token` key), applied to a fresh state, gives no token in memory but "undefined" in storage, so the two diverge |
| `Users.Validate` | routes/api/users.js:15-27 | the error list names the name rule exactly when the name is empty, the email rule exactly when the email test fails, and the password rule exactly when the password has fewer than 6 characters; it holds nothing else, each rule appears at most once, and the rules appear in declaration order (name, email, password) |
| `Users.ValidateAccepts` | routes/api/users.js:15-27 | validation passes exactly when all three rules hold |
| `Users.Registry.Register` | routes/api/users.js:13-72 | failing rules give a 400 listing every failure, with no store access; a used email gives EmailTaken with the store unchanged; otherwise exactly one record is appended, with the given name and email, the avatar derived from the email, and the password replaced by hash(password, salt); unique emails stay unique |
| `Users.RegisteredEmailIsTaken` | routes/api/users.js:33-42 | after a record is inserted, its email is found |
| `Users.RegisterTwice` | routes/api/users.js:33-62 | when a first registration succeeds, it appends exactly one record; a second registration with the same email is then rejected and adds nothing, and when it passes validation the rejection is EmailTaken |

## Left out

- Listing all posts (routes/api/posts.js:56-64): sorting by date is done by the database, and dates are not modelled.
- Creation timestamps of posts and comments: these are clock reads.
- Persistence: the database is an in-memory map (posts) or sequence (users). `findById`/`findOne` become lookups and `save`/`remove` become assignments.
- Fresh ids: ids for a new post, a new comment and a new user come from the database. Post and comment ids are parameters, and the store requires them to be unused.
- The `catch` paths: an ObjectId cast error answers 404 and any other exception answers 500 'Server Error'. A malformed post id is simply a key that is not stored, so it gives NotFound.
- HTTP status codes and response bodies: each error constructor documents its status and message in a comment. A successful registration is `Registered`; the source answers 'User registered'. A successful post deletion returns the id; the source answers 'Post removed'.
- Token middleware: the requester's id is an input to each handler.
- The user records read by the post handlers (`PostStore.users`) are kept apart from the registration collection (`Registry.users`); the model does not connect the two.
- Password hashing, salt generation (10 rounds), avatar URL generation and the email-shape test: these are library calls. They appear as uninterpreted functions, and the salt is an input.
- Reducer payloads: these are dynamically typed JavaScript values. The model gives the success payload only the four state keys, each present or absent, with the state's types. Extra keys that the spread would copy into the state are not modelled. These include the character-index keys that spreading the registration's plain-text answer produces. Payload values of unexpected types are not modelled either.
- Users.Validate: the password-length rule counts Dafny characters (Unicode scalar values). The validator library's own length rule is not modelled, just as its email test is not.
- Reducer storage read: the initial `localStorage.getItem('token')` is the parameter of `Initial`.
- Concurrency: the model is sequential. Two requests can both read and then save the same post, and the later save drops the earlier change. Two registrations with the same email can both pass the check before either inserts. Neither race is modelled.
