# Blog post store

A model of the in-memory blog API in `index.js`: an ordered list of posts
`{id, title, content, author, date}` and a `lastId` counter, seeded with
posts 1–3 and `lastId = 3`, behind five routes — GET /posts, GET /posts/:id,
POST /posts, PATCH /posts/:id and DELETE /posts/:id.

- `wrappers.dfy` (`Wrappers`): `Option`, for a body field that may be absent
  and a path id that may not parse.
- `decimal.dfy` (`Decimal`): how an integer id is written into the
  not-found message of GET /posts/:id, with a reader that takes the text back.
- `posts.dfy` (`Posts`): the values — `Post`, the request `Body`, the
  `Response` (its constructor fixes the HTTP status: 200, 201, 204, 400,
  404), the `Table` of posts and counter — and one function per handler
  (`ListReply`, `GetReply`, `CreateStep`, `PatchStep`, `DeleteStep`) giving
  the table after the request and the response. `Handle` dispatches a
  `Request`; `Run` handles a sequence of them.
- `post_store.dfy` (`PostStore`): the store as the source has it, an object
  whose `posts` and `lastId` fields the handlers update in place (append,
  index assignment, splice, pre-increment). Every method is proved to leave
  the state and answer exactly as the handler function says, and to keep
  the invariant `Valid()`: ids are positive, pairwise distinct and at most
  `lastId`, and no stored post has an empty title, content or author.
- `post_properties.dfy` (`PostProperties`): what the handlers promise —
  the invariant holds at start-up and after every request, reads and failed
  requests change nothing, a successful request touches only its entry,
  created ids strictly increase over any run of requests and never equal an
  id the store ever held — and the worked examples of the service's
  documented behaviour.

Conventions: a body field is `Option<string>`, and `None` or `""` counts
as missing, as JavaScript's truthiness test does for strings. The path id is
`Option<int>`, with `None` standing for the `NaN` that `parseInt` yields on
text that is not a number; `NaN` equals no id. The current time is the
`now` parameter of create and patch.

The new id of a create is `lastId + 1` as the code computes it
(index.js:101), not "the largest stored id plus one": the two differ once
the newest post has been deleted, and the model follows the code.

## Model

| member | source | states |
|---|---|---|
| `Posts.IndexOf` | index.js:59 | the result is the index of the first post whose id equals the requested one; none when no post matches or the id is NaN |
| `Posts.Missing` | index.js:80-91 | the names of the missing fields: each is a field name, they come in the order title, content, author, a name is listed iff its field is absent or empty, and the list is empty iff all three are supplied |
| `PostStore.FindIndex` | index.js:123 | the linear search returns the first matching index, the same as `IndexOf` |
| `PostStore.MissingFields` | index.js:80-91 | the names pushed one check at a time are exactly `Missing(b)` |
| `PostStore.Store.constructor` | index.js:8-35 | the store starts as the three seed posts with `lastId` 3, and the invariant (distinct ids at most `lastId`, no empty text field) holds |
| `PostStore.Store.List` | index.js:43-51 | answers the whole post list, or 404 "No posts found" when it is empty; changes nothing |
| `PostStore.Store.Get` | index.js:55-67 | answers the first post with the id, or 404 naming the id; changes nothing |
| `PostStore.Store.Create` | index.js:71-112 | new state and answer are those of `CreateStep` on the old state; the invariant is kept |
| `PostStore.Store.Patch` | index.js:115-152 | new state and answer are those of `PatchStep` on the old state; the invariant is kept |
| `PostStore.Store.Delete` | index.js:155-172 | new state and answer are those of `DeleteStep` on the old state; the invariant is kept |
| `Decimal.NatText` | index.js:66 | the text of a natural number is a non-empty string of digits with no leading zero |
| `Decimal.NatTextRoundTrip` | index.js:66 | reading the digits back gives the number |
| `Decimal.IntTextRoundTrip` | index.js:66 | the text of an integer id reads back as that id, so the not-found message names the requested id |
| `PostProperties.IndexOfUnique` | index.js:59 | with distinct ids, searching for a stored post's id finds exactly that post's index |
| `PostProperties.SeedListing` | index.js:8-35 | the start-up store satisfies the id invariant, has no empty text field, and lists three posts with the three seed titles in order |
| `PostProperties.ListReturnsAllPosts` | index.js:46-51 | listing succeeds iff the store is non-empty, then with exactly the stored posts in order; otherwise it is 404 "No posts found" |
| `PostProperties.GetReturnsTheMatch` | index.js:56-67 | with the invariant, get answers the one post carrying the id; when none carries it (NaN included) it answers 404 with the id in the message |
| `PostProperties.CreateOutcome` | index.js:77-110 | a missing field gives 400 naming the missing fields and no change; otherwise `lastId` grows by one, the new post carries that id, the supplied fields and `now`, is appended after the unchanged earlier posts, has an id above every stored id, and the invariant is kept |
| `PostProperties.PatchAbsent` | index.js:123-128 | patch of an id no post has is 404 "Post not found." whatever the body holds, with no change |
| `PostProperties.PatchFound` | index.js:131-151 | patch of a stored post with no usable field is 400 "No fields provided for update." with no change; otherwise only that entry is replaced, its id is kept, each field takes the supplied non-empty value or keeps the old one, the date becomes `now`, `lastId` stays and the invariant is kept |
| `PostProperties.DeleteAbsent` | index.js:159-164 | delete of an id no post has is 404 "Post not found." with no change |
| `PostProperties.DeleteFound` | index.js:166-169 | delete of a stored post answers 204 and splices out exactly that entry: the rest keep their order, a post remains iff it was stored and has another id, `lastId` stays and the invariant is kept |
| `PostProperties.RemoveAtShifts` | index.js:168 | after the splice, entries before the removed one keep their index and later ones move down by one |
| `PostProperties.RemoveKeepsWellFormed` | index.js:168 | the splice keeps ids distinct, positive and at most `lastId` |
| `PostProperties.RemoveKeepsOthers` | index.js:168 | the splice keeps every post but the removed id's |
| `PostProperties.DeleteTwice` | index.js:159-169 | after a delete no post has the id, so a second delete is 404 with no change and a get is 404 |
| `PostProperties.HandleKeepsWellFormed` | index.js:100-168 | every request keeps ids distinct, positive and at most `lastId` |
| `PostProperties.HandleFailureChangesNothing` | index.js:43-172 | list and get never change the store, and a request answered 400 or 404 leaves it exactly as it was |
| `PostProperties.HandleCounter` | index.js:101 | `lastId` grows by one exactly when a post is created, and the created post carries the new value |
| `PostProperties.RunKeepsWellFormed` | index.js:8-172 | from a store satisfying the invariant, any sequence of requests ends in one that satisfies it |
| `PostProperties.HandleKeepsFilled` | index.js:77-146 | every request keeps the title, content and author of every stored post non-empty: a create admits only supplied fields, a patch takes a supplied non-empty value or keeps the old one, a delete only removes |
| `PostProperties.RunKeepsFilled` | index.js:8-172 | from a store satisfying the id invariant with no empty text field, any sequence of requests ends in a store with no empty text field |
| `PostProperties.RunIdsNeverReused` | index.js:101 | over any sequence of requests the ids of created posts strictly increase, lie above the starting `lastId` and at most the final one, and the final `lastId` is at least the starting one |
| `PostProperties.RunCreatesFreshIds` | index.js:101 | no post created during a run gets the id of a post stored when the run began, whatever was deleted in between |
| `PostProperties.NothingUsable` | index.js:83-91 | a body with all three fields missing lists them as title, content, author |
| `PostProperties.NothingUsableListed` | index.js:83-94 | with no usable field, the joined list reads "title, content, author" |
| `PostProperties.JoinThree` | index.js:94 | three names are joined with the separator between each pair |
| `PostProperties.CreateWithoutAuthor` | index.js:77-94 | a body with title and content only is 400 "Missing the following fields: author" with no change |
| `PostProperties.CreateWithNothing` | index.js:77-94 | a body with no usable field is 400 "Missing the following fields: title, content, author" with no change |
| `PostProperties.FirstCreateAfterSeed` | index.js:100-110 | the first create after start-up gets id 4 and makes four posts |
| `PostProperties.PatchContentOnSeed` | index.js:136-147 | PATCH /posts/1 with only a content keeps title and author, takes the content and stamps `now` |
| `PostProperties.PatchRejectionsOnSeed` | index.js:126-151 | PATCH /posts/1 with an empty body is 400 and PATCH /posts/999 is 404, both with no change |
| `PostProperties.DeleteThenGetOnSeed` | index.js:155-172 | DELETE /posts/2 is 204, and GET /posts/2 afterwards is 404 naming id 2 |
| `PostProperties.DeleteAllThenListOnSeed` | index.js:46-51 | deleting posts 1, 2 and 3 and then listing gives 404 "No posts found" |

## Left out

- PostStore.Store.Create: the counter is an unbounded integer, while the source's `++lastId` works on a JavaScript number, whose increment stops changing the value at 2^53 (9007199254740992 + 1 is 9007199254740992). From there on every create would reuse the id 2^53, so `CreateStep`, `HandleKeepsWellFormed`, `RunIdsNeverReused` and `RunCreatesFreshIds` describe the source only while fewer than 2^53 posts have been created.
- The Express application, the body-parser middleware, `app.listen` and its console message: framework I/O; a handler's HTTP status and JSON body are the `Response` value instead.
- The clock read `new Date()`: the caller supplies `now`, and a timestamp is kept as its ISO-8601 text.
- `parseInt` on the path: the id arrives as `Option<int>`. The model therefore does not capture `-0`, the loss of precision above 2^53, or the exponent notation a template literal uses for numbers of 10^21 and more in the not-found message.
- Body values that are not strings (numbers, booleans, objects): only optional strings are modelled, with the empty string counted as missing.
- The long article texts of the three seed posts: each is a short non-empty placeholder; ids, titles, authors and dates are the source's.
- Concurrency: requests are handled one at a time, as the single-threaded event loop does.
