/**
 * The blog post store as values: posts, request bodies, responses, the
 * table of posts with its id counter, and one function per route handler
 * giving the table after the request and the response sent.
 */
module Posts {
  import opened Wrappers
  import Decimal

  /** An instant as the ISO-8601 text the JSON response carries. */
  type Timestamp = string

  datatype Post = Post(id: int, title: string, content: string, author: string, date: Timestamp)

  /** The fields a request body may carry; any other body field is ignored. */
  datatype Body = Body(title: Option<string>, content: Option<string>, author: Option<string>)

  /** A response: its constructor fixes the HTTP status, its fields the JSON body. */
  datatype Response =
    | PostList(posts: seq<Post>)   // 200, an array of posts
    | Found(post: Post)            // 200, one post
    | Created(post: Post)          // 201, the new post
    | Updated(post: Post)          // 200, the merged post
    | NoContent                    // 204, empty body
    | BadRequest(message: string)  // 400, {message}
    | NotFound(message: string)    // 404, {message}
  {
    function Status(): nat {
      match this
      case PostList(_) => 200
      case Found(_) => 200
      case Created(_) => 201
      case Updated(_) => 200
      case NoContent => 204
      case BadRequest(_) => 400
      case NotFound(_) => 404
    }
  }

  /** The process-wide state: the posts in insertion order and the last id handed out. */
  datatype Table = Table(posts: seq<Post>, lastId: int)

  const NoPostsMessage := "No posts found"
  const PostNotFoundMessage := "Post not found."
  const NoFieldsMessage := "No fields provided for update."
  const MissingFieldsPrefix := "Missing the following fields: "
  const FieldNames: seq<string> := ["title", "content", "author"]

  /** The store as the process starts: three seed posts and the counter at 3. */
  function Seed(): Table {
    Table(
      [ Post(1, "The Rise of Decentralized Finance",
             "An article on decentralized finance.", "Alex Thompson", "2023-08-01T10:00:00Z"),
        Post(2, "The Impact of Artificial Intelligence on Modern Businesses",
             "An article on artificial intelligence in business.", "Mia Williams", "2023-08-05T14:30:00Z"),
        Post(3, "Sustainable Living: Tips for an Eco-Friendly Lifestyle",
             "An article on sustainable living.", "Samuel Green", "2023-08-10T09:15:00Z") ],
      3)
  }

  /**
   * The store invariant: ids are positive and pairwise distinct, and none
   * exceeds the counter, so the next id handed out is new.
   */
  ghost predicate WellFormed(t: Table) {
    && 0 <= t.lastId
    && (forall i :: 0 <= i < |t.posts| ==> 0 < t.posts[i].id <= t.lastId)
    && (forall i, j :: 0 <= i < j < |t.posts| ==> t.posts[i].id != t.posts[j].id)
  }

  /** Every stored post has a non-empty title, content and author. */
  ghost predicate Filled(t: Table) {
    forall i :: 0 <= i < |t.posts| ==>
      t.posts[i].title != "" && t.posts[i].content != "" && t.posts[i].author != ""
  }

  /** A body field counts as supplied when it is a non-empty string (JavaScript truthiness). */
  predicate Present(field: Option<string>) {
    field.Some? && field.value != ""
  }

  predicate AllPresent(b: Body) {
    Present(b.title) && Present(b.content) && Present(b.author)
  }

  predicate AnyPresent(b: Body) {
    Present(b.title) || Present(b.content) || Present(b.author)
  }

  /** The supplied value when it is truthy, otherwise the existing one (`supplied || existing`). */
  function Pick(supplied: Option<string>, existing: string): string {
    if Present(supplied) then supplied.value else existing
  }

  /** The position of a field name in the order title, content, author. */
  function FieldRank(name: string): nat {
    if name == FieldNames[0] then 0 else if name == FieldNames[1] then 1 else 2
  }

  /** The names of the fields a create body lacks, in the order title, content, author. */
  function Missing(b: Body): (names: seq<string>)
    ensures forall i :: 0 <= i < |names| ==> names[i] in FieldNames
    ensures forall i, j :: 0 <= i < j < |names| ==> FieldRank(names[i]) < FieldRank(names[j])
    ensures "title" in names <==> !Present(b.title)
    ensures "content" in names <==> !Present(b.content)
    ensures "author" in names <==> !Present(b.author)
    ensures names == [] <==> AllPresent(b)
  {
    (if Present(b.title) then [] else ["title"])
    + (if Present(b.content) then [] else ["content"])
    + (if Present(b.author) then [] else ["author"])
  }

  /** The parts separated by sep, as Array.prototype.join. */
  function Join(parts: seq<string>, sep: string): string
    decreases |parts|
  {
    if |parts| == 0 then ""
    else if |parts| == 1 then parts[0]
    else parts[0] + sep + Join(parts[1..], sep)
  }

  /** The path id as a template literal shows it: NaN when it did not parse. */
  function IdText(id: Option<int>): string {
    match id
    case None => "NaN"
    case Some(n) => Decimal.IntText(n)
  }

  /**
   * The index of the first post whose id equals the requested one, as
   * `find` and `findIndex` search; NaN equals no id.
   */
  function IndexOf(posts: seq<Post>, id: Option<int>): (k: Option<nat>)
    ensures k.Some? ==> k.value < |posts| && Some(posts[k.value].id) == id
    ensures k.Some? ==> forall j :: 0 <= j < k.value ==> Some(posts[j].id) != id
    ensures k.None? ==> forall j :: 0 <= j < |posts| ==> Some(posts[j].id) != id
    decreases |posts|
  {
    if |posts| == 0 then None
    else if Some(posts[0].id) == id then Some(0)
    else match IndexOf(posts[1..], id)
      case None => None
      case Some(k) => Some(k + 1)
  }

  /** GET /posts: every post in order; an empty store is reported as not found. */
  function ListReply(t: Table): Response {
    if |t.posts| > 0 then PostList(t.posts) else NotFound(NoPostsMessage)
  }

  /** GET /posts/:id: the matching post, or a not-found message naming the id. */
  function GetReply(t: Table, id: Option<int>): Response {
    match IndexOf(t.posts, id)
    case Some(k) => Found(t.posts[k])
    case None => NotFound("No post found that match with the ID(" + IdText(id) + ")")
  }

  /** POST /posts: validate presence, then append a post under the next id. */
  function CreateStep(t: Table, b: Body, now: Timestamp): (Table, Response) {
    if !AllPresent(b) then
      (t, BadRequest(MissingFieldsPrefix + Join(Missing(b), ", ")))
    else
      var post := Post(t.lastId + 1, b.title.value, b.content.value, b.author.value, now);
      (Table(t.posts + [post], t.lastId + 1), Created(post))
  }

  /** PATCH /posts/:id: look the post up, merge the supplied fields, then require one. */
  function PatchStep(t: Table, id: Option<int>, b: Body, now: Timestamp): (Table, Response) {
    match IndexOf(t.posts, id)
    case None => (t, NotFound(PostNotFoundMessage))
    case Some(k) =>
      var existing := t.posts[k];
      var update := Post(id.value, Pick(b.title, existing.title), Pick(b.content, existing.content),
                         Pick(b.author, existing.author), now);
      if AnyPresent(b) then (t.(posts := t.posts[k := update]), Updated(update))
      else (t, BadRequest(NoFieldsMessage))
  }

  /** DELETE /posts/:id: splice the matching post out. */
  function DeleteStep(t: Table, id: Option<int>): (Table, Response) {
    match IndexOf(t.posts, id)
    case None => (t, NotFound(PostNotFoundMessage))
    case Some(k) => (t.(posts := t.posts[..k] + t.posts[k + 1..]), NoContent)
  }

  /** One request to one of the five routes; `now` is the clock read of that request. */
  datatype Request =
    | ListPosts
    | GetPost(id: Option<int>)
    | CreatePost(body: Body, now: Timestamp)
    | PatchPost(id: Option<int>, body: Body, now: Timestamp)
    | DeletePost(id: Option<int>)

  function Handle(t: Table, req: Request): (Table, Response) {
    match req
    case ListPosts => (t, ListReply(t))
    case GetPost(id) => (t, GetReply(t, id))
    case CreatePost(b, now) => CreateStep(t, b, now)
    case PatchPost(id, b, now) => PatchStep(t, id, b, now)
    case DeletePost(id) => DeleteStep(t, id)
  }

  /** Requests handled one after another: the final table and every response in order. */
  function Run(t: Table, reqs: seq<Request>): (Table, seq<Response>)
    decreases |reqs|
  {
    if reqs == [] then (t, [])
    else
      var (next, r) := Handle(t, reqs[0]);
      var (last, rs) := Run(next, reqs[1..]);
      (last, [r] + rs)
  }

  /** The ids of the posts created, in the order of the responses. */
  function CreatedIds(rs: seq<Response>): seq<int>
    decreases |rs|
  {
    if rs == [] then []
    else (if rs[0].Created? then [rs[0].post.id] else []) + CreatedIds(rs[1..])
  }
}
