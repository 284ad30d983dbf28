/**
 * The store the route handlers share: the `posts` array and the `lastId`
 * counter as fields of one object, updated in place by each handler.
 */
module PostStore {
  import opened Wrappers
  import opened Posts

  /** The linear search behind `find` and `findIndex`: the first post with the id. */
  method FindIndex(posts: seq<Post>, id: Option<int>) returns (k: Option<nat>)
    ensures k == IndexOf(posts, id)
  {
    var i := 0;
    while i < |posts|
      invariant 0 <= i <= |posts|
      invariant forall j :: 0 <= j < i ==> Some(posts[j].id) != id
    {
      if Some(posts[i].id) == id {
        return Some(i);
      }
      i := i + 1;
    }
    return None;
  }

  /** The names of the absent fields, pushed one check at a time. */
  method MissingFields(b: Body) returns (names: seq<string>)
    ensures names == Missing(b)
  {
    names := [];
    if !Present(b.title) {
      names := names + ["title"];
    }
    if !Present(b.content) {
      names := names + ["content"];
    }
    if !Present(b.author) {
      names := names + ["author"];
    }
  }

  class Store {
    var posts: seq<Post>
    var lastId: int

    function Snapshot(): Table
      reads this
    {
      Table(posts, lastId)
    }

    /** Ids are positive, pairwise distinct and at most lastId; no post has an empty text field. */
    ghost predicate Valid()
      reads this
    {
      WellFormed(Snapshot()) && Filled(Snapshot())
    }

    /** The store at start-up: the three seed posts, lastId 3. */
    constructor ()
      ensures Snapshot() == Seed()
      ensures Valid()
    {
      posts := Seed().posts;
      lastId := 3;
    }

    /** GET /posts */
    method List() returns (r: Response)
      ensures r == ListReply(Snapshot())
    {
      if |posts| > 0 {
        r := PostList(posts);
      } else {
        r := NotFound(NoPostsMessage);
      }
    }

    /** GET /posts/:id */
    method Get(id: Option<int>) returns (r: Response)
      ensures r == GetReply(Snapshot(), id)
    {
      var k := FindIndex(posts, id);
      if k.Some? {
        r := Found(posts[k.value]);
      } else {
        r := NotFound("No post found that match with the ID(" + IdText(id) + ")");
      }
    }

    /** POST /posts */
    method Create(b: Body, now: Timestamp) returns (r: Response)
      requires Valid()
      modifies this
      ensures Valid()
      ensures (Snapshot(), r) == CreateStep(old(Snapshot()), b, now)
    {
      if !Present(b.title) || !Present(b.content) || !Present(b.author) {
        var missing := MissingFields(b);
        r := BadRequest(MissingFieldsPrefix + Join(missing, ", "));
      } else {
        lastId := lastId + 1;
        var post := Post(lastId, b.title.value, b.content.value, b.author.value, now);
        posts := posts + [post];
        r := Created(post);
      }
    }

    /** PATCH /posts/:id */
    method Patch(id: Option<int>, b: Body, now: Timestamp) returns (r: Response)
      requires Valid()
      modifies this
      ensures Valid()
      ensures (Snapshot(), r) == PatchStep(old(Snapshot()), id, b, now)
    {
      var k := FindIndex(posts, id);
      if k.None? {
        return NotFound(PostNotFoundMessage);
      }
      var existing := posts[k.value];
      var update := Post(id.value, Pick(b.title, existing.title), Pick(b.content, existing.content),
                         Pick(b.author, existing.author), now);
      if Present(b.title) || Present(b.content) || Present(b.author) {
        posts := posts[k.value := update];
        r := Updated(update);
      } else {
        r := BadRequest(NoFieldsMessage);
      }
    }

    /** DELETE /posts/:id */
    method Delete(id: Option<int>) returns (r: Response)
      requires Valid()
      modifies this
      ensures Valid()
      ensures (Snapshot(), r) == DeleteStep(old(Snapshot()), id)
    {
      var k := FindIndex(posts, id);
      if k.None? {
        return NotFound(PostNotFoundMessage);
      }
      posts := posts[..k.value] + posts[k.value + 1..];
      r := NoContent;
    }
  }
}
