/**
 * What the route handlers promise about the store: the invariant every
 * request keeps, what a failed request leaves alone, which entry a
 * successful one touches, and that ids are never handed out twice.
 */
module PostProperties {
  import opened Wrappers
  import opened Posts
  import Decimal
  import PostStore

  /** The first match is the only match once ids are distinct. */
  lemma IndexOfUnique(t: Table, k: nat)
    requires WellFormed(t) && k < |t.posts|
    ensures IndexOf(t.posts, Some(t.posts[k].id)) == Some(k)
  {
  }

  /** The start-up store keeps the invariant and lists its three seed titles in order. */
  lemma SeedListing()
    ensures WellFormed(Seed()) && Filled(Seed())
    ensures ListReply(Seed()).PostList?
    ensures var ps := ListReply(Seed()).posts;
      && |ps| == 3
      && ps[0].title == "The Rise of Decentralized Finance"
      && ps[1].title == "The Impact of Artificial Intelligence on Modern Businesses"
      && ps[2].title == "Sustainable Living: Tips for an Eco-Friendly Lifestyle"
  {
  }

  /** Listing returns the whole table in order, and an empty table only as not found. */
  lemma ListReturnsAllPosts(t: Table)
    ensures ListReply(t).PostList? <==> |t.posts| > 0
    ensures ListReply(t).PostList? ==> ListReply(t).posts == t.posts
    ensures !ListReply(t).PostList? ==> ListReply(t) == NotFound("No posts found")
  {
  }

  /** Get answers with the one post carrying the id, or names the id it could not find. */
  lemma GetReturnsTheMatch(t: Table, id: Option<int>)
    requires WellFormed(t)
    ensures forall k :: 0 <= k < |t.posts| && Some(t.posts[k].id) == id ==> GetReply(t, id) == Found(t.posts[k])
    ensures (forall k :: 0 <= k < |t.posts| ==> Some(t.posts[k].id) != id) ==>
      GetReply(t, id) == NotFound("No post found that match with the ID(" + IdText(id) + ")")
    ensures id.None? ==> GetReply(t, id) == NotFound("No post found that match with the ID(NaN)")
  {
  }

  /**
   * Create with a field missing answers 400 naming exactly the missing fields
   * and changes nothing; otherwise it appends a post under lastId + 1, an id
   * no stored post has, and keeps the invariant.
   */
  lemma CreateOutcome(t: Table, b: Body, now: Timestamp)
    requires WellFormed(t)
    ensures var (t', r) := CreateStep(t, b, now);
      && WellFormed(t')
      && (r.Created? <==> AllPresent(b))
      && (!AllPresent(b) ==> t' == t && r == BadRequest("Missing the following fields: " + Join(Missing(b), ", ")))
      && (r.Created? ==>
            && t'.lastId == t.lastId + 1
            && r.post == Post(t'.lastId, b.title.value, b.content.value, b.author.value, now)
            && t'.posts == t.posts + [r.post]
            && forall p :: p in t.posts ==> p.id < r.post.id)
  {
  }

  /** Patch of an id no post has answers 404 whatever the body holds, and changes nothing. */
  lemma PatchAbsent(t: Table, id: Option<int>, b: Body, now: Timestamp)
    requires forall k :: 0 <= k < |t.posts| ==> Some(t.posts[k].id) != id
    ensures PatchStep(t, id, b, now) == (t, NotFound("Post not found."))
  {
  }

  /**
   * Patch of a stored post: with no usable field it answers 400 and changes
   * nothing; otherwise it replaces that entry only, keeping its id, taking
   * each supplied field, keeping the rest, and stamping the date.
   */
  lemma PatchFound(t: Table, k: nat, b: Body, now: Timestamp)
    requires WellFormed(t) && k < |t.posts|
    ensures var (t', r) := PatchStep(t, Some(t.posts[k].id), b, now);
      && WellFormed(t')
      && t'.lastId == t.lastId
      && (!AnyPresent(b) ==> t' == t && r == BadRequest("No fields provided for update."))
      && (AnyPresent(b) ==>
            && r.Updated?
            && t'.posts == t.posts[k := r.post]
            && r.post.id == t.posts[k].id
            && (Present(b.title) ==> r.post.title == b.title.value)
            && (!Present(b.title) ==> r.post.title == t.posts[k].title)
            && (Present(b.content) ==> r.post.content == b.content.value)
            && (!Present(b.content) ==> r.post.content == t.posts[k].content)
            && (Present(b.author) ==> r.post.author == b.author.value)
            && (!Present(b.author) ==> r.post.author == t.posts[k].author)
            && r.post.date == now)
  {
  }

  /** Delete of an id no post has answers 404 and changes nothing. */
  lemma DeleteAbsent(t: Table, id: Option<int>)
    requires forall k :: 0 <= k < |t.posts| ==> Some(t.posts[k].id) != id
    ensures DeleteStep(t, id) == (t, NotFound("Post not found."))
  {
  }

  /**
   * Delete of a stored post removes exactly that entry: the rest keep their
   * relative order, the counter stays, the invariant holds.
   */
  lemma DeleteFound(t: Table, k: nat)
    requires WellFormed(t) && k < |t.posts|
    ensures var (t', r) := DeleteStep(t, Some(t.posts[k].id));
      && r == NoContent
      && t'.lastId == t.lastId
      && t'.posts == t.posts[..k] + t.posts[k + 1..]
      && WellFormed(t')
      && forall p :: p in t'.posts <==> p in t.posts && p.id != t.posts[k].id
  {
    IndexOfUnique(t, k);
    RemoveKeepsWellFormed(t, k);
    RemoveKeepsOthers(t, k);
  }

  lemma RemoveKeepsWellFormed(t: Table, k: nat)
    requires WellFormed(t) && k < |t.posts|
    ensures WellFormed(Table(t.posts[..k] + t.posts[k + 1..], t.lastId))
  {
    var rest := t.posts[..k] + t.posts[k + 1..];
    RemoveAtShifts(t.posts, k);
    forall i, j | 0 <= i < j < |rest|
      ensures rest[i].id != rest[j].id
    {
      var i', j' := if i < k then i else i + 1, if j < k then j else j + 1;
      assert rest[i] == t.posts[i'] && rest[j] == t.posts[j'];
    }
  }

  lemma RemoveKeepsOthers(t: Table, k: nat)
    requires WellFormed(t) && k < |t.posts|
    ensures forall p :: p in t.posts[..k] + t.posts[k + 1..] <==> p in t.posts && p.id != t.posts[k].id
  {
    var rest := t.posts[..k] + t.posts[k + 1..];
    RemoveAtShifts(t.posts, k);
    forall p
      ensures p in rest <==> p in t.posts && p.id != t.posts[k].id
    {
      if p in rest {
        var i :| 0 <= i < |rest| && rest[i] == p;
        if i < k {
          assert p == t.posts[i];
        } else {
          assert p == t.posts[i + 1];
        }
      }
      if p in t.posts && p.id != t.posts[k].id {
        var i :| 0 <= i < |t.posts| && t.posts[i] == p;
        assert i != k;
        if i < k {
          assert rest[i] == p;
        } else {
          assert rest[i - 1] == p;
        }
      }
    }
  }

  /** Splicing out entry k moves every later entry down by one. */
  lemma RemoveAtShifts(s: seq<Post>, k: nat)
    requires k < |s|
    ensures |s[..k] + s[k + 1..]| == |s| - 1
    ensures forall i :: 0 <= i < k ==> (s[..k] + s[k + 1..])[i] == s[i]
    ensures forall i :: k < i < |s| ==> (s[..k] + s[k + 1..])[i - 1] == s[i]
  {
  }

  /** After a delete no post has the id, so deleting or getting it again is not found. */
  lemma DeleteTwice(t: Table, id: Option<int>)
    requires WellFormed(t)
    ensures var t' := DeleteStep(t, id).0;
      && DeleteStep(t', id) == (t', NotFound("Post not found."))
      && GetReply(t', id).NotFound?
  {
  }

  /** Every request keeps the invariant. */
  lemma HandleKeepsWellFormed(t: Table, req: Request)
    requires WellFormed(t)
    ensures WellFormed(Handle(t, req).0)
  {
    match req
    case ListPosts =>
    case GetPost(_) =>
    case CreatePost(b, now) => CreateOutcome(t, b, now);
    case PatchPost(id, b, now) =>
      var k := IndexOf(t.posts, id);
      if k.Some? {
        PatchFound(t, k.value, b, now);
      }
    case DeletePost(id) =>
      var k := IndexOf(t.posts, id);
      if k.Some? {
        DeleteFound(t, k.value);
      }
  }

  /** Reads and failed requests (status 400 or 404) leave the table exactly as it was. */
  lemma HandleFailureChangesNothing(t: Table, req: Request)
    ensures req.ListPosts? || req.GetPost? ==> Handle(t, req).0 == t
    ensures Handle(t, req).1.Status() >= 400 ==> Handle(t, req).0 == t
  {
  }

  /** The counter moves by one exactly on a create, and the new post carries the new value. */
  lemma HandleCounter(t: Table, req: Request)
    ensures var (t', r) := Handle(t, req);
      && t'.lastId == (if r.Created? then t.lastId + 1 else t.lastId)
      && (r.Created? ==> r.post.id == t'.lastId)
  {
  }

  lemma {:induction false} RunKeepsWellFormed(t: Table, reqs: seq<Request>)
    requires WellFormed(t)
    ensures WellFormed(Run(t, reqs).0)
    decreases |reqs|
  {
    if reqs != [] {
      HandleKeepsWellFormed(t, reqs[0]);
      RunKeepsWellFormed(Handle(t, reqs[0]).0, reqs[1..]);
    }
  }

  /** Every request keeps the text fields of every stored post non-empty. */
  lemma HandleKeepsFilled(t: Table, req: Request)
    requires WellFormed(t) && Filled(t)
    ensures Filled(Handle(t, req).0)
  {
    match req
    case ListPosts =>
    case GetPost(_) =>
    case CreatePost(b, now) =>
    case PatchPost(id, b, now) =>
      var k := IndexOf(t.posts, id);
      if k.Some? {
        PatchFound(t, k.value, b, now);
      }
    case DeletePost(id) =>
      var k := IndexOf(t.posts, id);
      if k.Some? {
        DeleteFound(t, k.value);
        var rest := Handle(t, req).0.posts;
        forall i | 0 <= i < |rest|
          ensures rest[i].title != "" && rest[i].content != "" && rest[i].author != ""
        {
          assert rest[i] in rest;
        }
      }
  }

  /** From the seed on, any sequence of requests keeps every text field non-empty. */
  lemma {:induction false} RunKeepsFilled(t: Table, reqs: seq<Request>)
    requires WellFormed(t) && Filled(t)
    ensures Filled(Run(t, reqs).0)
    decreases |reqs|
  {
    if reqs != [] {
      HandleKeepsWellFormed(t, reqs[0]);
      HandleKeepsFilled(t, reqs[0]);
      RunKeepsFilled(Handle(t, reqs[0]).0, reqs[1..]);
    }
  }

  /**
   * Over any sequence of requests, the ids of created posts strictly
   * increase, all lie above the starting counter, and so none equals an id
   * the store held at the start, however many deletes come between.
   */
  lemma {:induction false} RunIdsNeverReused(t: Table, reqs: seq<Request>)
    ensures t.lastId <= Run(t, reqs).0.lastId
    ensures AscendingWithin(CreatedIds(Run(t, reqs).1), t.lastId, Run(t, reqs).0.lastId)
    decreases |reqs|
  {
    if reqs != [] {
      var step := Handle(t, reqs[0]);
      var next, r := step.0, step.1;
      HandleCounter(t, reqs[0]);
      RunIdsNeverReused(next, reqs[1..]);
      var tail := Run(next, reqs[1..]);
      var later := CreatedIds(tail.1);
      var rs := [r] + tail.1;
      assert Run(t, reqs) == (tail.0, rs);
      assert rs[1..] == tail.1;
      var ids := CreatedIds(rs);
      assert AscendingWithin(later, next.lastId, tail.0.lastId);
      if r.Created? {
        assert ids == [next.lastId] + later;
        assert next.lastId == t.lastId + 1;
        forall i, j | 0 <= i < j < |ids|
          ensures ids[i] < ids[j]
        {
          assert ids[j] == later[j - 1];
          if i > 0 {
            assert ids[i] == later[i - 1];
          }
        }
      } else {
        assert ids == later;
      }
    }
  }

  /** Strictly increasing values, all above lo and at most hi. */
  ghost predicate AscendingWithin(ids: seq<int>, lo: int, hi: int) {
    && (forall i :: 0 <= i < |ids| ==> lo < ids[i] <= hi)
    && (forall i, j :: 0 <= i < j < |ids| ==> ids[i] < ids[j])
  }

  /** A create never reuses the id of a post present when the run started. */
  lemma RunCreatesFreshIds(t: Table, reqs: seq<Request>)
    requires WellFormed(t)
    ensures var ids := CreatedIds(Run(t, reqs).1);
      forall i, p :: 0 <= i < |ids| && p in t.posts ==> ids[i] != p.id
  {
    RunIdsNeverReused(t, reqs);
  }

  /** A create body without an author: 400 naming only the author. */
  lemma CreateWithoutAuthor(t: Table, now: Timestamp)
    ensures CreateStep(t, Body(Some("T"), Some("C"), None), now)
      == (t, BadRequest("Missing the following fields: author"))
  {
    assert MissingFieldsPrefix + "author" == "Missing the following fields: author";
  }

  /** A create body with nothing usable names all three fields in order. */
  lemma CreateWithNothing(t: Table, now: Timestamp)
    ensures CreateStep(t, Body(None, Some(""), None), now)
      == (t, BadRequest("Missing the following fields: title, content, author"))
  {
    NothingUsableListed(Body(None, Some(""), None));
    assert MissingFieldsPrefix + "title, content, author" == "Missing the following fields: title, content, author";
  }

  /** With no usable field, the joined list names all three fields in order. */
  lemma NothingUsableListed(b: Body)
    requires !Present(b.title) && !Present(b.content) && !Present(b.author)
    ensures Join(Missing(b), ", ") == "title, content, author"
  {
    NothingUsable(b);
    JoinThree("title", "content", "author", ", ");
    assert "title" + ", " + "content" + ", " + "author" == "title, content, author";
  }

  lemma NothingUsable(b: Body)
    requires !Present(b.title) && !Present(b.content) && !Present(b.author)
    ensures Missing(b) == ["title", "content", "author"]
  {
  }

  lemma JoinThree(a: string, b: string, c: string, sep: string)
    ensures Join([a, b, c], sep) == a + sep + b + sep + c
  {
    assert [a, b, c][1..] == [b, c] && [b, c][1..] == [c];
    assert Join([b, c], sep) == b + sep + c;
    assert Join([a, b, c], sep) == a + sep + (b + sep + c);
  }

  /** The first create after start-up gets id 4. */
  lemma FirstCreateAfterSeed(now: Timestamp)
    ensures var (t', r) := CreateStep(Seed(), Body(Some("T"), Some("C"), Some("A")), now);
      && r == Created(Post(4, "T", "C", "A", now))
      && |t'.posts| == 4 && t'.lastId == 4
  {
  }

  /** PATCH /posts/1 with only a content: title and author stay, content and date change. */
  lemma PatchContentOnSeed(now: Timestamp)
    ensures var s := Seed().posts[0];
      PatchStep(Seed(), Some(1), Body(None, Some("new"), None), now).1
        == Updated(Post(1, s.title, "new", s.author, now))
  {
  }

  /** PATCH /posts/1 with an empty body is 400; PATCH /posts/999 is 404. */
  lemma PatchRejectionsOnSeed(b: Body, now: Timestamp)
    ensures PatchStep(Seed(), Some(1), Body(None, None, None), now)
      == (Seed(), BadRequest("No fields provided for update."))
    ensures PatchStep(Seed(), Some(999), b, now) == (Seed(), NotFound("Post not found."))
  {
  }

  /** DELETE /posts/2 is 204, and a later GET /posts/2 is 404. */
  lemma DeleteThenGetOnSeed()
    ensures Run(Seed(), [DeletePost(Some(2)), GetPost(Some(2))]).1
      == [NoContent, NotFound("No post found that match with the ID(2)")]
  {
    assert IdText(Some(2)) == [Decimal.DigitChar(2)] == "2";
    assert "No post found that match with the ID(" + "2" + ")" == "No post found that match with the ID(2)";
  }

  /** Deleting every seed post, then listing, is 404 "No posts found". */
  lemma DeleteAllThenListOnSeed()
    ensures Run(Seed(), [DeletePost(Some(1)), DeletePost(Some(2)), DeletePost(Some(3)), ListPosts]).1
      == [NoContent, NoContent, NoContent, NotFound("No posts found")]
  {
  }

  /** Deleting a post through the store object, checked from the method contracts alone. */
  method DeleteSession()
  {
    var store := new PostStore.Store();
    var r := store.Delete(Some(2));
    assert r == NoContent;
    r := store.Get(Some(2));
    assert r.NotFound?;
    r := store.Delete(Some(2));
    assert r == NotFound("Post not found.");
  }

  /** Creating a post through the store object, checked from the method contracts alone. */
  method CreateSession(now: Timestamp)
  {
    var store := new PostStore.Store();
    var r := store.Create(Body(Some("T"), Some("C"), Some("A")), now);
    assert r == Created(Post(4, "T", "C", "A", now));
    r := store.List();
    assert r.PostList? && |r.posts| == 4 && r.posts[3].id == 4;
  }
}
