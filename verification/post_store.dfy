/**
 The post list: building a post from a draft (with its validation) and
 deleting posts by id. Posts are immutable values, newest first.
 */
module PostStore {
  import opened Wrappers
  import opened JsString
  import opened Geo

  /** `id` comes from the clock (milliseconds) and `timestamp` from a locale
      formatter; both are supplied by the caller and ids need not be unique. */
  datatype Post = Post(id: int, title: string, content: string,
                       location: Option<Location>, timestamp: string)

  /** A draft is accepted when neither trimmed field is empty. */
  predicate Accepts(title: string, content: string) {
    Trim(title) != [] && Trim(content) != []
  }

  /** The post a submit creates, or `None` for the rejected draft that the
      page answers with an alert. */
  function MakePost(title: string, content: string, location: Option<Location>,
                    id: int, timestamp: string): (r: Option<Post>)
    ensures r.None? <==> AllWhitespace(title) || AllWhitespace(content)
    ensures r.Some? ==> r.value.title != [] && Untrimmable(r.value.title)
    ensures r.Some? ==> r.value.content != [] && Untrimmable(r.value.content)
    ensures r.Some? ==> r.value == Post(id, Trim(title), Trim(content), location, timestamp)
  {
    if !Accepts(title, content) then None
    else Some(Post(id, Trim(title), Trim(content), location, timestamp))
  }

  /** Some post of `posts` carries `id`. */
  predicate HasId(posts: seq<Post>, id: int) {
    exists i :: 0 <= i < |posts| && posts[i].id == id
  }

  /** `posts.filter(post => post.id !== id)`: no post carrying `id` is
      left, and the list never grows. */
  function DeletePost(posts: seq<Post>, id: int): (r: seq<Post>)
    ensures |r| <= |posts|
    ensures !HasId(r, id)
    decreases |posts|
  {
    if posts == [] then []
    else
      var rest := DeletePost(posts[1..], id);
      if posts[0].id == id then rest else [posts[0]] + rest
  }

  /** Exactly the posts carrying `id` are dropped: every other post is kept
      as many times as it occurred. */
  lemma {:induction false} DeleteCounts(posts: seq<Post>, id: int, p: Post)
    ensures multiset(DeletePost(posts, id))[p] == if p.id == id then 0 else multiset(posts)[p]
    decreases |posts|
  {
    if posts == [] {
      assert DeletePost(posts, id) == [];
    } else {
      assert posts == [posts[0]] + posts[1..];
      DeleteCounts(posts[1..], id, p);
      if p.id == id {
        assert p !in DeletePost(posts, id);
      }
    }
  }

  /** Deleting from a concatenation deletes from each part in place: the
      surviving posts keep their relative order. */
  lemma {:induction false} DeleteKeepsOrder(a: seq<Post>, b: seq<Post>, id: int)
    ensures DeletePost(a + b, id) == DeletePost(a, id) + DeletePost(b, id)
    decreases |a|
  {
    if a == [] {
      assert a + b == b;
    } else {
      assert (a + b)[0] == a[0];
      assert (a + b)[1..] == a[1..] + b;
      DeleteKeepsOrder(a[1..], b, id);
    }
  }

  /** Deleting an id no post carries leaves the list as it was. */
  lemma {:induction false} DeleteAbsentId(posts: seq<Post>, id: int)
    requires !HasId(posts, id)
    ensures DeletePost(posts, id) == posts
    decreases |posts|
  {
    if posts != [] {
      assert posts[0].id != id;
      DeleteAbsentId(posts[1..], id);
    }
  }

  /** Deleting an id twice is deleting it once. */
  lemma DeleteIdempotent(posts: seq<Post>, id: int)
    ensures DeletePost(DeletePost(posts, id), id) == DeletePost(posts, id)
  {
    DeleteAbsentId(DeletePost(posts, id), id);
  }

  /** A non-empty list carries `id` exactly when its head or its tail does. */
  lemma HasIdCons(posts: seq<Post>, id: int)
    requires posts != []
    ensures HasId(posts, id) <==> posts[0].id == id || HasId(posts[1..], id)
  {
    if HasId(posts, id) && posts[0].id != id {
      var i :| 0 <= i < |posts| && posts[i].id == id;
      assert posts[1..][i - 1].id == id;
    }
    if HasId(posts[1..], id) {
      var i :| 0 <= i < |posts[1..]| && posts[1..][i].id == id;
      assert posts[i + 1].id == id;
    }
  }

  /** Deleting shrinks the list exactly when some post carries the id. */
  lemma {:induction false} DeleteShrinksIff(posts: seq<Post>, id: int)
    ensures |DeletePost(posts, id)| < |posts| <==> HasId(posts, id)
    decreases |posts|
  {
    if posts != [] {
      DeleteShrinksIff(posts[1..], id);
      HasIdCons(posts, id);
    }
  }

  /** Deletions of two ids commute. */
  lemma {:induction false} DeleteCommutes(posts: seq<Post>, a: int, b: int)
    ensures DeletePost(DeletePost(posts, a), b) == DeletePost(DeletePost(posts, b), a)
    decreases |posts|
  {
    if posts != [] {
      DeleteCommutes(posts[1..], a, b);
    }
  }
}
