/**
 The page's state and its transitions: the submit and delete handlers, the
 effect that starts a location attempt whenever the draft changes, and the
 two ways an attempt settles. Every transition is a pure function from the
 state of one render to the state of the next.

 An attempt is not named: a settling attempt simply writes into whatever
 the state is when it arrives, because the page keeps no generation or
 cancellation token.
 */
module Home {
  import opened Wrappers
  import opened JsString
  import opened Geo
  import opened PostStore

  datatype State = State(posts: seq<Post>, title: string, content: string,
                         location: Option<Location>, locationError: string,
                         isLoading: bool)

  /** The message shown after any failed attempt. */
  const LocationFailureMessage: string :=
    "위치 정보를 가져올 수 없습니다. 브라우저에서 위치 접근을 허용해주세요."

  /** The state of the first render: no posts, no draft, no location, no
      error and no spinner, so the effect's run on mount does nothing. */
  function Initial(): (r: State)
    ensures r.posts == [] && !HasDraft(r) && StartAttempt(r) == r
    ensures r.location == None && r.locationError == [] && !r.isLoading
  {
    State([], "", "", None, "", false)
  }

  /** `title || content` is truthy. */
  predicate HasDraft(s: State) {
    Truthy(s.title) || Truthy(s.content)
  }

  /** The synchronous part of the effect: with a draft present it turns the
      spinner on and clears the error; otherwise it does nothing. */
  function StartAttempt(s: State): (r: State)
    ensures r.isLoading <==> s.isLoading || HasDraft(s)
    ensures r.locationError == if HasDraft(s) then [] else s.locationError
    ensures r.posts == s.posts && r.title == s.title && r.content == s.content
    ensures r.location == s.location
  {
    if HasDraft(s) then s.(isLoading := true, locationError := "") else s
  }

  /** An attempt that settled with coordinates and an address: the spinner
      goes off and the location is overwritten, but an error message left by
      another attempt stays. */
  function Resolve(s: State, coords: Coords, address: string): (r: State)
    ensures r.location == Some(Location(coords, address)) && !r.isLoading
    ensures r.locationError == s.locationError
    ensures r.posts == s.posts && r.title == s.title && r.content == s.content
  {
    s.(location := Some(Location(coords, address)), isLoading := false)
  }

  /** An attempt that failed: the spinner goes off and the error message is
      set, but a location stored by another attempt stays. */
  function Fail(s: State): (r: State)
    ensures r.locationError != [] && !r.isLoading
    ensures r.location == s.location
    ensures r.posts == s.posts && r.title == s.title && r.content == s.content
  {
    s.(locationError := LocationFailureMessage, isLoading := false)
  }

  /** The submit handler. A draft with a blank field leaves the state as it
      was; otherwise the new post, holding the trimmed fields and the
      location of this very moment, goes in front of the list, and the draft,
      the location and the error are cleared. The spinner is not touched. */
  function Submit(s: State, id: int, timestamp: string): (r: State)
    ensures !Accepts(s.title, s.content) ==> r == s
    ensures Accepts(s.title, s.content) ==>
      && |r.posts| == |s.posts| + 1 && r.posts[1..] == s.posts
      && r.posts[0] == Post(id, Trim(s.title), Trim(s.content), s.location, timestamp)
      && r.title == [] && r.content == [] && r.location == None && r.locationError == []
    ensures r.isLoading == s.isLoading
  {
    match MakePost(s.title, s.content, s.location, id, timestamp)
    case None => s
    case Some(p) =>
      s.(posts := [p] + s.posts, title := "", content := "", location := None,
         locationError := "")
  }

  /** The delete handler: only the list changes; no post with `id` is left
      in it, and every other post is kept, in order (see `DeleteCounts` and
      `DeleteKeepsOrder`). */
  function Delete(s: State, id: int): (r: State)
    ensures r.(posts := s.posts) == s
    ensures !HasId(r.posts, id) && |r.posts| <= |s.posts|
    ensures r.posts == DeletePost(s.posts, id)
  {
    s.(posts := DeletePost(s.posts, id))
  }

  /** What can happen to the page between two renders. */
  datatype Event =
    | TitleInput(value: string)
    | ContentInput(value: string)
    | Resolved(coords: Coords, address: string)
    | Failed
    | SubmitClicked(id: int, timestamp: string)
    | DeleteClicked(postId: int)

  /** The handler the event runs, before any effect. Typing changes only the
      field typed into; the other events are the transitions above. */
  function Handle(s: State, e: Event): (r: State)
    ensures e.TitleInput? ==> r.title == e.value && r.(title := s.title) == s
    ensures e.ContentInput? ==> r.content == e.value && r.(content := s.content) == s
    ensures e.Resolved? ==> r == Resolve(s, e.coords, e.address)
    ensures e.Failed? ==> r == Fail(s)
    ensures e.SubmitClicked? ==> r == Submit(s, e.id, e.timestamp)
    ensures e.DeleteClicked? ==> r == Delete(s, e.postId)
  {
    match e
    case TitleInput(v) => s.(title := v)
    case ContentInput(v) => s.(content := v)
    case Resolved(c, a) => Resolve(s, c, a)
    case Failed => Fail(s)
    case SubmitClicked(id, ts) => Submit(s, id, ts)
    case DeleteClicked(id) => Delete(s, id)
  }

  /** The effect depends on `[title, content]`: it re-runs exactly when the
      render after the handler sees either value changed. */
  predicate DraftChanged(before: State, after: State) {
    before.title != after.title || before.content != after.content
  }

  /** The event starts a new location attempt. */
  predicate StartsAttempt(s: State, e: Event) {
    DraftChanged(s, Handle(s, e)) && HasDraft(Handle(s, e))
  }

  /** One event followed by the render it causes. Posts are changed only by
      a submit (which at most adds one in front) and a delete. */
  function Step(s: State, e: Event): (r: State)
    ensures StartsAttempt(s, e) ==> r.isLoading && r.locationError == []
    ensures StartsAttempt(s, e) ==> r == Handle(s, e).(isLoading := true, locationError := "")
    ensures !StartsAttempt(s, e) ==> r == Handle(s, e)
    ensures !e.SubmitClicked? && !e.DeleteClicked? ==> r.posts == s.posts
    ensures e.SubmitClicked? ==> r.posts == s.posts || (|r.posts| == |s.posts| + 1 && r.posts[1..] == s.posts)
    ensures e.DeleteClicked? ==> !HasId(r.posts, e.postId) && |r.posts| <= |s.posts|
    ensures e.DeleteClicked? ==> r.posts == DeletePost(s.posts, e.postId)
  {
    var next := Handle(s, e);
    if DraftChanged(s, next) then StartAttempt(next) else next
  }

  /** A sequence of events, in order. */
  function Run(s: State, es: seq<Event>): State
    decreases |es|
  {
    if es == [] then s else Run(Step(s, es[0]), es[1..])
  }

  lemma {:induction false} RunAppend(s: State, a: seq<Event>, b: seq<Event>)
    ensures Run(s, a + b) == Run(Run(s, a), b)
    decreases |a|
  {
    if a == [] {
      assert a + b == b;
    } else {
      assert (a + b)[0] == a[0];
      assert (a + b)[1..] == a[1..] + b;
      RunAppend(Step(s, a[0]), a[1..], b);
    }
  }

  /** Clearing the draft on submit re-runs the effect, but with an empty
      draft it starts nothing: a submit is exactly its handler. */
  lemma SubmitStartsNoAttempt(s: State, id: int, timestamp: string)
    ensures !StartsAttempt(s, SubmitClicked(id, timestamp))
    ensures Step(s, SubmitClicked(id, timestamp)) == Submit(s, id, timestamp)
  {
  }

  /** Typing starts an attempt exactly when the title really changes and the
      draft it leaves is not empty as a raw string. */
  lemma TitleInputStartsAttemptIff(s: State, v: string)
    ensures StartsAttempt(s, TitleInput(v)) <==> v != s.title && (v != [] || s.content != [])
    ensures !StartsAttempt(s, TitleInput(v)) ==> Step(s, TitleInput(v)) == s.(title := v)
  {
  }

  /** Typing into the content field starts an attempt under the symmetric
      condition. */
  lemma ContentInputStartsAttemptIff(s: State, v: string)
    ensures StartsAttempt(s, ContentInput(v)) <==> v != s.content && (s.title != [] || v != [])
    ensures !StartsAttempt(s, ContentInput(v)) ==> Step(s, ContentInput(v)) == s.(content := v)
  {
  }

  /** A whitespace-only title starts a location attempt, yet submitting it
      is rejected and changes nothing. */
  lemma WhitespaceDraftIsProbedButRejected(s: State, v: string, id: int, timestamp: string)
    requires v != s.title && v != [] && AllWhitespace(v)
    ensures Step(s, TitleInput(v)).isLoading
    ensures var r := Step(s, TitleInput(v));
      Step(r, SubmitClicked(id, timestamp)) == r
  {
  }

  /** Deleting the id a submit just used undoes the submit, when no older
      post carries that id. */
  lemma SubmitThenDeleteRestores(s: State, id: int, timestamp: string)
    requires !HasId(s.posts, id)
    ensures Step(Step(s, SubmitClicked(id, timestamp)), DeleteClicked(id)).posts == s.posts
  {
    DeleteAbsentId(s.posts, id);
    var r := Step(s, SubmitClicked(id, timestamp));
    if Accepts(s.title, s.content) {
      assert r.posts == [r.posts[0]] + s.posts;
    }
  }

  /** `older` is what remains of `posts` after dropping some newer posts
      from its front. */
  predicate EndsWith(posts: seq<Post>, older: seq<Post>) {
    |older| <= |posts| && posts[|posts| - |older|..] == older
  }

  lemma EndsWithTransitive(a: seq<Post>, b: seq<Post>, c: seq<Post>)
    requires EndsWith(a, b) && EndsWith(b, c)
    ensures EndsWith(a, c)
  {
    assert a[|a| - |c|..] == a[|a| - |b|..][|b| - |c|..];
  }

  /** Nothing after a post is created alters it: without a delete, the
      list a run starts from stays, value for value, the tail of the list it
      ends with. */
  lemma {:induction false} PostsAreFrozen(s: State, es: seq<Event>)
    requires forall i :: 0 <= i < |es| ==> !es[i].DeleteClicked?
    ensures EndsWith(Run(s, es).posts, s.posts)
    decreases |es|
  {
    if es == [] {
      assert s.posts[0..] == s.posts;
    } else {
      var s1 := Step(s, es[0]);
      PostsAreFrozen(s1, es[1..]);
      assert EndsWith(s1.posts, s.posts);
      EndsWithTransitive(Run(s1, es[1..]).posts, s1.posts, s.posts);
    }
  }

  /** Events other than a successful settlement and a submit leave the
      location alone; a failure in particular keeps it. */
  lemma {:induction false} QuietRunKeepsLocation(s: State, es: seq<Event>)
    requires forall i :: 0 <= i < |es| ==> !es[i].Resolved? && !es[i].SubmitClicked?
    ensures Run(s, es).location == s.location
    decreases |es|
  {
    if es != [] {
      QuietRunKeepsLocation(Step(s, es[0]), es[1..]);
    }
  }

  /** The last successful attempt to arrive decides the location, whichever
      attempt was started last: nothing but a later success or a submit can
      replace it, and a later failure does not undo it. */
  lemma LastArrivalWins(s: State, before: seq<Event>, coords: Coords, address: string,
                        after: seq<Event>)
    requires forall i :: 0 <= i < |after| ==> !after[i].Resolved? && !after[i].SubmitClicked?
    ensures Run(s, before + [Resolved(coords, address)] + after).location
              == Some(Location(coords, address))
  {
    RunAppend(s, before + [Resolved(coords, address)], after);
    RunAppend(s, before, [Resolved(coords, address)]);
    QuietRunKeepsLocation(Run(s, before + [Resolved(coords, address)]), after);
  }

  /** Two successful attempts give different results depending only on the
      order in which they arrive. */
  lemma ArrivalOrderDecides(s: State, c1: Coords, a1: string, c2: Coords, a2: string)
    requires Location(c1, a1) != Location(c2, a2)
    ensures Run(s, [Resolved(c1, a1), Resolved(c2, a2)]).location
              != Run(s, [Resolved(c2, a2), Resolved(c1, a1)]).location
  {
    var r1, r2 := Resolved(c1, a1), Resolved(c2, a2);
    assert [r1, r2] == [r1] + [r2];
    assert [r2, r1] == [r2] + [r1];
    RunAppend(s, [r1], [r2]);
    RunAppend(s, [r2], [r1]);
    assert Run(Run(s, [r1]), [r2]) == Step(Run(s, [r1]), r2);
    assert Run(Run(s, [r2]), [r1]) == Step(Run(s, [r2]), r1);
  }
}
