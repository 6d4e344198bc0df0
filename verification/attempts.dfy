/**
 The page together with the number of location attempts that have been
 started and not yet settled. The count is not part of the page's state; it
 only says when a settlement can arrive at all (never more settlements than
 starts), in any order and at any time after its start.
 */
module Attempts {
  import opened Wrappers
  import opened JsString
  import opened Geo
  import opened PostStore
  import opened Home

  datatype World = World(page: State, pending: nat)

  function Start(): World {
    World(Initial(), 0)
  }

  predicate Settles(e: Event) {
    e.Resolved? || e.Failed?
  }

  /** A settlement needs an attempt still outstanding; everything else can
      always happen. */
  predicate Enabled(w: World, e: Event) {
    Settles(e) ==> w.pending > 0
  }

  /** One event: the page steps, and the count goes up for an attempt the
      event starts and down for one that settles. */
  function Next(w: World, e: Event): (r: World)
    requires Enabled(w, e)
    ensures r.page == Step(w.page, e)
    ensures StartsAttempt(w.page, e) ==> r.pending == w.pending + 1
    ensures Settles(e) ==> r.pending == w.pending - 1
    ensures !StartsAttempt(w.page, e) && !Settles(e) ==> r.pending == w.pending
  {
    var started := if StartsAttempt(w.page, e) then 1 else 0;
    var settled := if Settles(e) then 1 else 0;
    World(Step(w.page, e), w.pending + started - settled)
  }

  /** The events in order, or `None` if one of them could not happen. */
  function Play(w: World, es: seq<Event>): Option<World>
    decreases |es|
  {
    if es == [] then Some(w)
    else if !Enabled(w, es[0]) then None
    else Play(Next(w, es[0]), es[1..])
  }

  /** The spinner is on only while some attempt is outstanding. */
  predicate SpinnerHonest(w: World) {
    w.page.isLoading ==> w.pending > 0
  }

  lemma NextKeepsSpinnerHonest(w: World, e: Event)
    requires SpinnerHonest(w) && Enabled(w, e)
    ensures SpinnerHonest(Next(w, e))
  {
    if e.SubmitClicked? {
      SubmitStartsNoAttempt(w.page, e.id, e.timestamp);
    }
  }

  lemma {:induction false} PlayKeepsSpinnerHonest(w: World, es: seq<Event>)
    requires SpinnerHonest(w)
    ensures Play(w, es).Some? ==> SpinnerHonest(Play(w, es).value)
    decreases |es|
  {
    if es != [] && Enabled(w, es[0]) {
      NextKeepsSpinnerHonest(w, es[0]);
      PlayKeepsSpinnerHonest(Next(w, es[0]), es[1..]);
    }
  }

  /** The converse does not hold: two keystrokes start two attempts, the
      first fails, and the spinner is off while the second is still out. */
  lemma SpinnerOffWhileAttemptOutstanding()
    ensures var w := Play(Start(), [TitleInput("a"), TitleInput("ab"), Failed]);
      w.Some? && w.value.pending == 1 && !w.value.page.isLoading
  {
  }

  /** A failed earlier attempt and a successful later one leave both an
      error message and a location on the page. */
  lemma ErrorAndLocationTogether(c: Coords, address: string)
    ensures var w := Play(Start(), [TitleInput("a"), TitleInput("ab"), Failed, Resolved(c, address)]);
      && w.Some? && w.value.page.location == Some(Location(c, address))
      && w.value.page.locationError == LocationFailureMessage
  {
    var w1 := Next(Start(), TitleInput("a"));
    var w2 := Next(w1, TitleInput("ab"));
    var w3 := Next(w2, Failed);
    var w4 := Next(w3, Resolved(c, address));
    assert Play(w4, []) == Some(w4);
    assert Play(w3, [Resolved(c, address)]) == Some(w4);
    assert Play(w2, [Failed, Resolved(c, address)]) == Some(w4);
    assert Play(w1, [TitleInput("ab"), Failed, Resolved(c, address)]) == Some(w4);
  }

  lemma {:induction false} PlayAppend(w: World, a: seq<Event>, b: seq<Event>)
    ensures Play(w, a + b) == if Play(w, a).Some? then Play(Play(w, a).value, b) else None
    decreases |a|
  {
    if a == [] {
      assert a + b == b;
    } else {
      assert (a + b)[0] == a[0];
      assert (a + b)[1..] == a[1..] + b;
      if Enabled(w, a[0]) {
        PlayAppend(Next(w, a[0]), a[1..], b);
      }
    }
  }

  /** Typing a title and a content starts two attempts. */
  lemma TypeDraft()
    ensures Play(Start(), [TitleInput("a"), ContentInput("b")])
              == Some(World(State([], "a", "b", None, "", true), 2))
  {
  }

  /** Submitting that draft files one post and clears the page, with both
      attempts still outstanding. */
  lemma SubmitDraft(id: int, timestamp: string)
    ensures var w := Next(World(State([], "a", "b", None, "", true), 2), SubmitClicked(id, timestamp));
      && w.pending == 2 && |w.page.posts| == 1
      && w.page.title == [] && w.page.content == [] && w.page.location == None
  {
    var page := State([], "a", "b", None, "", true);
    assert Accepts(page.title, page.content) by {
      assert "a"[0] == 'a' && !IsWhitespace('a');
      assert "b"[0] == 'b' && !IsWhitespace('b');
    }
    SubmitStartsNoAttempt(page, id, timestamp);
  }

  /** An attempt started for one post can settle after that post was
      submitted, so the cleared page holds a location again and the next post
      would be stamped with it. */
  lemma LocationOutlivesSubmit(c: Coords, address: string, id: int, timestamp: string)
    ensures var w := Play(Start(), [TitleInput("a"), ContentInput("b"),
                                    SubmitClicked(id, timestamp), Resolved(c, address)]);
      && w.Some? && |w.value.page.posts| == 1
      && w.value.page.title == [] && w.value.page.content == []
      && w.value.page.location == Some(Location(c, address))
  {
    var typed := [TitleInput("a"), ContentInput("b")];
    var rest := [SubmitClicked(id, timestamp), Resolved(c, address)];
    assert typed + rest == [TitleInput("a"), ContentInput("b"),
                            SubmitClicked(id, timestamp), Resolved(c, address)];
    PlayAppend(Start(), typed, rest);
    TypeDraft();
    var w2 := World(State([], "a", "b", None, "", true), 2);
    SubmitDraft(id, timestamp);
    var w3 := Next(w2, SubmitClicked(id, timestamp));
    var w4 := Next(w3, Resolved(c, address));
    assert Play(w4, []) == Some(w4);
    assert Play(w3, [Resolved(c, address)]) == Some(w4);
  }
}
