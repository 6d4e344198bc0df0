# Location-stamped notes: a Dafny model of the `Home` page

The page lets a user write short posts (a title and a content). While a
draft is being typed, the page asks the browser for the device position and
a reverse geocoder for an address. A submitted post freezes whatever
location the page holds at that moment. Posts are listed newest first, and
a post can be deleted by its id.

This project models the page's state handling as pure transitions over an
immutable record:

- `JsString` (`js_string.dfy`): JavaScript truthiness of strings and
  `String.prototype.trim`. Trim removes the WhiteSpace and LineTerminator
  code points of ECMA-262 from both ends.
- `Geo` (`geo.dfy`): the stored location. It holds the coordinates spread
  together with the geocoded address.
- `PostStore` (`post_store.dfy`): the post record, the validation that
  builds a post from a draft, and `filter`-by-id deletion.
- `Home` (`home.dfy`): the page state `(posts, title, content, location,
  locationError, isLoading)`. It also holds the submit and delete handlers,
  the effect that starts a location attempt when the draft changes, the two
  ways an attempt settles, and runs of events.
- `Attempts` (`attempts.dfy`): the page paired with the number of attempts
  still outstanding. The count only decides when a settlement may arrive.
  Three concrete event sequences show what the page does under overlapping
  attempts.

What the page lacks matters for the location status:

- It keeps no generation ids. A settling attempt writes into the state as it
  finds it, so the last attempt to ARRIVE wins, not the last one started.
- A submit clears the location and the error, but it leaves the spinner as
  it was and does not stop attempts still in flight.
- Every failure gets the same message, whatever the cause.
- Post ids come from the clock and may repeat.

The model keeps exactly this behaviour. The lemmas `LastArrivalWins`,
`ArrivalOrderDecides`, `ErrorAndLocationTogether`,
`SpinnerOffWhileAttemptOutstanding` and `LocationOutlivesSubmit` state its
consequences.

## Model

| member | source | states |
|---|---|---|
| JsString.SkipLeading | my-app/src/app/page.js:83 | the index where leading whitespace ends: everything before it is whitespace and the code point at it is not |
| JsString.SkipTrailing | my-app/src/app/page.js:83 | the index where trailing whitespace starts: everything from it on is whitespace and the code point before it is not |
| JsString.Trim | my-app/src/app/page.js:83 | `trim()` leaves no whitespace at either end, and it yields "" exactly when the string is all whitespace |
| JsString.TrimIsSlice | my-app/src/app/page.js:90-91 | what `trim()` keeps is a contiguous slice of the input, with only whitespace on either side |
| JsString.SkipLeadingStopsAt | my-app/src/app/page.js:83 | any index that ends a whitespace run at a non-whitespace code point is where leading whitespace ends |
| JsString.SkipTrailingStopsAt | my-app/src/app/page.js:83 | any index that starts a trailing whitespace run after a non-whitespace code point is where trailing whitespace starts |
| JsString.TrimRecovers | my-app/src/app/page.js:90-91 | an independent characterisation: trimming any whitespace-padded string with non-whitespace ends gives back exactly that string |
| JsString.TrimIdempotent | my-app/src/app/page.js:90-91 | trimming a trimmed field changes nothing |
| PostStore.MakePost | my-app/src/app/page.js:83-94 | a draft is rejected exactly when the title or the content is all whitespace (including ""); an accepted post holds exactly the trimmed title and content, which are non-empty, and the given location (possibly none), id and timestamp |
| PostStore.DeletePost | my-app/src/app/page.js:104-105 | no remaining post has the id, and the list never grows |
| PostStore.DeleteCounts | my-app/src/app/page.js:105 | exactly the posts with the id are dropped: every other post is kept as many times as it occurred |
| PostStore.DeleteKeepsOrder | my-app/src/app/page.js:105 | deletion distributes over concatenation, so surviving posts keep their relative order |
| PostStore.DeleteAbsentId | my-app/src/app/page.js:105 | deleting an id that no post carries leaves the list identical |
| PostStore.DeleteIdempotent | my-app/src/app/page.js:105 | deleting the same id twice equals deleting it once |
| PostStore.DeleteShrinksIff | my-app/src/app/page.js:105 | the list gets shorter exactly when some post carries the id |
| PostStore.DeleteCommutes | my-app/src/app/page.js:105 | deleting two ids gives the same list in either order |
| Home.Initial | my-app/src/app/page.js:7-12 | the first render has no posts, no draft, no location, no error and no spinner, so the effect's run on mount does nothing |
| Home.Handle | my-app/src/app/page.js:64-172 | typing into the title or content input (lines 120, 127) changes only that field; a settlement (lines 64-76), a submit (line 115) and a delete click (line 172) run `Resolve`, `Fail`, `Submit` and `Delete` |
| Home.StartAttempt | my-app/src/app/page.js:59-61 | with a non-empty raw title or content, the spinner turns on and the error is cleared; with an empty draft nothing changes; posts, draft and location are never touched |
| Home.Resolve | my-app/src/app/page.js:64-70 | a successful attempt stores its location and turns the spinner off; it keeps the error message and the rest of the state |
| Home.Fail | my-app/src/app/page.js:72-76 | a failed attempt sets a non-empty error and turns the spinner off; it keeps any stored location |
| Home.Submit | my-app/src/app/page.js:81-101 | a blank draft leaves the state unchanged. Otherwise the list grows by exactly one post at the head and the old list is its tail. The new post holds the trimmed fields and the location held at submit time. Title, content, location and error are cleared. The spinner is untouched |
| Home.Delete | my-app/src/app/page.js:104-106 | only the post list changes; no post with the id remains in it, it does not grow, and every other post is kept, in order |
| Home.Step | my-app/src/app/page.js:58-78 | an event that starts an attempt is its handler followed by turning the spinner on and clearing the error; a step that starts no attempt is exactly its handler; only submit and delete change posts, a submit adding at most one post in front and a delete keeping every other post in order |
| Home.SubmitStartsNoAttempt | my-app/src/app/page.js:58-59 | clearing the draft on submit re-runs the effect but starts nothing, so a submit is exactly its handler |
| Home.TitleInputStartsAttemptIff | my-app/src/app/page.js:59 | editing the title starts an attempt exactly when the value changes and the resulting draft is not empty as a raw string |
| Home.ContentInputStartsAttemptIff | my-app/src/app/page.js:59 | editing the content starts an attempt under the symmetric condition |
| Home.WhitespaceDraftIsProbedButRejected | my-app/src/app/page.js:59-86 | a whitespace-only title starts a location attempt, yet a submit of that draft is rejected and changes nothing |
| Home.SubmitThenDeleteRestores | my-app/src/app/page.js:88-105 | deleting the id a submit just used restores the previous list, when no older post carried that id |
| Home.PostsAreFrozen | my-app/src/app/page.js:92-96 | without a delete, the list a run starts from remains, value for value, the tail of the final list, so a post's location never changes after creation |
| Home.LastArrivalWins | my-app/src/app/page.js:63-76 | the last successful attempt to arrive decides the location until another success or a submit, whichever attempt was started last; a later failure does not undo it |
| Home.ArrivalOrderDecides | my-app/src/app/page.js:64-69 | two different successful results leave different locations depending only on their arrival order |
| Attempts.Next | my-app/src/app/page.js:58-78 | the page takes one step; an event that starts an attempt adds exactly one outstanding attempt, a settlement removes exactly one, and every other event leaves the count unchanged |
| Attempts.NextKeepsSpinnerHonest | my-app/src/app/page.js:60-75 | the spinner is on only while some attempt is outstanding, and every event keeps this |
| Attempts.PlayKeepsSpinnerHonest | my-app/src/app/page.js:60-75 | the same holds after any feasible sequence of events |
| Attempts.SpinnerOffWhileAttemptOutstanding | my-app/src/app/page.js:60-75 | the converse fails: after two keystrokes and one failure, the spinner is off while an attempt is still out |
| Attempts.ErrorAndLocationTogether | my-app/src/app/page.js:61-75 | an earlier failure followed by a later success leaves both an error message and a location on the page |
| Attempts.LocationOutlivesSubmit | my-app/src/app/page.js:63-99 | an attempt started for a submitted post can settle afterwards, so the cleared page holds a location that the next post would capture |

## Left out

- Device positioning (`getCurrentLocation`, my-app/src/app/page.js:15-40) is a browser API. Its outcome enters only as a `Resolved` or `Failed` event. The accuracy options (high accuracy, 10 s timeout, 60 s maximum age) are not modelled.
- Reverse geocoding (`getAddressFromCoords`, lines 43-55) is network I/O. Its fallback `toFixed(6)` string is float formatting. The address enters as an opaque string inside `Resolved`.
- Latitude, longitude and accuracy are float64 in the page. They are carried as uninterpreted reals, and no arithmetic is done on them.
- `Date.now()` ids and the `ko-KR` locale timestamp (lines 89, 93) are clock and locale calls. They are parameters of the submit event, and ids are not assumed unique.
- The `alert` on a rejected draft (line 84), `console.error`, all JSX rendering and CSS are UI. A rejected submit is modelled as leaving the state unchanged.
- Strings are sequences of Unicode scalar values (Dafny `char`), while JavaScript strings are UTF-16 code units. Every whitespace code point is a non-surrogate in the Basic Multilingual Plane, so `trim()` and truthiness agree on every string the model can hold, but a string with a lone surrogate cannot be represented.
- React scheduling is reduced to one render per event, with handler setters batched. The effect re-runs after that render exactly when `title` or `content` changed. The development-mode double run of effects is not modelled.
- Async interleaving is modelled only as the order of discrete settlement events. Each started attempt settles at most once, at any later point. Attempts are not told apart, because the page does not tell them apart either.
