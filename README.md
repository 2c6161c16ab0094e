# Movie catalog with comment threads: handlers and client state

This project models the core of a small movie catalog service. A movie has a
title, a category, an image URL and a description. Each movie has a comment
thread, and only a comment's author may edit or delete it. The author is a
name the caller states; nothing verifies it.

What is modelled:

- **Backend handlers.** Four comment handlers (list, create, update, delete) and
  five movie handlers (list, get, create, update, delete), as methods over a
  store object (`Store.Database`). Each handler runs its guards in the source's
  order; each guard returns its status code and message, and the store is left
  unchanged. Only when every guard passes does the handler make its one store
  change. Its contract says exactly what that change is.
- **The store.** The document store is replaced by an in-memory class. It holds
  two collections kept as sequences in insertion order, a clock, and an
  `online` flag. Each insert stamps `createdAt` from the clock and advances it.
  So creation order is store order, and the comment listing
  (`find({movieId}).sort({createdAt: -1}).limit(100)`) is a backwards scan
  proved equal to "reverse of the filter, take 100".
- **Identifier format.** The engine's format check on identifiers is the
  function `validId`, passed to the store's constructor. Its rules are not
  modelled; contracts only say what happens when it accepts or rejects.
- **Store failures.** Every `catch` that answers 500 is modelled by
  `online == false`. A generated identifier that is already taken also fails
  with 500, as a duplicate-key error would.
- **Comment list in the browser.** Posting prepends an entry; deleting filters
  out an identifier after an ownership check. `formatDate` sorts the elapsed
  time into a bucket by floor division.
- **Movie creation form.** Editing changes one field and clears the error.
  Validation runs ordered checks and reports the first failure. Submitting
  sends no request when validation fails, and resets the form after a success.
  Whether `new URL(s)` accepts a string is the function `parsesAsUrl`, given to
  the form's constructor.

Design choices:

- **Two 404s, one status.** A malformed identifier and an absent record both
  answer 404. They stay distinguishable by message ("Invalid Movie Id!" against
  "Movie not found!"), as in the source.
- **Update and delete of movies check only the identifier's format.** Update
  overwrites whichever fields the body supplies. Delete answers 200 whether or
  not a movie had the identifier. Deleting a movie leaves its comments in place.
- **Fresh identifiers and the clock are parameters.** Identifiers the engine
  generates are a `newId` parameter. The browser side's `Date.now()` and
  current time are an `id` and a `now` parameter.
- **A client run.** `Scenario.DuneWalkthrough` takes the store through this
  sequence, using only the handlers' contracts: create a movie, comment on it
  as alice, have bob's edit refused with 403, delete the comment as alice, then
  list an empty thread.

## Model

| member | source | states |
|---|---|---|
| Text.TrimStartShape | backend/controller/comment.controller.js:48-49 | Removing leading whitespace keeps a suffix and cuts only whitespace. What is left does not start with whitespace. Whitespace means the characters ECMAScript `trim` removes. |
| Text.TrimEndShape | backend/controller/comment.controller.js:48-49 | Removing trailing whitespace keeps a prefix and cuts only whitespace. What is left does not end with whitespace. |
| Text.TrimIsMiddle | backend/controller/comment.controller.js:48-49 | `trim` keeps a contiguous middle part, cutting a blank prefix and a blank suffix. The result neither starts nor ends with whitespace. |
| Text.TrimEmptyIffBlank | frontend/src/components/CommentSection.jsx:28 | A string trims to "" exactly when all its characters are whitespace (both directions). |
| Text.TrimUnpadded | backend/controller/comment.controller.js:81 | A non-empty string with no whitespace at either end trims to itself. |
| Text.TrimIdempotent | backend/controller/comment.controller.js:116 | Trimming twice gives the same result as trimming once. |
| Text.NatToStringDenotes | frontend/src/components/CommentSection.jsx:70-72 | The decimal rendering a template literal gives a whole number is all digits, has no leading zero unless the number is 0, and denotes the number. |
| Store.Position | backend/controller/comment.controller.js:74 | The index found is that of the first document with the identifier, or the collection's length when no document has it. |
| Store.Lookup | backend/controller/comment.controller.js:74-78 | `findById` finds nothing exactly when no stored document has the identifier. What it finds is a stored document with that identifier. |
| Store.IndexOf | backend/controller/comment.controller.js:110 | The front-to-back scan returns the position of the first match, or the length when there is none. |
| Store.LookupFindsStored | backend/controller/movie.controller.js:24 | When identifiers are unique, looking up a stored document's identifier returns that document. |
| Store.WithoutId | backend/controller/comment.controller.js:85 | When some document has the identifier, exactly one document is removed. When none has it, the collection is unchanged. |
| Store.WithoutIdKeepsValid | backend/controller/comment.controller.js:85 | Removing by identifier preserves the store invariant: unique identifiers, ascending creation stamps, stamps before the clock. |
| Store.WithoutIdKeepsOthers | backend/controller/comment.controller.js:85 | When identifiers are unique, removal keeps exactly the documents with another identifier. |
| Store.WithoutIdIdempotent | backend/controller/movie.controller.js:79-80 | Removing an identifier twice gives the same result as removing it once, and afterwards no document has that identifier. |
| Store.MatchingMembers | backend/controller/comment.controller.js:13 | `find({movieId})` keeps exactly the stored comments whose movieId equals the request. |
| Store.MatchingAscending | backend/controller/comment.controller.js:13-14 | Filtering keeps comments in creation order. |
| Store.FindNewest | backend/controller/comment.controller.js:13-15 | The backwards scan that stops at 100 returns exactly the newest-first, capped list of the movie's comments. |
| Store.NewestForMembers | backend/controller/comment.controller.js:13-15 | The listing has at most 100 entries. Each is a stored comment of the requested movie. |
| Store.NewestForDescending | backend/controller/comment.controller.js:14 | Creation stamps strictly decrease along the listing (newest first). |
| Store.NewestForComplete | backend/controller/comment.controller.js:14-15 | A comment of the movie is left out only when 100 are returned, and then every returned comment is newer than it. |
| Store.Database.constructor | backend/models/comment.model.js:3-20 | A new store is empty, consistent, and uses the given identifier-format check. |
| Store.Database.InsertMovie | backend/controller/movie.controller.js:44-45 | `save` either refuses a taken identifier and changes nothing, or appends exactly one movie stamped with the clock and advances the clock by one. |
| Store.Database.InsertComment | backend/controller/comment.controller.js:47-53 | Same as InsertMovie, for a comment. |
| Store.Database.UpdateMovie | backend/controller/movie.controller.js:63 | `findByIdAndUpdate` with `new: true` rewrites only the matching movie's fields and returns the result. When no movie matches, it returns nothing and changes nothing. |
| Store.Database.UpdateCommentText | backend/controller/comment.controller.js:120-124 | Only the matching comment's text is replaced; the updated comment is returned. |
| Store.Database.DeleteMovie | backend/controller/movie.controller.js:79 | `findByIdAndDelete` removes the first movie with the identifier. Comments are outside its frame. |
| Store.Database.DeleteComment | backend/controller/comment.controller.js:85 | `findByIdAndDelete` on comments removes the first comment with the identifier. |
| CommentController.CheckTextAndUsername | backend/controller/comment.controller.js:32-38 | The body passes exactly when text and username are present and non-empty and the untrimmed text has at most 500 characters. A missing field is reported before a long text; each rejection is 400. |
| CommentController.TextLimitBoundary | backend/controller/comment.controller.js:36-38 | 500 characters pass and 501 are refused. Surrounding spaces count toward the limit. |
| CommentController.GetCommentsByMovieId | backend/controller/comment.controller.js:5-22 | A malformed movieId gives 404 before any store access. A store failure gives 500. Otherwise the answer is 200 with the movie's newest 100 comments. |
| CommentController.CreateComment | backend/controller/comment.controller.js:24-59 | The guards run in order: id format 404, missing field 400, length 400, store failure 500, absent movie 404, taken id 500. Each rejection leaves the store unchanged. On success exactly one comment is appended, with trimmed text, trimmed username and the given movieId, and the answer is 201 with that comment. |
| CommentController.DeleteComment | backend/controller/comment.controller.js:61-91 | The guards run in order: id format 404, missing username 400, store failure 500, absent comment 404, then 403 when the stored username differs from the trimmed one (case counts). Each rejection leaves the store unchanged. On success only the target is removed and the answer is 200. |
| CommentController.UpdateComment | backend/controller/comment.controller.js:93-131 | The guards run in order: id format 404, body checks 400, store failure 500, absent 404, ownership 403, each leaving the store unchanged. On success only the target's text changes, to the trimmed input, and the answer is 200 with the updated comment. |
| CommentController.UpdateTouchesOnlyText | backend/controller/comment.controller.js:120-126 | After a successful update, every other comment is as before. The target keeps its identifier, stamp, username and movieId. |
| CommentController.DeleteRemovesOnlyTarget | backend/controller/comment.controller.js:85-86 | A successful delete shortens the thread by one and keeps every other comment. |
| MovieController.Overwrite | backend/controller/movie.controller.js:63 | An empty body leaves the record as it was. A complete body sets exactly the four values a create would store, as sent and untrimmed. |
| MovieController.OverwriteLaws | backend/controller/movie.controller.js:63 | Applying the same body twice gives the same record as applying it once. |
| MovieController.GetMovies | backend/controller/movie.controller.js:4-13 | Answers 200 with every stored movie, in store order, with `Cache-Control: no-store`. A store failure gives 500 without the header. |
| MovieController.GetMovieById | backend/controller/movie.controller.js:15-33 | A malformed id gives 404. A store failure gives 500. An absent id gives 404. Otherwise the answer is 200 with the stored movie. |
| MovieController.CreateMovie | backend/controller/movie.controller.js:35-51 | Any of title, category, image or description missing or empty gives 400 before any store access, with no change. On success exactly one movie is appended and returned with 201. |
| MovieController.UpdateMovie | backend/controller/movie.controller.js:53-68 | A malformed id gives 404 with no change. No completeness check is made. A well-formed absent id gives 200 with null data and no change. Otherwise only the matching movie's supplied fields change. |
| MovieController.DeleteMovie | backend/controller/movie.controller.js:70-85 | A malformed id gives 404 with no change. Otherwise the answer is 200 whether or not a movie matched. Afterwards no movie has the id, and comments are untouched (no cascade). |
| MovieController.CreateThenGet | backend/controller/movie.controller.js:42-46 | Looking up a created movie by its new identifier returns all four submitted fields unchanged. |
| CommentSection.FindEntry | frontend/src/components/CommentSection.jsx:55 | `find` returns the first entry with the identifier, and nothing exactly when no entry has it. |
| CommentSection.RemoveEntriesMembers | frontend/src/components/CommentSection.jsx:57 | The filter keeps exactly the entries with another identifier. |
| CommentSection.RemoveEntriesAppend | frontend/src/components/CommentSection.jsx:57 | The filter works piece by piece over a concatenation, so survivors keep their order. |
| CommentSection.RemoveEntriesAbsent | frontend/src/components/CommentSection.jsx:55-57 | Filtering out an identifier that no entry has leaves the list as it was. |
| CommentSection.CommentList.constructor | frontend/src/components/CommentSection.jsx:5-10 | Mode and username are read from storage with defaults: a missing or empty mode is "guest" and a missing username is "". The list and draft start empty. |
| CommentSection.CommentList.EditDraft | frontend/src/components/CommentSection.jsx:97 | The textarea sets the draft. |
| CommentSection.CommentList.SubmitComment | frontend/src/components/CommentSection.jsx:25-52 | A blank draft changes nothing, and so does guest mode. Otherwise exactly one entry is prepended, with the trimmed draft, the current username and the movie. Existing entries follow in order. The draft becomes "" and loading ends false. |
| CommentSection.CommentList.DeleteComment | frontend/src/components/CommentSection.jsx:54-59 | When the first entry with the id belongs to the user, every entry with that id is filtered out. Otherwise (absent, or owned by someone else) the list is unchanged. |
| CommentSection.FloorDiv | frontend/src/components/CommentSection.jsx:65-67 | `Math.floor(diff / unit)` is the whole number q with q*unit <= diff < (q+1)*unit, for negative differences too. |
| CommentSection.AgeOf | frontend/src/components/CommentSection.jsx:61-72 | Under 60000 ms (or in the future) is "Just now". Under an hour is minutes 1-59, under a day is hours 1-23, under a week is days 1-6, each the floor of the elapsed time. Otherwise it is the calendar date. Each range is an if-and-only-if. |
| CommentSection.FormatDate | frontend/src/components/CommentSection.jsx:61-79 | Less than a minute elapsed (a future time included) gives "Just now". From one minute up to an hour gives the floored minute count followed by "m ago". Hours up to a day give "{h}h ago". Days up to a week give "{d}d ago". A week or more, and only that, falls to calendar formatting. |
| CreatePage.WithField | frontend/src/pages/CreatePage.jsx:31-36 | The named field reads back as the new value, and the other three fields keep theirs. |
| CreatePage.FirstProblem | frontend/src/pages/CreatePage.jsx:59-67 | No problem is reported exactly when title, image and description are non-blank, the category is non-empty, and the image parses as a URL. |
| CreatePage.FirstProblemIsFirst | frontend/src/pages/CreatePage.jsx:41-65 | The reported problem is a failing check and every earlier check passes; checks run title, category, image, description, URL. No problem is reported exactly when no check fails. |
| CreatePage.ReplyErrorShowsServer | frontend/src/pages/CreatePage.jsx:104 | Under the corrected `message` reading, a failure envelope shows the server's message, and shows the default "Failed to create movie" only when that message is empty. |
| CreatePage.ReplyErrorAsWrittenIgnoresServer | frontend/src/pages/CreatePage.jsx:104 | Reading `messages`, as the source does, always shows the default text for the backend's failure envelopes. |
| CreatePage.Form.constructor | frontend/src/pages/CreatePage.jsx:7-16 | The form starts with four empty fields, no error and no success message. |
| CreatePage.Form.InputChange | frontend/src/pages/CreatePage.jsx:31-39 | Only the named field changes, and the error is cleared. |
| CreatePage.Form.ValidateForm | frontend/src/pages/CreatePage.jsx:41-68 | Returns true exactly when no check fails, and then leaves the error as it was. On false the error is the first failing check's message. |
| CreatePage.Form.Submit | frontend/src/pages/CreatePage.jsx:70-112 | A failing validation sends nothing and changes only the error. Otherwise the form is posted. A successful reply resets all four fields to "" and sets the success message. A failed reply keeps the form, and the error is the corrected reading `ReplyError` of the reply (see Findings; the source as written always shows "Failed to create movie"). A network failure shows the retry message. Loading ends false. |

## Left out

- Routing, server start-up, environment configuration, static file serving and logging are not modelled. They only dispatch requests and print.
- The identifier-format rules of the document engine are not modelled. `validId` is an opaque function supplied from outside. Identifiers are compared as exact strings, so any normalisation the engine applies when it casts a string to an identifier is absent.
- Only one kind of store failure is modelled. `online` covers every failing engine call (connection loss, timeouts). A failure between the movie check and the insert of `createComment` is not separated from a failure before the check.
- Interleaving is not modelled. The existence check and the insert of `createComment` are two sequential steps, and no concurrent request can interleave with them.
- `updatedAt` is not modelled. The engine's timestamps also keep it, and an update refreshes it; the model records only `createdAt`.
- Schema validation stays in the engine, outside the handlers. Two consequences are only flagged here. First, whitespace-only comment text or username passes the handlers' checks and is stored trimmed to ""; the schema's `required` would refuse that save with 500. Second, `description` is not part of the movie schema, so strict-schema stripping may drop it, while the model stores it.
- Request bodies are modelled as absent-or-string fields. JSON `null`, numbers and other non-string values are not modelled. With them, `.trim()` can throw (answering 500) and an update can store `null`. Body members other than the four movie fields are not modelled either.
- String length counts Unicode scalar values, while JavaScript's `length` counts UTF-16 code units. So a text with characters outside the Basic Multilingual Plane can pass the 500 limit here and fail it in JavaScript.
- Browser I/O is not modelled: `localStorage` loading and saving of the comment list, `alert`, `fetch` itself, navigation and `setTimeout`. The reply of `fetch` is a parameter of `Submit`.
- Calendar-date formatting (`toLocaleDateString`) is not modelled, nor `formatDate` of an unparsable date (NaN).
- CommentSection.FormatDate: stops at the bucket for a week or more and does not produce the calendar-date text.
- CreatePage.Form.Submit: on a failed reply it sets the error by the corrected `message` reading, `ReplyError`. The source reads `data.messages`, so for every failure envelope the backend sends it shows "Failed to create movie" (`ReplyErrorAsWritten`, see Findings).
- Rendering of pages and cards is not modelled, including the category colour lookup.

## Findings

| source | as written | input that shows it | evidently intended | confidence | as-written member | corrected member |
|---|---|---|---|---|---|---|
| frontend/src/pages/CreatePage.jsx:104 | On a failed create, the error shown is the `messages` member of the reply, or else "Failed to create movie". The backend's envelope has a `message` member and never a `messages` one. | A reply `{success: false, message: "Server Error"}` shows "Failed to create movie". | Show the server's `message` when it has one. | high; not executed | CreatePage.ReplyErrorAsWrittenIgnoresServer | CreatePage.ReplyErrorShowsServer |

`CreatePage.Form.Submit` uses the corrected reading, `ReplyError`. The as-written reading is `ReplyErrorAsWritten`.
