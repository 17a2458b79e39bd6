# Movie-night shortlist and authentication, modelled in Dafny

This project models three pieces of a movie-night web app:

- **The shortlist** of the home page (`src/pages/Home.jsx`): a row of title
  slots, three when a session starts with nothing saved, in which `""` marks
  a free slot. Adding a title fills the first free slot and does nothing when
  every slot is taken; removing a title blanks every slot that holds it.
  Module `Shortlist`.
- **The selection drawer** (`src/components/SelectedMovies.jsx`): the list of
  filled slots, the Random button (up to three watchlist titles not already
  shortlisted, from a shuffled watchlist), the Clear button (one remove per
  slot), and confirming a pick, which posts a log with one entry per slot and,
  when the post succeeds, empties the selection and the poster map.
  Module `Drawer`.
- **Register and login** (`server/routes/auth.js`): the two route handlers as
  pure decisions over a user store (a map from the exact email string to the
  user's id and password hash), returning the new store, the HTTP status and
  body, and the calls made on the store. Module `Auth`.

`Seqs` holds the array operations the JavaScript uses (`includes`,
`findIndex`, `filter`) with their contracts; `Optional` holds `Option`, whose
`None` stands for `undefined`/`null`.

Modelling choices:

- The random sort is an arbitrary permutation `shuffled` of the watchlist,
  given by the caller. The HTTP post of the log is a `PostOutcome`.
- Password hashing and the stored user's password check are arbitrary
  functions in a `Crypto` value. The only property assumed of them is
  `ComparesOwnHash`: a password is accepted against its own hash. The new
  user's id and the clock are parameters. A token is modelled by its claims:
  the user id, the issue time and the expiry, seven days (604800 seconds)
  later.
- Each call in the handlers that can throw (lookup, save, password check,
  signing) is a flag in `Faults`. A thrown call becomes 500 with the
  handler's fixed message.
- The store calls made by a request are recorded as `Access` values. This is
  how the model states that validation happens before the store is touched,
  and that login never saves.

Behaviour of the handlers that the model keeps as it is:

- The handlers pass the email on unchanged to the lookup and the save. The
  model assumes the user collection also stores and looks it up unchanged,
  so emails are matched as exact strings. Under that assumption
  `Auth.EmailsAreCaseSensitive` shows that any two different email strings,
  such as `A@x.com` and `a@x.com`, become two users.
- Register looks the email up and then saves; the two steps are not one
  atomic insert. Sequentially this gives the same outcomes.
- If signing throws after the save, the user stays stored and the response
  is 500; `Auth.Register` states both.

A consequence worth knowing: a successful confirmation sets the selection to
`[]`, not to three free slots. With the home page's add, a `[]` shortlist
has no free slot, so nothing can be added to it
(`Drawer.ConfirmedShortlistTakesNoTitles`). The component that wires the
drawer to a shortlist is not part of this model, so whether a user can reach
this state is not known here.

## Model

| member | source | states |
|---|---|---|
| Seqs.Contains | src/pages/Home.jsx:187-188 | `includes` holds exactly when some element equals the value |
| Seqs.IndexOf | src/pages/Home.jsx:29 | `findIndex` returns -1 exactly when the value is absent, else the first index holding it |
| Seqs.Filter | src/components/SelectedMovies.jsx:24 | the filtered list is no longer than the input and every kept element passes the test |
| Seqs.FilterCounts | src/components/SelectedMovies.jsx:24 | filtering keeps each passing element exactly as often as it occurs and drops every other one |
| Seqs.FilterAppend | src/components/SelectedMovies.jsx:24 | filtering a concatenation gives the concatenated filters, so the original order is kept |
| Shortlist.Initial | src/pages/Home.jsx:19-22 | with nothing saved the shortlist is three free slots, so a title can be added and no real title is selected; a saved shortlist is used as it is |
| Shortlist.CanAdd | src/pages/Home.jsx:188 | `canAdd` holds exactly when some slot is `""` |
| Shortlist.IsSelected | src/pages/Home.jsx:187 | `isSelected(t)` holds exactly when some slot equals `t` |
| Shortlist.Add | src/pages/Home.jsx:28-35 | length is kept; with no free slot nothing changes; otherwise only the first free slot changes, and it takes the title (no duplicate check) |
| Shortlist.AddSelects | src/pages/Home.jsx:29-33 | after adding to a shortlist with a free slot, the title is selected |
| Shortlist.AddUsesOneSlot | src/pages/Home.jsx:29-33 | adding a non-empty title to a shortlist with a free slot lowers the number of free slots by exactly one |
| Shortlist.Remove | src/pages/Home.jsx:37-39 | length is kept; each slot equal to the title becomes `""`; every other slot keeps its value |
| Shortlist.RemoveUnselects | src/pages/Home.jsx:38 | after removing a non-empty title it is no longer selected |
| Shortlist.RemoveIdempotent | src/pages/Home.jsx:38 | removing a title twice gives the same shortlist as removing it once |
| Shortlist.RemoveUndoesAdd | src/pages/Home.jsx:28-39 | removing a non-empty title just added to a shortlist that did not hold it gives back the original shortlist |
| Shortlist.RemoveAll | src/pages/Home.jsx:37-39 | applying the queued removes one after another blanks exactly the slots whose title is one of the removed titles |
| Shortlist.RemoveEachFreesAll | src/components/SelectedMovies.jsx:42-44 | removing every slot's title in turn leaves only free slots |
| Drawer.PosterOf | src/components/SelectedMovies.jsx:50 | `posterMap[title]` is present exactly when the title has an entry, and then it is that entry |
| Drawer.PosterOrNull | src/components/SelectedMovies.jsx:35 | the poster-or-null value is present exactly when the entry exists and is non-empty |
| Drawer.Titles | src/components/SelectedMovies.jsx:24 | `titles` holds no `""`, holds every non-empty title as often as the slots do, and is shorter than the slots by the number of free slots |
| Drawer.TitlesAppend | src/components/SelectedMovies.jsx:24 | the titles of concatenated slot runs are the concatenated titles, so slot order is kept |
| Drawer.TitlesOfFullShortlist | src/components/SelectedMovies.jsx:24 | with no free slot, `titles` is the shortlist itself |
| Drawer.Payload | src/components/SelectedMovies.jsx:48-52 | one log entry per slot, free slots included, in slot order; entry i has slot i's title and `posterMap` entry, and is flagged exactly when its title is the pick |
| Drawer.PayloadFlagsPickOnly | src/components/SelectedMovies.jsx:51 | the number of flagged entries equals the number of slots holding the pick |
| Drawer.Confirm | src/components/SelectedMovies.jsx:47-63 | the posted log matches the slots entry for entry: slot i's title, its `posterMap` entry, and the pick flag exactly when the title is the pick; on success the selection and poster map become empty; on failure both are unchanged |
| Drawer.ConfirmRetrySendsSameLog | src/components/SelectedMovies.jsx:54-62 | confirming again after a failed post sends the same log |
| Drawer.ConfirmedShortlistTakesNoTitles | src/components/SelectedMovies.jsx:58 | after a successful confirmation the shortlist has no free slot, adding leaves it empty, and it lists no titles |
| Drawer.AddCalls | src/components/SelectedMovies.jsx:33-38 | one add call per candidate not already shortlisted, in candidate order, each carrying the title's non-empty poster or null |
| Drawer.Random | src/components/SelectedMovies.jsx:29-39 | an empty watchlist adds nothing; at most three add calls; each title is from the watchlist and not already shortlisted; the titles are the first three of the shuffle, in order, minus those already held |
| Drawer.Clear | src/components/SelectedMovies.jsx:42-44 | one remove call per slot, and applying them all frees every slot |
| Auth.Sign | server/routes/auth.js:32 | a token's subject is the given id and it expires 604800 seconds (7 days) after it is issued |
| Auth.Register | server/routes/auth.js:13-38 | no store call exactly when a field is missing, and then 400 with an unchanged store; otherwise the lookup comes first; a stored email gives 409 and no change; the store only ever gains the new user under the new email; 201 carries a token for the new id; a throwing lookup, or a throwing save or signing for a new email, gives 500 "Registration failed", and every 500 carries that message; a throwing lookup or save leaves the store unchanged, while a throwing signing keeps the saved user |
| Auth.Login | server/routes/auth.js:41-66 | the store never changes; no store call exactly when a field is missing (then 400); otherwise only the lookup; 200 only for a stored email whose password checks, and always for one when nothing throws, with a token for that user's id; unknown email and wrong password both give the single 401 response; a throwing lookup, a throwing password check on a stored email, or a throwing signing after a matching password gives 500 "Login failed", and every 500 carries that message |
| Auth.RegisterFresh | server/routes/auth.js:27-33 | with no faults, a new email adds exactly one user with the new id, keeps every other user, and answers 201 with a token for the new id |
| Auth.RegisterTwiceConflicts | server/routes/auth.js:21-25 | after a successful register, registering the same email again with any password gives 409 and leaves the store unchanged |
| Auth.LoginFailuresIndistinguishable | server/routes/auth.js:50-57 | an unknown email and a wrong password produce the same status and body |
| Auth.RegisterThenLogin | server/routes/auth.js:54-61 | if a password is accepted against its own hash, logging in after a successful register gives 200 with a token for the registered id, expiring seven days after the login |
| Auth.EmailsAreCaseSensitive | server/routes/auth.js:22 | two different email strings not yet stored, such as ones differing only in letter case, register one after the other as two separate users, both answered 201 |

## Left out

- Drawer.Clear, Drawer.Random: the drawer's add and remove are taken to be
  Home's `handleAddPoster`/`handleRemovePoster`
  (src/pages/Home.jsx:28-39). The component that passes them to the drawer
  is not part of this model, so "applying them all frees every slot" holds
  only for a remove that, like Home's, queues a functional update.
- Drawer.Random: does not model React batching. The calls are all made
  against the same snapshot of the shortlist. If the add they reach is
  Home's, which sets a new array built from the rendered shortlist rather
  than queuing a functional update, which of them take effect is React
  scheduling. The model returns the list of calls instead.
- Auth.Register, Auth.Login, Auth.EmailsAreCaseSensitive:
  server/models/User.js is not part of this model. The model assumes its
  schema stores and looks up `email` unchanged: no `lowercase` or `trim`
  option and no case-insensitive collation. With such an option, emails
  differing only in case or surrounding spaces would be one user.
- Drawer.PosterOf, Drawer.PosterOrNull: `posterMap` is a plain object; titles
  that name inherited `Object.prototype` members (`constructor`,
  `__proto__`, ...) are not modelled, and a lookup sees own entries only.
- Drawer.Random: the shuffle `sort(() => 0.5 - Math.random())` is not
  uniformly random. The model accepts any permutation.
- Auth.Register: does not model bcrypt salting. The stored hash is
  `hash(password)` for one fixed hashing function.
- Auth.Register: does not model the concurrent find-then-save race. The
  model is sequential.
- Auth.Login: does not model signatures, hash cost or timing. A token is
  modelled by its claims only.
- Request-body fields that are neither strings nor missing (numbers, objects)
  are not modelled. A field is either absent or a string, and only the
  empty string counts as falsy.
- An unset signing secret is configuration, not logic. It is covered only by
  the `sign` fault flag.
- Reading the saved shortlist from browser storage, JSON parsing, and writing
  it back are I/O. `Shortlist.Initial` takes the already-parsed value.
- The page's fetches, loading and error rendering, modals, the success toast
  and its timer, the drawer's open/closed state and CSS transforms are UI.
- `src/pages/Logs.jsx` and `src/components/Navbar.jsx` only fetch and render
  or navigate, so they are not part of this model.
- The `User` model, which presumably hashes the password on save and
  defines `comparePassword`, is not part of
  this model. Its behaviour is the `Crypto` parameter.
