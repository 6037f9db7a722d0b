# Movie watchlist: a Dafny model of its forms, records and request handlers

The movie watchlist is a small Flask web application backed by a document store. Users
register, sign in, add movies to their own list, edit a movie's details, rate it,
mark it as watched today, and switch between a dark and a light theme. This project
models the application's core in Dafny and proves properties about that model:

- `models.dfy`: the `Movie` and `User` records, with their declared defaults.
- `text.dfy`: the three Python string operations the multi-line list field relies on.
  These are `str.strip()` (with Python's full white-space set), `str.split("\n")` and
  `"\n".join(...)`.
- `forms.dfy`: the `StringListField` text-area field, as parsing (`process_formdata`)
  and rendering (`_value`). It also has the four forms' validation rules, given as data
  (fields and their validators). The validators run in order, the way WTForms runs a
  field's validator chain.
- `store.dfy`: the two collections (`movie`, `user`) as maps from `_id` to record. It
  also defines the consistency they keep: every record is filed under its own id, and
  every id in a user's movie list names a stored movie.
- `routes.dfy`: the request handlers, as the methods of a class `App`. The class holds
  the session and the two collections. Each handler returns an `Outcome`: a redirect, a
  rendered page, a 404, or the exception the handler lets escape. On a crash, the state
  is left as it was at the crash point.
- `flows.dfy`: two request sequences. The first registers and then signs in. The second
  adds a movie, lists it, rates it and shows it.

Some things the model takes as parameters instead of defining them:

- Python's `int()` on submitted text, and the address grammar of WTForms' `Email()`
  validator: `Forms.Parsers`.
- passlib's `pbkdf2_sha256.hash` and `verify`: `Routes.Hasher`.
- The `uuid4().hex` identifier: a `newId` argument. A collision with a stored id is the
  store's duplicate-key error.
- `datetime.datetime.today()`: a `now` argument.
- Whether the request is a form submission (`validate_on_submit`'s method test): a
  `submitted` argument.
- The `rating` query parameter: an `Option<string>`, `None` when the request has none.

Some behaviours of the code worth knowing:

- `logout` raises `KeyError` when the session has no `user_id` or no `email`. It is not
  a no-op.
- `edit_movie` on an unknown id crashes with `TypeError` from `Movie(**None)`. It does
  not return a 404.
- `rate_movie` with no `rating` crashes with `TypeError` from `int(None)`. A `rating`
  that is not a number crashes with `ValueError`.
- Registering does not check that the address is new. A second registration with the
  same address adds a second account.
- Toggling the theme twice from an absent theme ends at "light", not at the absent
  value. The round trip holds only from "dark" or "light" (`Routes.ToggleTwice`).
- A blank line in a list field is kept: `"A\nB\n\nC"` reads as `["A", "B", "", "C"]`
  (`Forms.BlankLineKept`, for any three trimmed, newline-free entries).

## Model

| member | source | states |
|---|---|---|
| Models.NewMovie | movie_library/models.py:6-18 | a new movie has the given id, title, director and year; empty cast, series and tags; rating 0; no last-watched time, description or video link |
| Models.NewUser | movie_library/models.py:21-26 | a new user has the given id, email and password and an empty movie list |
| Text.SpaceRunEnd | movie_library/forms.py:24 | the scan from the left stops at the first non-space (or the end), and everything it passes is white space |
| Text.SpaceRunStart | movie_library/forms.py:24 | the scan from the right stops just after the last non-space (or at the lower bound), and everything it passes is white space |
| Text.Strip | movie_library/forms.py:24 | `line.strip()` is the part of the line between a white-space prefix and a white-space suffix; it is trimmed at both ends, empty exactly when the line is blank, and the line itself when the line was already trimmed |
| Text.StripTrailingSpace | movie_library/forms.py:24 | a trimmed text followed by one white-space character (such as the `\r` of a `\r\n` line end) strips back to the text |
| Text.Split | movie_library/forms.py:24 | `split("\n")` gives at least one piece, and no piece contains a newline |
| Text.Join | movie_library/forms.py:18 | `"\n".join(entries)` is empty exactly when there are no entries or the one empty entry, and otherwise starts with the first entry |
| Text.SplitCount | movie_library/forms.py:24 | `split("\n")` gives one more piece than the text has newlines |
| Text.JoinSplit | movie_library/forms.py:18-24 | joining the pieces of `split("\n")` with newlines gives back the text |
| Text.SplitJoin | movie_library/forms.py:18-24 | splitting the newline-join of a non-empty list of newline-free entries gives back the list |
| Text.SplitWithoutNewline | movie_library/forms.py:24 | a text without a newline splits into itself alone |
| Text.SplitAfterPiece | movie_library/forms.py:24 | a newline-free piece, a newline and a rest split into the piece followed by the rest's pieces |
| Text.SplitTwo | movie_library/forms.py:24 | two newline-free pieces joined by a newline split into exactly those two pieces |
| Text.SplitBlankLine | movie_library/forms.py:24 | an empty line between two pieces becomes an empty piece |
| Forms.Value | movie_library/forms.py:16-20 | the shown text is empty exactly when the data is missing, no entries, or the one empty entry; otherwise splitting it at newlines gives back newline-free entries |
| Forms.ProcessFormdata | movie_library/forms.py:22-26 | a missing or empty submission gives no entries; otherwise one entry per line (newlines plus one), each entry being its line stripped, so trimmed and newline-free, and "" exactly when its line was blank |
| Forms.RenderThenParse | movie_library/forms.py:15-26 | showing a list of trimmed, newline-free entries whose shown text is not empty, then submitting that text, gives the same list back |
| Forms.BlankEntryIsLost | movie_library/forms.py:15-26 | the list `[""]` is shown as the empty text, and the empty text reads back as no entries: the round trip fails for that list |
| Forms.ParsedIsRepresentable | movie_library/forms.py:22-26 | every list read from a submission has only trimmed, newline-free entries |
| Forms.ShownTextSettles | movie_library/forms.py:15-26 | after one save, the text shown for a list field stays the same on every later save |
| Forms.BlankLineKept | movie_library/forms.py:22-26 | `a\nb\n\nc` reads as `[a, b, "", c]`: the blank line is kept as an empty entry |
| Forms.CarriageReturnDropped | movie_library/forms.py:22-26 | `a\r\nb` reads as `[a, b]`: the carriage return of each line is stripped away |
| Forms.Check | movie_library/forms.py:38-45 | only `InputRequired` stops a chain, and exactly when no value or an empty one was sent, with "This field is required."; a failing `Email` records the invalid-address message, any other failing validator its own message |
| Forms.RunChain | movie_library/forms.py:7-11 | a chain in which some validator stops gives exactly "This field is required."; otherwise the errors already recorded are kept, and nothing is added exactly when every validator passes |
| Forms.FieldErrors | movie_library/forms.py:9-11 | a field has no error exactly when its data converted (an integer field's value is a number, if sent) and every one of its validators passes |
| Forms.Accepts | movie_library/forms.py:6-12 | `validate()` accepts a form exactly when every field's data converted and every validator of every field passes |
| Forms.RequiredOnly | movie_library/forms.py:7-8 | a text field checked only by `InputRequired` has no error exactly when a non-empty value was sent |
| Forms.YearErrors | movie_library/forms.py:9-11 | the year's exact error list: required when missing, the integer error plus the range message when not a number, the range message alone outside 1878 to 2023, none inside |
| Forms.MovieFormAccepts | movie_library/forms.py:6-12 | the basic movie form is accepted if and only if a title, a director and a year in 1878 to 2023 were sent |
| Forms.ExtendedFormSameRules | movie_library/forms.py:29-35 | the extended form starts with the basic form's fields, its extra fields never have errors, and it is accepted exactly when the basic form is |
| Forms.RegisterFormAccepts | movie_library/forms.py:38-46 | registration is accepted if and only if a well-formed address, a password of 4 to 20 characters and an identical confirmation were sent |
| Forms.LoginFormAccepts | movie_library/forms.py:49-52 | login is accepted if and only if a well-formed address and a non-empty password were sent |
| Forms.EmailErrors | movie_library/forms.py:39 | the address field has no error if and only if a non-empty, well-formed address was sent |
| Store.Push | movie_library/routes.py:117-118 | `$push` appends the movie id at the end of that user's list, leaves every other user alone, and matches nothing for an unknown user |
| Store.InsertMovieConsistent | movie_library/routes.py:116 | inserting a movie under a new id keeps the collections consistent |
| Store.PushConsistent | movie_library/routes.py:116-118 | appending the id of a stored movie to a user's list keeps the collections consistent |
| Store.InsertUserConsistent | movie_library/routes.py:62 | inserting a user with an empty list under a new id keeps the collections consistent |
| Store.UpdateMovieConsistent | movie_library/routes.py:145 | rewriting a stored movie under its own id keeps the collections consistent |
| Routes.SignedIn | movie_library/routes.py:24-32 | `login_required` lets a request through exactly when `session.get("email")` is not `None` |
| Routes.HasEmail | movie_library/routes.py:52 | `register` and `login` treat the user as signed in exactly when `session.get("email")` is a non-empty text; that implies `SignedIn` |
| Routes.ToggledTheme | movie_library/routes.py:178-182 | the new theme is "light" exactly when the old one was "dark", and is always "dark" or "light" |
| Routes.ToggleTwice | movie_library/routes.py:176-183 | toggling twice from "dark" or "light" gives back the starting theme |
| Routes.SubmittedMovie | movie_library/routes.py:109-114 | the movie built from an accepted form is a new movie with the submitted non-empty title and director and an in-range year |
| Routes.SubmittedUser | movie_library/routes.py:58-60 | the user built from an accepted form has the submitted well-formed address, the hash of a 4-to-20-character password, and no movies |
| Routes.EditedMovie | movie_library/routes.py:132-143 | the edited movie keeps its id, rating and last-watched time; it takes its lists, texts, title, director and in-range year from the form; a text field the request leaves out keeps its loaded value |
| Routes.App.Index | movie_library/routes.py:24-47 | without `email` in the session: redirect to login. Without `user_id`: `KeyError`. Unknown user: `TypeError`. Otherwise it renders exactly the stored movies whose ids are in the user's list, every listed id included |
| Routes.App.Register | movie_library/routes.py:50-70 | if signed in: redirect to the index. If not accepted: re-render. On acceptance: insert exactly the submitted user, or fail on a duplicate id. The session is never changed, and the collections stay consistent |
| Routes.App.Login | movie_library/routes.py:73-92 | if signed in: redirect to the index. If not accepted: re-render. An unknown address or a wrong password gives the same redirect to login with the session unchanged. A match stores that account's id and email in the session |
| Routes.App.Logout | movie_library/routes.py:95-100 | deletes `user_id`, then `email`, keeping every other key; a missing key raises `KeyError` after the deletions before it |
| Routes.App.AddMovie | movie_library/routes.py:103-126 | an accepted form inserts the submitted movie and appends its id to the signed-in user's list; without `user_id` the movie stays inserted and the handler raises; the collections stay consistent |
| Routes.App.EditMovie | movie_library/routes.py:129-148 | an unknown id crashes; an unaccepted form re-renders with the loaded movie; an accepted one stores the edited movie and redirects to its page |
| Routes.App.ShowMovie | movie_library/routes.py:151-157 | 404 for an unknown id; otherwise the stored movie's detail page, with no sign-in needed |
| Routes.App.RateMovie | movie_library/routes.py:160-165 | a missing rating raises `TypeError` and one that is not a number raises `ValueError`, changing nothing; otherwise only that movie's rating changes, to the parsed number (an unknown id changes nothing), then redirect to its page |
| Routes.App.WatchToday | movie_library/routes.py:168-173 | only that movie's last-watched time changes, to `now` (an unknown id changes nothing), then redirect to its page |
| Routes.App.ToggleTheme | movie_library/routes.py:176-183 | only the session's theme changes, to the toggled value, and the redirect goes to the given page verbatim |
| Flows.RegisterThenLogIn | movie_library/routes.py:50-92 | registering with a valid address and password, then signing in with them, redirects to the index; the session then holds the new account's id and email |
| Flows.AddListAndRate | movie_library/routes.py:103-165 | a movie added by a signed-in user is the only one the index lists; rating it with a text that reads as 5 and showing it shows rating 5 |

## Left out

- Template rendering, flash messages (and the session's `_flashes` key), and the per-field error messages shown on a re-rendered form. A render outcome names only the page and, where the handler passes one, the movie.
- `url_for`: redirects name an endpoint, not a URL.
- The internals of passlib's hash and verify, of `uuid4`, of `int()` and of the address grammar of `Email()`. They are parameters.
- The calendar structure of `datetime`: a last-watched time is an integer.
- CSRF protection and the request-method test of `validate_on_submit`: a boolean `submitted` argument stands for both.
- `SubmitField` values: they take no part in validation.
- The order in which the store returns the movies of an `$in` query: the index page holds a set.
- Requests running at the same time: each handler is one sequential step. The state after a crash is the state at the crash point, whether or not the framework then saves the session.
- `toggle_theme` with no `current_page` (a redirect to `None`). The target is a string argument.
- `Length` with its `max=-1` default and `NumberRange` with an open bound: the validators are given only with the two bounds these forms use.
- Routes.EditedMovie: a text field the request leaves out keeps the value loaded from the stored movie (`Forms.TextData` with the loaded value as prior), because `StringField.process_formdata` assigns only when a value is sent.
- Routes.App.RateMovie: a rating outside the 64-bit range, which the store's driver cannot encode and rejects with `OverflowError`, is stored like any other number; the store driver's integer encoding is not part of this model.
- Routes.App.Login: which of several accounts with the same address is found is left open. The contract fixes the outcome only when no account or every account accepts the password.
