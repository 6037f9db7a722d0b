/**
 * The request handlers. Each handler is one sequential step over the session
 * (a string map holding `email`, `user_id` and `theme`, among keys other parts
 * of the framework keep there) and the two record stores, and returns the
 * response as an outcome: a redirect, a rendered page, a 404, or a crash the
 * handler does not catch.
 */
module Routes {
  import opened Wrappers
  import opened Models
  import opened Forms
  import Store

  const EmailKey := "email"
  const UserIdKey := "user_id"
  const ThemeKey := "theme"

  const Dark := "dark"
  const Light := "light"

  type Session = map<string, string>

  /** Where a redirect goes: a named endpoint, or a path taken verbatim from the request. */
  datatype Endpoint = IndexEndpoint | LoginEndpoint | MovieEndpoint(id: string) | Location(path: string)

  datatype Page =
    | IndexPage(movies: set<Movie>)
    | RegisterPage
    | LoginPage
    | NewMoviePage
    | MovieFormPage(movie: Movie)
    | MovieDetailsPage(movie: Movie)

  /** The Python exceptions a handler lets escape. */
  datatype Crash =
    | KeyError(key: string)      // a missing session key
    | TypeError                  // `Movie(**None)` / `User(**None)` after a failed lookup; `int(None)`
    | DuplicateKeyError(id: string)  // `insert_one` with an `_id` already stored
    | ValueError                 // `int()` of a `rating` that is not a number

  datatype Outcome = Redirect(to: Endpoint) | Render(page: Page) | NotFound | Fault(crash: Crash)

  /** passlib's `pbkdf2_sha256.hash` and `pbkdf2_sha256.verify`, taken as given. */
  datatype Hasher = Hasher(hash: string -> string, verify: (string, string) -> bool)

  /** `session.get(key)`. */
  function Get(s: Session, key: string): Option<string>
  {
    if key in s then Some(s[key]) else None
  }

  /** What `login_required` tests: `session.get("email") is not None`. */
  function SignedIn(s: Session): (b: bool)
    ensures b <==> Get(s, EmailKey).Some?
  {
    EmailKey in s
  }

  /**
   * What `register` and `login` test: `session.get("email")` is truthy. A signed-in
   * session whose email is the empty text does not count.
   */
  function HasEmail(s: Session): (b: bool)
    ensures b ==> SignedIn(s)
    ensures b <==> Get(s, EmailKey).Some? && Get(s, EmailKey) != Some("")
  {
    EmailKey in s && s[EmailKey] != ""
  }

  /** The theme after a toggle: "dark" becomes "light"; anything else, absent included, becomes "dark". */
  function ToggledTheme(current: Option<string>): (t: string)
    ensures t == Light <==> current == Some(Dark)
    ensures t == Dark || t == Light
  {
    if current == Some(Dark) then Light else Dark
  }

  /** Toggling twice restores either of the two themes. */
  lemma ToggleTwice(theme: string)
    requires theme == Dark || theme == Light
    ensures ToggledTheme(Some(ToggledTheme(Some(theme)))) == theme
  {
  }

  /** The movie `add_movie` builds from an accepted basic form: the three submitted fields, all else default. */
  function SubmittedMovie(id: string, data: FormData, p: Parsers): (m: Movie)
    requires Accepts(MovieForm, data, p)
    ensures m == NewMovie(id, m.title, m.director, m.year)
    ensures Submitted(data, "title") == Some(m.title) && m.title != ""
    ensures Submitted(data, "director") == Some(m.director) && m.director != ""
    ensures SubmittedYear(data, p) == Some(m.year) && MinYear <= m.year <= MaxYear
  {
    MovieFormAccepts(data, p);
    NewMovie(id, Entered(data, "title"), Entered(data, "director"), SubmittedYear(data, p).value)
  }

  /** The user `register` builds from an accepted form: the submitted address, the hashed password, no movies. */
  function SubmittedUser(id: string, data: FormData, p: Parsers, h: Hasher): (u: User)
    requires Accepts(RegisterForm, data, p)
    ensures u == NewUser(id, u.email, u.password)
    ensures Submitted(data, "email") == Some(u.email) && p.isEmail(u.email)
    ensures u.password == h.hash(Entered(data, "password"))
    ensures MinPassword <= |Entered(data, "password")| <= MaxPassword
  {
    RegisterFormAccepts(data, p);
    NewUser(id, Entered(data, "email"), h.hash(Entered(data, "password")))
  }

  /**
   * The record `edit_movie` writes back from an accepted extended form: cast, series,
   * tags, description, video link, title, director and year come from the form; the
   * id, the rating and the last-watched time are kept. A text field the request
   * leaves out keeps the value it was loaded with.
   */
  function EditedMovie(m: Movie, data: FormData, p: Parsers): (r: Movie)
    requires Accepts(ExtendedMovieForm, data, p)
    ensures r.id == m.id && r.rating == m.rating && r.lastWatched == m.lastWatched
    ensures r.cast == ProcessFormdata(Raw(data, "cast"))
    ensures r.series == ProcessFormdata(Raw(data, "series"))
    ensures r.tags == ProcessFormdata(Raw(data, "tags"))
    ensures r.description == TextData(Raw(data, "description"), m.description)
    ensures r.videoLink == TextData(Raw(data, "video_link"), m.videoLink)
    ensures Submitted(data, "title") == Some(r.title) && Submitted(data, "director") == Some(r.director)
    ensures SubmittedYear(data, p) == Some(r.year) && MinYear <= r.year <= MaxYear
  {
    ExtendedFormSameRules(data, p);
    MovieFormAccepts(data, p);
    m.(cast := ProcessFormdata(Raw(data, "cast")),
       series := ProcessFormdata(Raw(data, "series")),
       tags := ProcessFormdata(Raw(data, "tags")),
       description := TextData(Raw(data, "description"), m.description),
       videoLink := TextData(Raw(data, "video_link"), m.videoLink),
       title := Entered(data, "title"),
       director := Entered(data, "director"),
       year := SubmittedYear(data, p).value)
  }

  /** Some account is registered under this address. */
  predicate Registered(users: Store.Users, email: string)
  {
    exists uid :: uid in users && users[uid].email == email
  }

  /** No account under this address accepts the password: none exists, or every one rejects it. */
  predicate NoAccountAccepts(users: Store.Users, email: string, password: string, h: Hasher)
  {
    forall uid :: uid in users && users[uid].email == email ==> !h.verify(password, users[uid].password)
  }

  /** Every account under this address accepts the password. */
  predicate EveryAccountAccepts(users: Store.Users, email: string, password: string, h: Hasher)
  {
    forall uid :: uid in users && users[uid].email == email ==> h.verify(password, users[uid].password)
  }

  /** The application state one request sees and changes. */
  class App {
    var session: Session
    var movies: Store.Movies
    var users: Store.Users

    ghost predicate Valid()
      reads this
    {
      Store.Consistent(movies, users)
    }

    /** An empty session and empty stores. */
    constructor ()
      ensures Valid()
      ensures session == map[] && movies == map[] && users == map[]
    {
      session, movies, users := map[], map[], map[];
    }

    /**
     * `index`: the signed-in user's movies, each stored movie whose id is in the
     * user's list, in no particular order.
     */
    method Index() returns (o: Outcome)
      requires Valid()
      ensures !SignedIn(session) ==> o == Redirect(LoginEndpoint)
      ensures SignedIn(session) && UserIdKey !in session ==> o == Fault(KeyError(UserIdKey))
      ensures SignedIn(session) && UserIdKey in session && session[UserIdKey] !in users ==> o == Fault(TypeError)
      ensures SignedIn(session) && UserIdKey in session && session[UserIdKey] in users ==>
        var owned := users[session[UserIdKey]].movies;
        && o.Render? && o.page.IndexPage?
        && (forall m :: m in o.page.movies <==> m in movies.Values && m.id in owned)
        && (forall j :: 0 <= j < |owned| ==> movies[owned[j]] in o.page.movies)
    {
      if EmailKey !in session {
        return Redirect(LoginEndpoint);
      }
      if UserIdKey !in session {
        return Fault(KeyError(UserIdKey));
      }
      var uid := session[UserIdKey];
      if uid !in users {
        return Fault(TypeError);
      }
      var owned := users[uid].movies;
      var listed := set k | k in movies && k in owned :: movies[k];
      o := Render(IndexPage(listed));
    }

    /**
     * `register`: with no signed-in email, an accepted form inserts one new user with
     * an empty movie list. The session is never changed: registering does not sign in.
     */
    method Register(submitted: bool, data: FormData, p: Parsers, h: Hasher, newId: string) returns (o: Outcome)
      requires Valid()
      modifies this
      ensures Valid()
      ensures session == old(session) && movies == old(movies)
      ensures HasEmail(session) ==> o == Redirect(IndexEndpoint) && users == old(users)
      ensures !HasEmail(session) && !(submitted && Accepts(RegisterForm, data, p)) ==>
        o == Render(RegisterPage) && users == old(users)
      ensures !HasEmail(session) && submitted && Accepts(RegisterForm, data, p) && newId in old(users) ==>
        o == Fault(DuplicateKeyError(newId)) && users == old(users)
      ensures !HasEmail(session) && submitted && Accepts(RegisterForm, data, p) && newId !in old(users) ==>
        o == Redirect(IndexEndpoint) && users == old(users)[newId := SubmittedUser(newId, data, p, h)]
    {
      if HasEmail(session) {
        return Redirect(IndexEndpoint);
      }
      if !(submitted && Accepts(RegisterForm, data, p)) {
        return Render(RegisterPage);
      }
      var user := SubmittedUser(newId, data, p, h);
      if user.id in users {
        return Fault(DuplicateKeyError(user.id));
      }
      Store.InsertUserConsistent(movies, users, user);
      users := users[user.id := user];
      o := Redirect(IndexEndpoint);
    }

    /**
     * `login`: looks up an account by the submitted address and checks the password
     * against its hash. An unknown address and a wrong password give the same
     * redirect back to the login page and leave the session alone; a match puts the
     * account's id and email into the session. Which of several accounts with one
     * address is found is left open.
     */
    method Login(submitted: bool, data: FormData, p: Parsers, h: Hasher) returns (o: Outcome)
      requires Valid()
      modifies this
      ensures Valid()
      ensures movies == old(movies) && users == old(users)
      ensures HasEmail(old(session)) ==> o == Redirect(IndexEndpoint) && session == old(session)
      ensures !HasEmail(old(session)) && !(submitted && Accepts(LoginForm, data, p)) ==>
        o == Render(LoginPage) && session == old(session)
      ensures !HasEmail(old(session)) && submitted && Accepts(LoginForm, data, p) ==>
        || (o == Redirect(LoginEndpoint) && session == old(session))
        || (o == Redirect(IndexEndpoint) &&
            exists uid :: uid in users && users[uid].email == Entered(data, "email")
              && h.verify(Entered(data, "password"), users[uid].password)
              && session == old(session)[UserIdKey := uid][EmailKey := users[uid].email])
      ensures (!HasEmail(old(session)) && submitted && Accepts(LoginForm, data, p) &&
               NoAccountAccepts(users, Entered(data, "email"), Entered(data, "password"), h)) ==>
        o == Redirect(LoginEndpoint) && session == old(session)
      ensures (!HasEmail(old(session)) && submitted && Accepts(LoginForm, data, p) &&
               Registered(users, Entered(data, "email")) &&
               EveryAccountAccepts(users, Entered(data, "email"), Entered(data, "password"), h)) ==>
        o == Redirect(IndexEndpoint)
    {
      if HasEmail(session) {
        return Redirect(IndexEndpoint);
      }
      if !(submitted && Accepts(LoginForm, data, p)) {
        return Render(LoginPage);
      }
      var email, password := Entered(data, "email"), Entered(data, "password");
      var found := set k | k in users && users[k].email == email;
      if found == {} {
        forall k | k in users
          ensures users[k].email != email
        {
          assert k !in found;
        }
        return Redirect(LoginEndpoint);
      }
      var uid :| uid in found;
      var user := users[uid];
      if !h.verify(password, user.password) {
        return Redirect(LoginEndpoint);
      }
      session := session[UserIdKey := user.id];
      session := session[EmailKey := user.email];
      o := Redirect(IndexEndpoint);
    }

    /**
     * `logout`: deletes `user_id`, then `email`, and keeps every other key. A missing
     * key raises at the deletion that needs it, after any deletion before it.
     */
    method Logout() returns (o: Outcome)
      requires Valid()
      modifies this
      ensures Valid()
      ensures movies == old(movies) && users == old(users)
      ensures UserIdKey !in old(session) ==> o == Fault(KeyError(UserIdKey)) && session == old(session)
      ensures UserIdKey in old(session) && EmailKey !in old(session) ==>
        o == Fault(KeyError(EmailKey)) && session == old(session) - {UserIdKey}
      ensures UserIdKey in old(session) && EmailKey in old(session) ==>
        o == Redirect(LoginEndpoint) && session == old(session) - {UserIdKey, EmailKey}
    {
      if UserIdKey !in session {
        return Fault(KeyError(UserIdKey));
      }
      session := session - {UserIdKey};
      if EmailKey !in session {
        return Fault(KeyError(EmailKey));
      }
      session := session - {EmailKey};
      o := Redirect(LoginEndpoint);
    }

    /**
     * `add_movie`: an accepted form inserts a new movie carrying only title, director
     * and year, then appends its id to the end of the signed-in user's list. The two
     * writes are separate: without `user_id` in the session the movie stays inserted
     * and the handler raises.
     */
    method AddMovie(submitted: bool, data: FormData, p: Parsers, newId: string) returns (o: Outcome)
      requires Valid()
      modifies this
      ensures Valid()
      ensures session == old(session)
      ensures !SignedIn(session) ==> o == Redirect(LoginEndpoint) && movies == old(movies) && users == old(users)
      ensures SignedIn(session) && !(submitted && Accepts(MovieForm, data, p)) ==>
        o == Render(NewMoviePage) && movies == old(movies) && users == old(users)
      ensures SignedIn(session) && submitted && Accepts(MovieForm, data, p) && newId in old(movies) ==>
        o == Fault(DuplicateKeyError(newId)) && movies == old(movies) && users == old(users)
      ensures SignedIn(session) && submitted && Accepts(MovieForm, data, p) && newId !in old(movies) ==>
        && movies == old(movies)[newId := SubmittedMovie(newId, data, p)]
        && (UserIdKey !in session ==> o == Fault(KeyError(UserIdKey)) && users == old(users))
        && (UserIdKey in session ==> o == Redirect(IndexEndpoint) && users == Store.Push(old(users), session[UserIdKey], newId))
    {
      if EmailKey !in session {
        return Redirect(LoginEndpoint);
      }
      if !(submitted && Accepts(MovieForm, data, p)) {
        return Render(NewMoviePage);
      }
      var movie := SubmittedMovie(newId, data, p);
      if movie.id in movies {
        return Fault(DuplicateKeyError(movie.id));
      }
      Store.InsertMovieConsistent(movies, users, movie);
      movies := movies[movie.id := movie];
      if UserIdKey !in session {
        return Fault(KeyError(UserIdKey));
      }
      Store.PushConsistent(movies, users, session[UserIdKey], movie.id);
      users := Store.Push(users, session[UserIdKey], movie.id);
      o := Redirect(IndexEndpoint);
    }

    /**
     * `edit_movie`: loads the movie (an absent id crashes), and on an accepted extended
     * form writes back the record with the form's fields, then shows the movie.
     */
    method EditMovie(id: string, submitted: bool, data: FormData, p: Parsers) returns (o: Outcome)
      requires Valid()
      modifies this
      ensures Valid()
      ensures session == old(session) && users == old(users)
      ensures !SignedIn(session) ==> o == Redirect(LoginEndpoint) && movies == old(movies)
      ensures SignedIn(session) && id !in old(movies) ==> o == Fault(TypeError) && movies == old(movies)
      ensures SignedIn(session) && id in old(movies) && !(submitted && Accepts(ExtendedMovieForm, data, p)) ==>
        o == Render(MovieFormPage(old(movies)[id])) && movies == old(movies)
      ensures SignedIn(session) && id in old(movies) && submitted && Accepts(ExtendedMovieForm, data, p) ==>
        o == Redirect(MovieEndpoint(id)) && movies == old(movies)[id := EditedMovie(old(movies)[id], data, p)]
    {
      if EmailKey !in session {
        return Redirect(LoginEndpoint);
      }
      if id !in movies {
        return Fault(TypeError);
      }
      var movie := movies[id];
      if !(submitted && Accepts(ExtendedMovieForm, data, p)) {
        return Render(MovieFormPage(movie));
      }
      movie := EditedMovie(movie, data, p);
      Store.UpdateMovieConsistent(movies, users, movie);
      movies := movies[id := movie];
      o := Redirect(MovieEndpoint(movie.id));
    }

    /** `movie`: the detail page of a stored movie, 404 for an absent id; no sign-in needed. */
    method ShowMovie(id: string) returns (o: Outcome)
      ensures id !in movies ==> o == NotFound
      ensures id in movies ==> o == Render(MovieDetailsPage(movies[id]))
    {
      if id !in movies {
        return NotFound;
      }
      o := Render(MovieDetailsPage(movies[id]));
    }

    /**
     * `rate_movie`: sets the rating of the movie with this id, and nothing else, then
     * shows it. `rating` is the raw query parameter, None when the request has none:
     * `int(None)` raises `TypeError`, and `int()` of a text that is not a number raises
     * `ValueError`. An absent id matches nothing.
     */
    method RateMovie(id: string, rating: Option<string>, p: Parsers) returns (o: Outcome)
      requires Valid()
      modifies this
      ensures Valid()
      ensures session == old(session) && users == old(users)
      ensures !SignedIn(session) ==> o == Redirect(LoginEndpoint) && movies == old(movies)
      ensures SignedIn(session) && rating.None? ==> o == Fault(TypeError) && movies == old(movies)
      ensures SignedIn(session) && rating.Some? && p.parseInt(rating.value).None? ==>
        o == Fault(ValueError) && movies == old(movies)
      ensures SignedIn(session) && rating.Some? && p.parseInt(rating.value).Some? ==>
        var n := p.parseInt(rating.value).value;
        && o == Redirect(MovieEndpoint(id))
        && movies == if id in old(movies) then old(movies)[id := old(movies)[id].(rating := n)] else old(movies)
    {
      if EmailKey !in session {
        return Redirect(LoginEndpoint);
      }
      if rating.None? {
        return Fault(TypeError);
      }
      var n := p.parseInt(rating.value);
      if n.None? {
        return Fault(ValueError);
      }
      if id in movies {
        Store.UpdateMovieConsistent(movies, users, movies[id].(rating := n.value));
        movies := movies[id := movies[id].(rating := n.value)];
      }
      o := Redirect(MovieEndpoint(id));
    }

    /** `watch_today`: sets the last-watched time of the movie with this id to `now`, and nothing else. */
    method WatchToday(id: string, now: Timestamp) returns (o: Outcome)
      requires Valid()
      modifies this
      ensures Valid()
      ensures session == old(session) && users == old(users)
      ensures !SignedIn(session) ==> o == Redirect(LoginEndpoint) && movies == old(movies)
      ensures SignedIn(session) ==>
        && o == Redirect(MovieEndpoint(id))
        && movies == if id in old(movies) then old(movies)[id := old(movies)[id].(lastWatched := Some(now))] else old(movies)
    {
      if EmailKey !in session {
        return Redirect(LoginEndpoint);
      }
      if id in movies {
        Store.UpdateMovieConsistent(movies, users, movies[id].(lastWatched := Some(now)));
        movies := movies[id := movies[id].(lastWatched := Some(now))];
      }
      o := Redirect(MovieEndpoint(id));
    }

    /** `toggle_theme`: flips the theme and sends the browser back to the page it names. */
    method ToggleTheme(currentPage: string) returns (o: Outcome)
      requires Valid()
      modifies this
      ensures Valid()
      ensures movies == old(movies) && users == old(users)
      ensures session == old(session)[ThemeKey := ToggledTheme(Get(old(session), ThemeKey))]
      ensures o == Redirect(Location(currentPage))
    {
      session := session[ThemeKey := ToggledTheme(Get(session, ThemeKey))];
      o := Redirect(Location(currentPage));
    }
  }
}
