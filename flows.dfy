/**
 * Sequences of requests against one application state, stated as the promises a
 * user of the site relies on: a registered account can sign in, an added movie
 * appears on the watch list, a rating sticks.
 */
module Flows {
  import opened Wrappers
  import opened Models
  import opened Forms
  import opened Routes

  /** Registering and then signing in with the same address and password signs the new account in. */
  method RegisterThenLogIn(email: string, password: string, p: Parsers, h: Hasher, id: string)
    returns (app: App, o: Outcome)
    requires email != "" && p.isEmail(email)
    requires MinPassword <= |password| <= MaxPassword
    requires h.verify(password, h.hash(password))
    ensures o == Redirect(IndexEndpoint)
    ensures app.session == map[UserIdKey := id, EmailKey := email]
    ensures app.users == map[id := NewUser(id, email, h.hash(password))]
  {
    app := new App();
    var signUp := map["email" := [email], "password" := [password], "confirm_password" := [password]];
    RegisterFormAccepts(signUp, p);
    var registered := app.Register(true, signUp, p, h, id);
    assert app.users == map[id := NewUser(id, email, h.hash(password))];
    var signIn := map["email" := [email], "password" := [password]];
    LoginFormAccepts(signIn, p);
    assert Registered(app.users, email);
    o := app.Login(true, signIn, p, h);
    assert app.session == map[UserIdKey := id, EmailKey := email];
  }

  /**
   * A signed-in user adds a movie: the index lists it with only title, director and
   * year set; rating it with a text that reads as 5 then shows it with rating 5.
   */
  method AddListAndRate(email: string, uid: string, title: string, director: string, yearText: string, year: int,
                        ratingText: string, p: Parsers, id: string)
    returns (listed: Outcome, shown: Outcome)
    requires title != "" && director != "" && yearText != ""
    requires p.parseInt(yearText) == Some(year) && MinYear <= year <= MaxYear
    requires p.parseInt(ratingText) == Some(5)
    ensures listed == Render(IndexPage({NewMovie(id, title, director, year)}))
    ensures shown == Render(MovieDetailsPage(NewMovie(id, title, director, year).(rating := 5)))
  {
    var app := new App();
    app.users := map[uid := NewUser(uid, email, "")];
    app.session := map[EmailKey := email, UserIdKey := uid];
    var form := map["title" := [title], "director" := [director], "year" := [yearText]];
    MovieFormAccepts(form, p);
    var added := app.AddMovie(true, form, p, id);
    var movie := NewMovie(id, title, director, year);
    assert app.movies == map[id := movie];
    assert app.users[uid].movies == [id];
    listed := app.Index();
    assert listed.page.movies == {movie};
    var rated := app.RateMovie(id, Some(ratingText), p);
    shown := app.ShowMovie(id);
  }
}
