/**
 * The two record collections, `movie` and `user`, as maps from `_id` to record,
 * and the consistency the handlers keep between them.
 */
module Store {
  import opened Models

  type Movies = map<string, Movie>
  type Users = map<string, User>

  /** Every movie is filed under its own `_id`. */
  predicate MoviesKeyed(movies: Movies)
  {
    forall k :: k in movies ==> movies[k].id == k
  }

  /** Every user is filed under its own `_id`. */
  predicate UsersKeyed(users: Users)
  {
    forall k :: k in users ==> users[k].id == k
  }

  /** Every id in a user's movie list names a stored movie: no dangling reference. */
  predicate OwnedMoviesExist(movies: Movies, users: Users)
  {
    forall k, j :: k in users && 0 <= j < |users[k].movies| ==> users[k].movies[j] in movies
  }

  predicate Consistent(movies: Movies, users: Users)
  {
    MoviesKeyed(movies) && UsersKeyed(users) && OwnedMoviesExist(movies, users)
  }

  /**
   * `update_one({"_id": uid}, {"$push": {"movies": mid}})`: appends `mid` to the end of
   * that user's list; matches nothing, and changes nothing, when there is no such user.
   */
  function Push(users: Users, uid: string, mid: string): (r: Users)
    ensures r.Keys == users.Keys
    ensures uid in users ==> r[uid] == users[uid].(movies := users[uid].movies + [mid])
    ensures forall k :: k in users && k != uid ==> r[k] == users[k]
  {
    if uid in users then users[uid := users[uid].(movies := users[uid].movies + [mid])] else users
  }

  /** Inserting a movie under a new id keeps the stores consistent. */
  lemma InsertMovieConsistent(movies: Movies, users: Users, m: Movie)
    requires Consistent(movies, users) && m.id !in movies
    ensures Consistent(movies[m.id := m], users)
  {
  }

  /** Pushing the id of a stored movie keeps the stores consistent. */
  lemma PushConsistent(movies: Movies, users: Users, uid: string, mid: string)
    requires Consistent(movies, users) && mid in movies
    ensures Consistent(movies, Push(users, uid, mid))
  {
    var r := Push(users, uid, mid);
    forall k, j | k in r && 0 <= j < |r[k].movies|
      ensures r[k].movies[j] in movies
    {
      if k == uid && j == |users[k].movies| {
        assert r[k].movies[j] == mid;
      } else {
        assert r[k].movies[j] == users[k].movies[j];
      }
    }
  }

  /** Inserting a user with an empty list under a new id keeps the stores consistent. */
  lemma InsertUserConsistent(movies: Movies, users: Users, u: User)
    requires Consistent(movies, users) && u.id !in users && u.movies == []
    ensures Consistent(movies, users[u.id := u])
  {
  }

  /** Rewriting a stored movie under its own id keeps the stores consistent. */
  lemma UpdateMovieConsistent(movies: Movies, users: Users, m: Movie)
    requires Consistent(movies, users) && m.id in movies
    ensures Consistent(movies[m.id := m], users)
  {
  }
}
