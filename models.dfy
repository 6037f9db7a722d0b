/**
 * The two record types of the watch list, as the store keeps them.
 * `None` stands for Python's `None` in the optional fields.
 */
module Models {
  import opened Wrappers

  /** The moment returned by `datetime.datetime.today()`; its calendar structure is not modelled. */
  type Timestamp = int

  datatype Movie = Movie(
    id: string,
    title: string,
    director: string,
    year: int,
    cast: seq<string>,
    series: seq<string>,
    lastWatched: Option<Timestamp>,
    rating: int,
    tags: seq<string>,
    description: Option<string>,
    videoLink: Option<string>)

  datatype User = User(
    id: string,
    email: string,
    password: string,
    movies: seq<string>)

  /**
   * `Movie(_id=..., title=..., director=..., year=...)`: the four required
   * fields as given, every other field at its declared default.
   */
  function NewMovie(id: string, title: string, director: string, year: int): (m: Movie)
    ensures m.id == id && m.title == title && m.director == director && m.year == year
    ensures m.cast == [] && m.series == [] && m.tags == []
    ensures m.rating == 0
    ensures m.lastWatched == None && m.description == None && m.videoLink == None
  {
    Movie(id, title, director, year, [], [], None, 0, [], None, None)
  }

  /** `User(_id=..., email=..., password=...)`: a user who owns no movies yet. */
  function NewUser(id: string, email: string, password: string): (u: User)
    ensures u.id == id && u.email == email && u.password == password
    ensures u.movies == []
  {
    User(id, email, password, [])
  }
}
