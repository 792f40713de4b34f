/** The customer home page: the genre tabs, the genre filter and the two links of each movie card. */
module HomePage {
  import opened Types
  import opened Seqs
  import MockData

  /** The tab that shows every movie. */
  const AllGenres: string := "All"

  /** `movies.map(movie => movie.genre)`. */
  function GenreOf(movies: seq<Movie>): (r: seq<string>)
    ensures |r| == |movies|
    ensures forall i :: 0 <= i < |movies| ==> r[i] == movies[i].genre
  {
    seq(|movies|, i requires 0 <= i < |movies| => movies[i].genre)
  }

  /**
   * `genres`: the tab "All" followed by every genre of the movies once, in the
   * order in which the movies first mention them.
   */
  function Genres(movies: seq<Movie>): (r: seq<string>)
    ensures |r| >= 1 && r[0] == AllGenres
    ensures NoDuplicates(r[1..])
    ensures forall g :: g in r[1..] <==> exists m :: m in movies && m.genre == g
    ensures forall i, j :: 1 <= i < j < |r| ==>
      r[i] in GenreOf(movies) && r[j] in GenreOf(movies) &&
      FirstIndex(GenreOf(movies), r[i]) < FirstIndex(GenreOf(movies), r[j])
  {
    var d := Distinct(GenreOf(movies));
    DistinctOrder(GenreOf(movies));
    assert forall g :: g in GenreOf(movies) <==> exists m :: m in movies && m.genre == g by {
      forall g ensures g in GenreOf(movies) ==> exists m :: m in movies && m.genre == g {
        if g in GenreOf(movies) {
          var i :| 0 <= i < |movies| && GenreOf(movies)[i] == g;
          assert movies[i] in movies;
        }
      }
      forall g ensures (exists m :: m in movies && m.genre == g) ==> g in GenreOf(movies) {
        if m :| m in movies && m.genre == g {
          var i :| 0 <= i < |movies| && movies[i] == m;
          assert GenreOf(movies)[i] == g;
        }
      }
    }
    assert ([AllGenres] + d)[1..] == d;
    [AllGenres] + d
  }

  /** `filteredMovies`: every movie under "All", otherwise the movies of the chosen genre in catalogue order. */
  function FilteredMovies(movies: seq<Movie>, selectedGenre: string): (r: seq<Movie>)
    ensures selectedGenre == AllGenres ==> r == movies
    ensures selectedGenre != AllGenres ==> forall m :: m in r <==> m in movies && m.genre == selectedGenre
  {
    if selectedGenre == AllGenres then movies else Filter(movies, (m: Movie) => m.genre == selectedGenre)
  }

  /** Every tab of `genres`, "All" included, shows at least one movie of a non-empty catalogue. */
  lemma {:induction false} EveryGenreTabShowsMovies(movies: seq<Movie>, g: string)
    requires g in Genres(movies)
    requires movies != []
    ensures FilteredMovies(movies, g) != []
  {
    if g != AllGenres {
      var r := Genres(movies);
      var i :| 0 <= i < |r| && r[i] == g;
      assert i != 0;
      assert g in r[1..];
      var m :| m in movies && m.genre == g;
      assert m in FilteredMovies(movies, g);
    }
  }

  /** The genre filter keeps catalogue order: filtering a concatenation filters each part. */
  lemma FilterKeepsOrder(a: seq<Movie>, b: seq<Movie>, g: string)
    ensures FilteredMovies(a + b, g) == FilteredMovies(a, g) + FilteredMovies(b, g)
  {
    if g != AllGenres {
      FilterConcat(a, b, (m: Movie) => m.genre == g);
    }
  }

  /** The shipped catalogue's tabs: All, Sci-Fi, Action, Drama. */
  lemma ShippedGenres()
    ensures Genres(MockData.Movies) == [AllGenres, "Sci-Fi", "Action", "Drama"]
  {
    var gs := GenreOf(MockData.Movies);
    assert gs == ["Sci-Fi", "Action", "Sci-Fi", "Drama"];
    RepeatedFirstGenre(gs, "Sci-Fi", "Action", "Drama");
  }

  /** A repeated first genre is listed once, in first-occurrence order. */
  lemma RepeatedFirstGenre(gs: seq<string>, a: string, b: string, c: string)
    requires gs == [a, b, a, c] && a != b && a != c && b != c
    ensures Distinct(gs) == [a, b, c]
  {
    TwoThenFirst(a, b);
    DistinctSnoc([a, b, a], c);
    assert [a, b, a] + [c] == gs;
  }

  lemma TwoThenFirst(a: string, b: string)
    requires a != b
    ensures Distinct([a, b, a]) == [a, b]
  {
    TwoGenres(a, b);
    DistinctSnoc([a, b], a);
    assert [a, b] + [a] == [a, b, a];
  }

  lemma TwoGenres(a: string, b: string)
    requires a != b
    ensures Distinct([a, b]) == [a, b]
  {
    DistinctSnoc([a], b);
    assert [a] + [b] == [a, b];
    assert Distinct([a]) == [a] by {
      DistinctSnoc([], a);
      assert [] + [a] == [a];
    }
  }

  /** handleBookTicket's target: `/booking/${movieId}`. */
  function BookingPath(movieId: string): (p: string)
    ensures |p| == |movieId| + 9 && p[..9] == "/booking/" && p[9..] == movieId
  {
    "/booking/" + movieId
  }

  /** handleViewDetails's target: `/movies/${movieId}`. */
  function DetailsPath(movieId: string): (p: string)
    ensures |p| == |movieId| + 8 && p[..8] == "/movies/" && p[8..] == movieId
  {
    "/movies/" + movieId
  }
}
