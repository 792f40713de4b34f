/**
 * The admin's movie catalogue screen: a search over the list, and a modal form
 * that adds a movie or edits one in place; plus deletion after confirmation.
 */
module MovieManagement {
  import opened Text
  import opened Types
  import opened Seqs
  import MockData

  /** The inputs of the movie form, by their element ids. */
  datatype Field = Title | Genre | ReleaseYear | Duration | PosterUrl | Description

  /** A movie matches the search when its lowercased title or genre contains the lowercased term. */
  predicate Matches(m: Movie, term: string) {
    Includes(ToLower(m.title), ToLower(term)) || Includes(ToLower(m.genre), ToLower(term))
  }

  /** `filteredMovies`: the movies that match the search term, in list order. */
  function SearchResults(movies: seq<Movie>, term: string): (r: seq<Movie>)
    ensures |r| <= |movies|
    ensures forall m :: m in r <==> m in movies && Matches(m, term)
  {
    Filter(movies, (m: Movie) => Matches(m, term))
  }

  /** An empty search shows the whole list. */
  lemma EmptySearchKeepsAll(movies: seq<Movie>)
    ensures SearchResults(movies, "") == movies
  {
    forall m | m in movies ensures Matches(m, "") {
      IncludesEmpty(ToLower(m.title));
    }
    FilterAll(movies, (m: Movie) => Matches(m, ""));
  }

  /** The search ignores the case of the term (of ASCII letters). */
  lemma SearchIgnoresCase(movies: seq<Movie>, term: string)
    ensures SearchResults(movies, ToLower(term)) == SearchResults(movies, term)
  {
    ToLowerIdempotent(term);
    FilterAgree(movies, (m: Movie) => Matches(m, ToLower(term)), (m: Movie) => Matches(m, term));
  }

  /** The list after a confirmed delete of `id`. */
  function WithoutMovie(movies: seq<Movie>, id: string): (r: seq<Movie>)
    ensures forall m :: m in r <==> m in movies && m.id != id
  {
    Filter(movies, (m: Movie) => m.id != id)
  }

  /** Deleting keeps the other movies in their order: deleting from a concatenation deletes from each part. */
  lemma DeleteKeepsOrder(a: seq<Movie>, b: seq<Movie>, id: string)
    ensures WithoutMovie(a + b, id) == WithoutMovie(a, id) + WithoutMovie(b, id)
  {
    FilterConcat(a, b, (m: Movie) => m.id != id);
  }

  /** Deleting an id no movie has changes nothing. */
  lemma DeleteAbsentId(movies: seq<Movie>, id: string)
    requires forall m :: m in movies ==> m.id != id
    ensures WithoutMovie(movies, id) == movies
  {
    FilterAll(movies, (m: Movie) => m.id != id);
  }

  /**
   * The list after an edit is saved: each movie with the edited movie's id is
   * replaced by the form's movie (the form holds all seven fields, so
   * `{...movie, ...currentMovie}` is the form's movie).
   */
  function Merged(movies: seq<Movie>, edited: Movie): (r: seq<Movie>)
    ensures |r| == |movies|
    ensures forall i :: 0 <= i < |r| ==> r[i] == if movies[i].id == edited.id then edited else movies[i]
  {
    seq(|movies|, i requires 0 <= i < |movies| => if movies[i].id == edited.id then edited else movies[i])
  }

  /** Saving the same edit twice is the same as saving it once, and the ids of the list do not change. */
  lemma MergeIdempotent(movies: seq<Movie>, edited: Movie)
    ensures Merged(Merged(movies, edited), edited) == Merged(movies, edited)
    ensures forall i :: 0 <= i < |movies| ==> Merged(movies, edited)[i].id == movies[i].id
  {
  }

  /** The movie an add-save appends: the form's movie with `Date.now().toString()` as its id. */
  function NewMovie(form: Movie, now: nat): (m: Movie)
    ensures m.id == Decimal(now)
    ensures m.(id := form.id) == form
  {
    form.(id := Decimal(now))
  }

  /** The empty form: the current year, 120 minutes, everything else blank. */
  function BlankMovie(year: int): Movie {
    Movie("", "", "", Int(year), Int(120), "", "")
  }

  /** handleInputChange: the two numeric fields store parseInt of the text, every other field the text itself. */
  function WithField(form: Movie, field: Field, value: string): (r: Movie)
    ensures r.id == form.id
    ensures r.title == if field == Title then value else form.title
    ensures r.genre == if field == Genre then value else form.genre
    ensures r.releaseYear == if field == ReleaseYear then ParseInt(value) else form.releaseYear
    ensures r.duration == if field == Duration then ParseInt(value) else form.duration
    ensures r.posterUrl == if field == PosterUrl then value else form.posterUrl
    ensures r.description == if field == Description then value else form.description
  {
    match field
    case Title => form.(title := value)
    case Genre => form.(genre := value)
    case ReleaseYear => form.(releaseYear := ParseInt(value))
    case Duration => form.(duration := ParseInt(value))
    case PosterUrl => form.(posterUrl := value)
    case Description => form.(description := value)
  }

  /** Typing a number's digits into a numeric field stores that number; typing no digits stores NaN. */
  lemma NumericFieldReadsDigits(form: Movie, field: Field, n: nat, junk: string)
    requires field == ReleaseYear || field == Duration
    requires forall i :: 0 <= i < |junk| ==> !IsDigit(junk[i])
    ensures var r := WithField(form, field, Decimal(n));
      (if field == ReleaseYear then r.releaseYear else r.duration) == Int(n)
    ensures var r := WithField(form, field, junk);
      (if field == ReleaseYear then r.releaseYear else r.duration) == NaN
  {
    ParseDecimal(n);
    ParseNoDigits(junk);
  }

  /** The state of the catalogue screen and its handlers. */
  class MovieManagementScreen {
    var movies: seq<Movie>
    var searchTerm: string
    var isModalOpen: bool
    var currentMovie: Movie
    var isEditing: bool

    /** The screen as it opens in `year`: the shipped movies, no search, the modal closed on a blank form. */
    constructor(year: int)
      ensures movies == MockData.Movies && searchTerm == "" && !isModalOpen
      ensures currentMovie == BlankMovie(year) && !isEditing
    {
      movies := MockData.Movies;
      searchTerm := "";
      isModalOpen := false;
      currentMovie := BlankMovie(year);
      isEditing := false;
    }

    /** The search box. */
    method SetSearchTerm(term: string)
      modifies this
      ensures searchTerm == term
      ensures movies == old(movies) && isModalOpen == old(isModalOpen)
      ensures currentMovie == old(currentMovie) && isEditing == old(isEditing)
    {
      searchTerm := term;
    }

    /** handleAddMovie: a blank form for `year`, in add mode, in an open modal. */
    method AddMovie(year: int)
      modifies this
      ensures !isEditing && currentMovie == BlankMovie(year) && isModalOpen
      ensures movies == old(movies) && searchTerm == old(searchTerm)
    {
      isEditing := false;
      currentMovie := BlankMovie(year);
      isModalOpen := true;
    }

    /** handleEditMovie: the movie's own fields in the form, in edit mode, in an open modal. */
    method EditMovie(m: Movie)
      modifies this
      ensures isEditing && currentMovie == m && isModalOpen
      ensures movies == old(movies) && searchTerm == old(searchTerm)
    {
      isEditing := true;
      currentMovie := m;
      isModalOpen := true;
    }

    /** handleDeleteMovie: `confirmed` is the answer to the confirmation dialog. */
    method DeleteMovie(id: string, confirmed: bool)
      modifies this
      ensures movies == if confirmed then WithoutMovie(old(movies), id) else old(movies)
      ensures searchTerm == old(searchTerm) && isModalOpen == old(isModalOpen)
      ensures currentMovie == old(currentMovie) && isEditing == old(isEditing)
    {
      if confirmed {
        movies := WithoutMovie(movies, id);
      }
    }

    /**
     * handleSaveMovie: refused with an alert while the title or the genre is
     * empty; otherwise an edit replaces the movies with the form's id, an add
     * appends the form under the id `now` (the clock in milliseconds), and
     * the modal closes.
     */
    method SaveMovie(now: nat) returns (alerted: bool)
      modifies this
      ensures alerted <==> currentMovie.title == "" || currentMovie.genre == ""
      ensures alerted ==> movies == old(movies) && isModalOpen == old(isModalOpen)
      ensures !alerted && isEditing ==> movies == Merged(old(movies), currentMovie)
      ensures !alerted && !isEditing ==> movies == old(movies) + [NewMovie(currentMovie, now)]
      ensures !alerted ==> !isModalOpen
      ensures currentMovie == old(currentMovie) && isEditing == old(isEditing) && searchTerm == old(searchTerm)
    {
      if currentMovie.title == "" || currentMovie.genre == "" {
        return true;
      }
      if isEditing {
        movies := Merged(movies, currentMovie);
      } else {
        movies := movies + [NewMovie(currentMovie, now)];
      }
      isModalOpen := false;
      return false;
    }

    /** handleInputChange, and the description box's own handler, which stores its text the same way. */
    method InputChange(field: Field, value: string)
      modifies this
      ensures currentMovie == WithField(old(currentMovie), field, value)
      ensures movies == old(movies) && searchTerm == old(searchTerm)
      ensures isModalOpen == old(isModalOpen) && isEditing == old(isEditing)
    {
      currentMovie := WithField(currentMovie, field, value);
    }

    /** The modal's close control and its Cancel button. */
    method CloseModal()
      modifies this
      ensures !isModalOpen
      ensures movies == old(movies) && searchTerm == old(searchTerm)
      ensures currentMovie == old(currentMovie) && isEditing == old(isEditing)
    {
      isModalOpen := false;
    }
  }

  /** Deleting the id of a just-added movie undoes the add, provided no earlier movie had that id. */
  lemma DeleteUndoesAdd(movies: seq<Movie>, form: Movie, now: nat)
    requires forall m :: m in movies ==> m.id != Decimal(now)
    ensures WithoutMovie(movies + [NewMovie(form, now)], Decimal(now)) == movies
  {
    DeleteKeepsOrder(movies, [NewMovie(form, now)], Decimal(now));
    DeleteAbsentId(movies, Decimal(now));
  }
}
