/** The two catalog collections as the controllers see them: genres and books by id, the `findOne`
    lookups the controllers issue, and `save()` with schema validation. Ids grow with insertion
    order, which is also the order `find()` returns documents in. */
module Catalog {
  import opened Common
  import opened GenreModel
  import opened BookModel
  import Encoding

  datatype Catalog = Catalog(genres: map<GenreId, Genre>, nextGenreId: GenreId,
                             books: map<BookId, Book>, nextBookId: BookId)

  /** Ids below the next id, stored genres valid and unique, every book referring to a stored genre. */
  ghost predicate ValidCatalog(c: Catalog)
  {
    ValidGenres(c.genres, c.nextGenreId) && BooksReferToGenres(c.books, c.nextBookId, c.genres)
  }

  ghost predicate ValidGenres(genres: map<GenreId, Genre>, next: GenreId)
  {
    (forall id :: id in genres ==> id < next && GenreModel.Stored(genres[id])) && UniqueGenres(genres)
  }

  ghost predicate BooksReferToGenres(books: map<BookId, Book>, next: BookId, genres: map<GenreId, Genre>)
  {
    forall id :: id in books ==> id < next && books[id].genre in genres
  }

  /** The two genre filters: `{ name }` and `{ slug }`. */
  datatype GenreQuery = NameIs(name: string) | SlugIs(slug: string)

  predicate GenreMatches(g: Genre, q: GenreQuery)
  {
    match q
    case NameIs(name) => g.name == name
    case SlugIs(slug) => g.slug == slug
  }

  /** `Genre.findOne(q)`: the first match in insertion order among the ids below `n`. */
  function FindGenre(genres: map<GenreId, Genre>, q: GenreQuery, n: nat): (r: Option<GenreId>)
    ensures r.Some? ==> r.value < n && r.value in genres && GenreMatches(genres[r.value], q)
    ensures r.Some? ==> forall id :: id < r.value && id in genres ==> !GenreMatches(genres[id], q)
    ensures r.None? ==> forall id :: id < n && id in genres ==> !GenreMatches(genres[id], q)
  {
    if n == 0 then None
    else
      match FindGenre(genres, q, n - 1)
      case Some(id) => Some(id)
      case None => if n - 1 in genres && GenreMatches(genres[n - 1], q) then Some(n - 1) else None
  }

  /** `Book.findOne({ slug })`. */
  function FindBookBySlug(books: map<BookId, Book>, slug: string, n: nat): (r: Option<BookId>)
    ensures r.Some? ==> r.value < n && r.value in books && books[r.value].slug == slug
    ensures r.Some? ==> forall id :: id < r.value && id in books ==> books[id].slug != slug
    ensures r.None? ==> forall id :: id < n && id in books ==> books[id].slug != slug
  {
    if n == 0 then None
    else
      match FindBookBySlug(books, slug, n - 1)
      case Some(id) => Some(id)
      case None => if n - 1 in books && books[n - 1].slug == slug then Some(n - 1) else None
  }

  /** `Genre.find()`: every genre in insertion order. */
  function AllGenres(genres: map<GenreId, Genre>, n: nat): (r: seq<(GenreId, Genre)>)
    ensures forall i :: 0 <= i < |r| ==> r[i].0 < n && r[i].0 in genres && r[i].1 == genres[r[i].0]
    ensures forall i, j :: 0 <= i < j < |r| ==> r[i].0 < r[j].0
  {
    if n == 0 then []
    else AllGenres(genres, n - 1) + (if n - 1 in genres then [(n - 1, genres[n - 1])] else [])
  }

  /** `Book.find({ genre: id })`: the books referring to a genre, in insertion order. */
  function BooksOfGenre(books: map<BookId, Book>, genre: GenreId, n: nat): (r: seq<(BookId, Book)>)
    ensures forall i :: 0 <= i < |r| ==> r[i].0 < n && r[i].0 in books && r[i].1 == books[r[i].0] && r[i].1.genre == genre
    ensures forall i, j :: 0 <= i < j < |r| ==> r[i].0 < r[j].0
  {
    if n == 0 then []
    else
      BooksOfGenre(books, genre, n - 1)
      + (if n - 1 in books && books[n - 1].genre == genre then [(n - 1, books[n - 1])] else [])
  }

  /** `genre.save()`: refused when a required path is missing or a unique index would be violated. */
  function SaveGenreSpec(c: Catalog, g: Genre): (r: (Catalog, Option<GenreId>))
    ensures r.1.None? ==> r.0 == c
    ensures r.1.Some? ==> r.1.value == c.nextGenreId && GenreModel.RequiredFailures(g) == []
                          && r.0 == c.(genres := c.genres[c.nextGenreId := g], nextGenreId := c.nextGenreId + 1)
    ensures GenreModel.RequiredFailures(g) != [] ==> r.1.None?
  {
    if GenreModel.RequiredFailures(g) != [] then (c, None)
    else if FindGenre(c.genres, NameIs(g.name), c.nextGenreId).Some? then (c, None)
    else if FindGenre(c.genres, SlugIs(g.slug), c.nextGenreId).Some? then (c, None)
    else (c.(genres := c.genres[c.nextGenreId := g], nextGenreId := c.nextGenreId + 1), Some(c.nextGenreId))
  }

  /** `book.save()`: refused with Mongoose's validation message when the publish date did not cast to
      a Date or a required path is empty. `isDate(v)` says whether Mongoose's Date cast accepts `v`. */
  function SaveBookSpec(c: Catalog, b: Book, isDate: string -> bool): (r: (Catalog, Result))
    ensures r.1.Err? <==> BookModel.RequiredFailures(b) != [] || BadDate(b, isDate)
    ensures r.1.Err? ==> r.0 == c && r.1.message == SaveErrorMessage(b, isDate)
    ensures r.1.Ok? ==> r.1.id == c.nextBookId && r.0 == c.(books := c.books[c.nextBookId := b], nextBookId := c.nextBookId + 1)
  {
    if BookModel.RequiredFailures(b) != [] || BadDate(b, isDate) then (c, Err(SaveErrorMessage(b, isDate)))
    else (c.(books := c.books[c.nextBookId := b], nextBookId := c.nextBookId + 1), Ok(c.nextBookId))
  }

  datatype Result = Ok(id: nat) | Err(message: string)

  /** The bodies the catalog handlers send. */
  datatype Body =
    | NoBody
    | OneBook(bookId: BookId, book: Book)
    | OneGenre(genreId: GenreId, genre: Genre)
    | GenreList(genres: seq<(GenreId, Genre)>)
    | GenreAndBooks(id: GenreId, genre: Genre, books: seq<(BookId, Book)>)
    | BookPage(totalBooks: nat, page: int, limit: int, totalPages: int)

  datatype Reply = Reply(status: nat, success: bool, message: string, body: Body)

  /** The catalog after a handler ran, and the reply it sent. */
  datatype Outcome = Outcome(catalog: Catalog, reply: Reply)

  function Fail(status: nat, message: string): Reply
  {
    Reply(status, false, message, NoBody)
  }

  /** The text form of an id, as it travels in URLs and query strings. */
  function IdText(id: nat): string
  {
    Encoding.NatToDecimal(id)
  }

  /** Both collections, updated in place by the handlers. */
  class Db {
    var genres: map<GenreId, Genre>
    var nextGenreId: GenreId
    var books: map<BookId, Book>
    var nextBookId: BookId

    function State(): Catalog
      reads this
    {
      Catalog(genres, nextGenreId, books, nextBookId)
    }

    constructor ()
      ensures State() == Catalog(map[], 0, map[], 0)
    {
      genres := map[];
      nextGenreId := 0;
      books := map[];
      nextBookId := 0;
    }

    method SaveGenre(g: Genre) returns (id: Option<GenreId>)
      modifies this
      ensures (State(), id) == SaveGenreSpec(old(State()), g)
    {
      if GenreModel.RequiredFailures(g) != [] {
        return None;
      }
      if FindGenre(genres, NameIs(g.name), nextGenreId).Some? || FindGenre(genres, SlugIs(g.slug), nextGenreId).Some? {
        return None;
      }
      id := Some(nextGenreId);
      genres := genres[nextGenreId := g];
      nextGenreId := nextGenreId + 1;
    }

    method SaveBook(b: Book, isDate: string -> bool) returns (r: Result)
      modifies this
      ensures (State(), r) == SaveBookSpec(old(State()), b, isDate)
    {
      if BookModel.RequiredFailures(b) != [] || BadDate(b, isDate) {
        return Err(SaveErrorMessage(b, isDate));
      }
      r := Ok(nextBookId);
      books := books[nextBookId := b];
      nextBookId := nextBookId + 1;
    }
  }
}
