/** The handlers of genre.controller.ts: the genre list, one genre with its books, and genre creation.
    `slugify` is a parameter: the library is not part of this model. */
module GenreController {
  import opened Common
  import opened GenreModel
  import opened BookModel
  import opened Catalog

  const FetchFailedMessage := "Failed to fetch genres"
  const NoGenreMessage := "No genre found"
  const NameRequiredMessage := "Name is required"
  const GenreExistsMessage := "Genre already exists"
  const CreateFailedMessage := "Failed to create genre"

  /** getAllGenres: every genre, in insertion order. */
  function GetAllGenresSpec(c: Catalog): (r: Reply)
    ensures r.status == 200 && r.success && r.body.GenreList?
  {
    Reply(200, true, "", GenreList(AllGenres(c.genres, c.nextGenreId)))
  }

  /** Every genre stored under an id below `n` is in the list `Genre.find()` returns. */
  lemma {:induction false} AllGenresComplete(genres: map<GenreId, Genre>, n: nat, id: GenreId)
    requires id in genres && id < n
    ensures (id, genres[id]) in AllGenres(genres, n)
  {
    if id < n - 1 {
      AllGenresComplete(genres, n - 1, id);
    }
  }

  /** The genre list is exactly the stored genres, each once, in insertion order. */
  lemma GenreListExact(c: Catalog)
    requires ValidCatalog(c)
    ensures var list := GetAllGenresSpec(c).body.genres;
            && (forall id :: id in c.genres <==> exists i :: 0 <= i < |list| && list[i].0 == id)
            && (forall i :: 0 <= i < |list| ==> list[i].1 == c.genres[list[i].0])
            && (forall i, j :: 0 <= i < j < |list| ==> list[i].0 < list[j].0)
  {
    assert forall id :: id in c.genres ==> id < c.nextGenreId;
    AllGenresExact(c.genres, c.nextGenreId);
  }

  /** `Genre.find()` over the ids below `n` lists every genre stored there, each once, in id order. */
  lemma AllGenresExact(genres: map<GenreId, Genre>, n: nat)
    requires forall id :: id in genres ==> id < n
    ensures var list := AllGenres(genres, n);
            && (forall id :: id in genres <==> exists i :: 0 <= i < |list| && list[i].0 == id)
            && (forall i :: 0 <= i < |list| ==> list[i].1 == genres[list[i].0])
  {
    var list := AllGenres(genres, n);
    forall id | id in genres
      ensures exists i :: 0 <= i < |list| && list[i].0 == id
    {
      AllGenresComplete(genres, n, id);
      var i :| 0 <= i < |list| && list[i] == (id, genres[id]);
    }
  }

  /** getSingleGenre: the genre with that slug and the books that refer to it, or 404. */
  function GetSingleGenreSpec(c: Catalog, slug: string): (r: Reply)
    ensures r.status == 200 <==> exists id :: id in c.genres && id < c.nextGenreId && c.genres[id].slug == slug
    ensures r.status != 200 ==> r == Fail(404, NoGenreMessage)
    ensures r.status == 200 ==> r.body.GenreAndBooks? && r.body.id in c.genres && r.body.genre == c.genres[r.body.id]
                                && r.body.genre.slug == slug
  {
    match FindGenre(c.genres, SlugIs(slug), c.nextGenreId)
    case None => Fail(404, NoGenreMessage)
    case Some(id) => Reply(200, true, "", GenreAndBooks(id, c.genres[id], BooksOfGenre(c.books, id, c.nextBookId)))
  }

  /** Every book below `n` that refers to a genre is among `Book.find({ genre })`'s results. */
  lemma {:induction false} BooksOfGenreComplete(books: map<BookId, Book>, genre: GenreId, n: nat, id: BookId)
    requires id in books && id < n && books[id].genre == genre
    ensures (id, books[id]) in BooksOfGenre(books, genre, n)
  {
    if id < n - 1 {
      BooksOfGenreComplete(books, genre, n - 1, id);
    }
  }

  /** A genre page lists exactly the books that refer to that genre, in insertion order. */
  lemma GenrePageListsItsBooks(c: Catalog, slug: string)
    requires ValidCatalog(c)
    requires GetSingleGenreSpec(c, slug).status == 200
    ensures var body := GetSingleGenreSpec(c, slug).body;
            && (forall i :: 0 <= i < |body.books| ==>
                  body.books[i].1.genre == body.id && body.books[i].0 in c.books && body.books[i].1 == c.books[body.books[i].0])
            && (forall id :: id in c.books && c.books[id].genre == body.id ==> (id, c.books[id]) in body.books)
  {
    var body := GetSingleGenreSpec(c, slug).body;
    forall id | id in c.books && c.books[id].genre == body.id
      ensures (id, c.books[id]) in body.books
    {
      BooksOfGenreComplete(c.books, body.id, c.nextBookId, id);
    }
  }

  /** createGenre: a name is required, the slug must be new, and the document built from the name,
      the slug and the description is saved; any failure of `save()` is reported as 500. */
  function CreateGenreSpec(c: Catalog, name: string, description: Option<string>, slugify: string -> string, nowMs: nat): Outcome
  {
    if name == "" then Outcome(c, Fail(400, NameRequiredMessage))
    else
      var slug := slugify(name);
      if FindGenre(c.genres, SlugIs(slug), c.nextGenreId).Some? then Outcome(c, Fail(400, GenreExistsMessage))
      else
        var genre := NewGenre(name, slug, None, description, nowMs);
        var created := Reply(201, true, "", OneGenre(c.nextGenreId, genre));
        var (saved, id) := SaveGenreSpec(c, genre);
        if id.None? then Outcome(saved, Fail(500, CreateFailedMessage)) else Outcome(saved, created)
  }

  method CreateGenre(db: Db, name: string, description: Option<string>, slugify: string -> string, nowMs: nat) returns (reply: Reply)
    modifies db
    ensures Outcome(db.State(), reply) == CreateGenreSpec(old(db.State()), name, description, slugify, nowMs)
  {
    if name == "" {
      return Fail(400, NameRequiredMessage);
    }
    var slug := slugify(name);
    if FindGenre(db.genres, SlugIs(slug), db.nextGenreId).Some? {
      return Fail(400, GenreExistsMessage);
    }
    var genre := NewGenre(name, slug, None, description, nowMs);
    var created := Reply(201, true, "", OneGenre(db.nextGenreId, genre));
    var id := db.SaveGenre(genre);
    if id.None? {
      return Fail(500, CreateFailedMessage);
    }
    reply := created;
  }

  /** The document createGenre builds never carries the required `subjectSlug`, so no request creates a
      genre: the catalog never changes and the reply is 400 or 500, never 201. */
  lemma CreateGenreNeverStores(c: Catalog, name: string, description: Option<string>, slugify: string -> string, nowMs: nat)
    ensures var o := CreateGenreSpec(c, name, description, slugify, nowMs);
            && o.catalog == c && !o.reply.success
            && (name == "" ==> o.reply == Fail(400, NameRequiredMessage))
            && (name != "" && FindGenre(c.genres, SlugIs(slugify(name)), c.nextGenreId).Some? ==> o.reply == Fail(400, GenreExistsMessage))
            && (name != "" && FindGenre(c.genres, SlugIs(slugify(name)), c.nextGenreId).None? ==> o.reply == Fail(500, CreateFailedMessage))
  {
    if name != "" {
      var genre := NewGenre(name, slugify(name), None, description, nowMs);
      assert "subjectSlug" in GenreModel.RequiredFailures(genre);
    }
  }

  /** With a `subjectSlug`, a trimmed name and slug that are non-empty and new would be stored under
      the next id: the missing path is the only obstacle. */
  lemma SubjectSlugIsTheObstacle(c: Catalog, name: string, subjectSlug: string, description: Option<string>, slug: string, nowMs: nat)
    requires Trim(name) != "" && slug != "" && subjectSlug != ""
    requires FindGenre(c.genres, NameIs(Trim(name)), c.nextGenreId).None? && FindGenre(c.genres, SlugIs(slug), c.nextGenreId).None?
    ensures var (saved, id) := SaveGenreSpec(c, NewGenre(name, slug, Some(subjectSlug), description, nowMs));
            id == Some(c.nextGenreId) && saved.genres[c.nextGenreId].name == Trim(name)
  {
  }
}
