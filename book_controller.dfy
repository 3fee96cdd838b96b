/** The handlers of book.controller.ts: the listing query with its filter, sort and pagination,
    the lookup by slug, and the three admin operations over the catalog. `slugify` is a parameter:
    the library is not part of this model. */
module BookController {
  import opened Common
  import opened Encoding
  import opened GenreModel
  import opened BookModel
  import opened Catalog

  // ---------------------------------------------------------------- listing

  /** The `genre` query parameter: absent, given once, or repeated (an array). */
  datatype GenreParam = NoGenre | GenreOnce(id: string) | GenreArray(ids: seq<string>)

  /** The `genre` condition of `dynamicQuery`. */
  datatype GenreCond = AnyGenre | GenreEq(id: string) | GenreIn(ids: seq<string>)

  /** `dynamicQuery`: the genre condition and the `$or` of case-insensitive `$regex` matches. */
  datatype BookFilter = BookFilter(genre: GenreCond, search: Option<string>)

  /** What `find(dynamicQuery)` selects. `matches(text, pattern)` is the case-insensitive regular
      expression test, which is not part of this model. */
  predicate Selects(q: BookFilter, b: Book, matches: (string, string) -> bool)
  {
    (match q.genre
     case AnyGenre => true
     case GenreEq(id) => IdText(b.genre) == id
     case GenreIn(ids) => IdText(b.genre) in ids)
    && (q.search.None? || matches(b.name, q.search.value) || matches(b.author, q.search.value)
        || matches(b.description, q.search.value))
  }

  /** The books the request asks for, stated directly on the request parameters. */
  predicate Requested(genre: GenreParam, search: string, b: Book, matches: (string, string) -> bool)
  {
    (genre.NoGenre? || genre == GenreOnce("") || (genre.GenreOnce? && IdText(b.genre) == genre.id)
     || (genre.GenreArray? && IdText(b.genre) in genre.ids))
    && (search == "" || matches(b.name, search) || matches(b.author, search) || matches(b.description, search))
  }

  /** The construction of `dynamicQuery`: it starts empty and gains a genre condition and a search
      condition, each only when its parameter is truthy. It selects exactly the requested books. */
  method BuildFilter(genre: GenreParam, search: string, ghost matches: (string, string) -> bool) returns (q: BookFilter)
    ensures forall b :: Selects(q, b, matches) <==> Requested(genre, search, b, matches)
    ensures search == "" ==> q.search.None?
  {
    q := BookFilter(AnyGenre, None);
    if genre.GenreArray? {
      q := q.(genre := GenreIn(genre.ids));
    } else if genre.GenreOnce? && genre.id != "" {
      q := q.(genre := GenreEq(genre.id));
    }
    if search != "" {
      q := q.(search := Some(search));
    }
  }

  /** The sort option: the field and direction, or none. */
  datatype SortKey = Unsorted | ByCreatedAt(ascending: bool) | ByPrice(ascending: bool)

  function SortFor(sort: string): (k: SortKey)
    ensures k != Unsorted <==> sort in {"newest", "oldest", "price-asc", "price-desc"}
    ensures k.ByCreatedAt? ==> (k.ascending <==> sort == "oldest")
    ensures k.ByPrice? ==> (k.ascending <==> sort == "price-asc")
  {
    if sort == "newest" then ByCreatedAt(false)
    else if sort == "oldest" then ByCreatedAt(true)
    else if sort == "price-asc" then ByPrice(true)
    else if sort == "price-desc" then ByPrice(false)
    else Unsorted
  }

  /** `Number(page) || 1` and `Number(limit) || 10`, for a parameter that reads as an integer
      (`None` when absent or not a number). */
  function OrDefault(param: Option<int>, default: int): (v: int)
    requires default != 0
    ensures v != 0
    ensures param.None? || param == Some(0) ==> v == default
    ensures param.Some? && param.value != 0 ==> v == param.value
  {
    if param.None? || param.value == 0 then default else param.value
  }

  const DefaultLimit := 10

  function Skip(pageNum: int, limit: int): int
  {
    (pageNum - 1) * limit
  }

  /** `Math.ceil(totalBooks / limit)` for a non-zero integer limit. */
  function TotalPages(totalBooks: nat, limit: int): int
    requires limit != 0
  {
    if limit > 0 then (totalBooks + limit - 1) / limit else -(totalBooks / -limit)
  }

  /** For a positive limit the page count is the least number of pages of `limit` books that holds
      every book, and the pages it counts partition the books: book `i` is on page `i / limit + 1`. */
  lemma TotalPagesIsCeiling(totalBooks: nat, limit: int)
    requires limit > 0
    ensures TotalPages(totalBooks, limit) * limit >= totalBooks
    ensures (TotalPages(totalBooks, limit) - 1) * limit < totalBooks || totalBooks == 0
    ensures TotalPages(totalBooks, limit) >= 0 && (totalBooks == 0 <==> TotalPages(totalBooks, limit) == 0)
  {
    var p := TotalPages(totalBooks, limit);
    assert p == (totalBooks + limit - 1) / limit;
    assert (totalBooks + limit - 1) - limit < p * limit <= totalBooks + limit - 1;
  }

  lemma PageOfBook(i: nat, limit: int, totalBooks: nat)
    requires limit > 0 && i < totalBooks
    ensures var page := i / limit + 1;
            Skip(page, limit) <= i < Skip(page, limit) + limit && 1 <= page <= TotalPages(totalBooks, limit)
  {
    TotalPagesIsCeiling(totalBooks, limit);
    var q := i / limit;
    var pages := TotalPages(totalBooks, limit);
    assert Skip(q + 1, limit) == q * limit;
    assert q * limit <= i < q * limit + limit;
    if pages <= q {
      MulMonotone(pages, q, limit);
      assert false;
    }
  }

  lemma MulMonotone(a: int, b: int, k: int)
    requires a <= b && k > 0
    ensures a * k <= b * k
  {
    assert b * k - a * k == (b - a) * k;
  }

  /** The first page skips nothing; the default limit is 10. */
  lemma DefaultPagination()
    ensures Skip(OrDefault(None, 1), OrDefault(None, DefaultLimit)) == 0
    ensures OrDefault(Some(0), DefaultLimit) == 10
  {
  }

  /** `countDocuments(dynamicQuery)` over the ids below `n`: the number of stored books it selects. */
  function CountSelected(books: map<BookId, Book>, q: BookFilter, matches: (string, string) -> bool, n: nat): (count: nat)
    ensures count == |set id | id in books && Selects(q, books[id], matches) && id < n|
  {
    if n == 0 then
      assert (set id | id in books && Selects(q, books[id], matches) && id < n) == {};
      0
    else
      var below := set id | id in books && Selects(q, books[id], matches) && id < n - 1;
      var last: set<BookId> := if n - 1 in books && Selects(q, books[n - 1], matches) then {n - 1} else {};
      assert (set id | id in books && Selects(q, books[id], matches) && id < n) == below + last;
      assert below !! last;
      CountSelected(books, q, matches, n - 1) + |last|
  }

  /** The text of an integer, with a minus sign when it is negative. */
  function SignedText(i: int): string
  {
    if i < 0 then "-" + NatToDecimal(-i) else NatToDecimal(i)
  }

  /** What the database server answers to `.skip(n)` with a negative `n`. */
  function NegativeSkipMessage(skip: int): string
  {
    "BSON field 'skip' value must be >= 0, actual value '" + SignedText(skip) + "'"
  }

  /** getAllBooks: the listing's metadata (total, page, limit and page count), or the 400 its catch
      sends when `find` is refused. The server refuses a negative skip, and a search that is not a
      valid regular expression: `regexError(pattern)` is the server's complaint about the pattern,
      `None` when it compiles. The page of books itself comes from the database's sort, skip and
      limit, which is not part of this model. */
  function GetAllBooksSpec(c: Catalog, q: BookFilter, page: Option<int>, limit: Option<int>,
                           matches: (string, string) -> bool, regexError: string -> Option<string>): (r: Reply)
    ensures var skip := Skip(OrDefault(page, 1), OrDefault(limit, DefaultLimit));
            r.status == 200 <==> skip >= 0 && (q.search.None? || regexError(q.search.value).None?)
    ensures r.status != 200 ==> r.status == 400 && !r.success && r.body == NoBody
    ensures var skip := Skip(OrDefault(page, 1), OrDefault(limit, DefaultLimit));
            skip < 0 ==> r.message == NegativeSkipMessage(skip)
    ensures var skip := Skip(OrDefault(page, 1), OrDefault(limit, DefaultLimit));
            skip >= 0 && q.search.Some? && regexError(q.search.value).Some? ==> r.message == regexError(q.search.value).value
    ensures r.status == 200 ==> r.body.BookPage? && r.body.page == OrDefault(page, 1) && r.body.limit == OrDefault(limit, DefaultLimit)
    ensures r.status == 200 ==>
              r.body.totalBooks == |set id | id in c.books && Selects(q, c.books[id], matches) && id < c.nextBookId|
    ensures r.status == 200 && r.body.limit > 0 ==>
              r.body.totalPages * r.body.limit >= r.body.totalBooks
              && (r.body.totalBooks == 0 || (r.body.totalPages - 1) * r.body.limit < r.body.totalBooks)
  {
    var pageNum := OrDefault(page, 1);
    var booksLimit := OrDefault(limit, DefaultLimit);
    var skip := Skip(pageNum, booksLimit);
    if skip < 0 then Fail(400, NegativeSkipMessage(skip))
    else if q.search.Some? && regexError(q.search.value).Some? then Fail(400, regexError(q.search.value).value)
    else
      var total := CountSelected(c.books, q, matches, c.nextBookId);
      if booksLimit > 0 then TotalPagesIsCeiling(total, booksLimit); Reply(200, true, "", BookPage(total, pageNum, booksLimit, TotalPages(total, booksLimit)))
      else Reply(200, true, "", BookPage(total, pageNum, booksLimit, TotalPages(total, booksLimit)))
  }

  /** Page 2 with a limit of -5 skips -5 books, which the server refuses: the listing answers 400. */
  lemma NegativeLimitRefused(c: Catalog, q: BookFilter, matches: (string, string) -> bool, regexError: string -> Option<string>)
    ensures GetAllBooksSpec(c, q, Some(2), Some(-5), matches, regexError) == Fail(400, NegativeSkipMessage(-5))
  {
  }

  // ---------------------------------------------------------------- single book

  const NoBookMessage := "No book found"

  function GetSingleBookSpec(c: Catalog, slug: string): (r: Reply)
    ensures r.status == 200 <==> exists id :: id in c.books && id < c.nextBookId && c.books[id].slug == slug
    ensures r.status == 200 ==> r.body.OneBook? && r.body.bookId in c.books && r.body.book == c.books[r.body.bookId]
                                && r.body.book.slug == slug
    ensures r.status != 200 ==> r == Fail(404, NoBookMessage)
  {
    match FindBookBySlug(c.books, slug, c.nextBookId)
    case None => Fail(404, NoBookMessage)
    case Some(id) => Reply(200, true, "", OneBook(id, c.books[id]))
  }

  // ---------------------------------------------------------------- create

  /** A number in the JSON body: absent, a JSON number, or a string together with what `Number()`
      makes of it (`None` for NaN). The coercion itself is not part of this model. */
  datatype NumField = Absent | Number(value: real) | Text(raw: string, coerced: Option<real>)

  predicate Truthy(f: NumField)
  {
    match f
    case Absent => false
    case Number(v) => v != 0.0
    case Text(raw, _) => raw != ""
  }

  /** The global `isNaN`. */
  predicate IsNaN(f: NumField)
  {
    match f
    case Absent => true
    case Number(_) => false
    case Text(_, coerced) => coerced.None?
  }

  function NumberOf(f: NumField): real
    requires !IsNaN(f)
  {
    match f
    case Number(v) => v
    case Text(_, coerced) => coerced.value
  }

  datatype NewBook = NewBook(name: string, price: NumField, description: string, imageUrl: string, author: string,
                             genre: string, pages: NumField, ISBN: string, language: Option<string>, publishDate: string)

  const MissingFieldsMessage := "Please provide all the required fields!"
  const BookExistsMessage := "Book already exists!"
  const GenreNotFoundMessage := "Genre not found!"
  const BadNumbersMessage := "The price and pages must be valid numbers!"
  const BookCreatedMessage := "Book created successfully!"

  predicate AllRequiredPresent(req: NewBook)
  {
    req.name != "" && Truthy(req.price) && req.description != "" && req.imageUrl != "" && req.author != ""
    && req.genre != "" && Truthy(req.pages) && req.ISBN != "" && req.publishDate != ""
  }

  /** The document `new Book({...})` builds: the trimming setters apply to name and description. */
  function BuildBook(req: NewBook, slug: string, genre: GenreId, nowMs: nat): Book
    requires !IsNaN(req.price) && !IsNaN(req.pages)
  {
    Book(Trim(req.name), slug, Trim(req.description), NumberOf(req.price), req.imageUrl, req.author, genre,
         NumberOf(req.pages), req.ISBN, req.language, req.publishDate, nowMs, nowMs)
  }

  /** createBook: required fields, then the slug, then the genre, then the numbers, then `save()`. */
  function CreateBookSpec(c: Catalog, req: NewBook, slugify: string -> string, isDate: string -> bool, nowMs: nat): Outcome
  {
    if !AllRequiredPresent(req) then Outcome(c, Fail(400, MissingFieldsMessage))
    else
      var slug := slugify(req.name);
      if FindBookBySlug(c.books, slug, c.nextBookId).Some? then Outcome(c, Fail(400, BookExistsMessage))
      else
        match FindGenre(c.genres, NameIs(req.genre), c.nextGenreId)
        case None => Outcome(c, Fail(400, GenreNotFoundMessage))
        case Some(genreId) =>
          if IsNaN(req.price) || IsNaN(req.pages) then Outcome(c, Fail(400, BadNumbersMessage))
          else
            var book := BuildBook(req, slug, genreId, nowMs);
            var (saved, result) := SaveBookSpec(c, book, isDate);
            match result
            case Err(message) => Outcome(saved, Fail(500, message))
            case Ok(id) => Outcome(saved, Reply(200, true, BookCreatedMessage, OneBook(id, book)))
  }

  // ---------------------------------------------------------------- update and delete

  /** The partial body of an update: each field is replaced only when present. */
  datatype BookUpdate = BookUpdate(name: Option<string>, slug: Option<string>, description: Option<string>,
                                   price: Option<real>, imageUrl: Option<string>, author: Option<string>,
                                   genre: Option<string>, pages: Option<real>, ISBN: Option<string>,
                                   language: Option<string>, publishDate: Option<string>)

  const InvalidIdMessage := "Invalid ID."
  const BookNotFoundMessage := "Book not found"
  const BookUpdatedMessage := "Book updated successfully!"
  const BookDeletedMessage := "Book deleted successfully!"

  /** `mongoose.Types.ObjectId.isValid(id)`, for ids written as their text form. */
  function ParseId(id: string): Option<BookId>
  {
    ParseDecimal(id)
  }

  /** The message of the cast error raised when `genre: ""` reaches the update. */
  function GenreCastMessage(value: string): string
  {
    "Cast to ObjectId failed for value \"" + value + "\" (type string) at path \"genre\""
  }

  function Pick<T>(update: Option<T>, current: T): T
  {
    if update.Some? then update.value else current
  }

  /** `findByIdAndUpdate(id, updateData, { new: true })`: present fields overwrite, the trimming setters
      run, no validator runs, and `updatedAt` moves to now. */
  function ApplyUpdate(b: Book, u: BookUpdate, genre: GenreId, nowMs: nat): Book
  {
    Book(Pick(if u.name.Some? then Some(Trim(u.name.value)) else None, b.name),
         Pick(u.slug, b.slug),
         Pick(if u.description.Some? then Some(Trim(u.description.value)) else None, b.description),
         Pick(u.price, b.price), Pick(u.imageUrl, b.imageUrl), Pick(u.author, b.author), genre,
         Pick(u.pages, b.pages), Pick(u.ISBN, b.ISBN), if u.language.Some? then u.language else b.language,
         Pick(u.publishDate, b.publishDate), b.createdAt, nowMs)
  }

  /** The publish date of an update, if any, passes Mongoose's Date cast (an empty text casts to null). */
  predicate DateCasts(u: BookUpdate, isDate: string -> bool)
  {
    u.publishDate.None? || u.publishDate.value == "" || isDate(u.publishDate.value)
  }

  /** updateBook: the id, then the genre name (when truthy), then the casts of the update, then the book. */
  function UpdateBookSpec(c: Catalog, id: string, u: BookUpdate, isDate: string -> bool, nowMs: nat): Outcome
  {
    match ParseId(id)
    case None => Outcome(c, Fail(400, InvalidIdMessage))
    case Some(bookId) =>
      if u.genre.Some? && u.genre.value != "" && FindGenre(c.genres, NameIs(u.genre.value), c.nextGenreId).None? then
        Outcome(c, Fail(400, GenreNotFoundMessage))
      else if u.genre == Some("") then Outcome(c, Fail(500, GenreCastMessage("")))
      else if !DateCasts(u, isDate) then Outcome(c, Fail(500, DateCastMessage("publishDate", u.publishDate.value)))
      else if bookId !in c.books then Outcome(c, Fail(404, BookNotFoundMessage))
      else
        var genre := if u.genre.Some? then FindGenre(c.genres, NameIs(u.genre.value), c.nextGenreId).value
                     else c.books[bookId].genre;
        var book := ApplyUpdate(c.books[bookId], u, genre, nowMs);
        Outcome(c.(books := c.books[bookId := book]), Reply(200, true, BookUpdatedMessage, OneBook(bookId, book)))
  }

  /** deleteBook: the id, then the book. */
  function DeleteBookSpec(c: Catalog, id: string): Outcome
  {
    match ParseId(id)
    case None => Outcome(c, Fail(400, InvalidIdMessage))
    case Some(bookId) =>
      if bookId !in c.books then Outcome(c, Fail(404, BookNotFoundMessage))
      else Outcome(c.(books := c.books - {bookId}), Reply(200, true, BookDeletedMessage, NoBody))
  }

  // ---------------------------------------------------------------- the handlers over the database

  method CreateBook(db: Db, req: NewBook, slugify: string -> string, isDate: string -> bool, nowMs: nat) returns (reply: Reply)
    modifies db
    ensures Outcome(db.State(), reply) == CreateBookSpec(old(db.State()), req, slugify, isDate, nowMs)
  {
    if !AllRequiredPresent(req) {
      return Fail(400, MissingFieldsMessage);
    }
    var slug := slugify(req.name);
    if FindBookBySlug(db.books, slug, db.nextBookId).Some? {
      return Fail(400, BookExistsMessage);
    }
    var genre := FindGenre(db.genres, NameIs(req.genre), db.nextGenreId);
    if genre.None? {
      return Fail(400, GenreNotFoundMessage);
    }
    if IsNaN(req.price) || IsNaN(req.pages) {
      return Fail(400, BadNumbersMessage);
    }
    var book := BuildBook(req, slug, genre.value, nowMs);
    var saved := db.SaveBook(book, isDate);
    if saved.Err? {
      return Fail(500, saved.message);
    }
    reply := Reply(200, true, BookCreatedMessage, OneBook(saved.id, book));
  }

  method UpdateBook(db: Db, id: string, u: BookUpdate, isDate: string -> bool, nowMs: nat) returns (reply: Reply)
    modifies db
    ensures Outcome(db.State(), reply) == UpdateBookSpec(old(db.State()), id, u, isDate, nowMs)
  {
    var bookId := ParseId(id);
    if bookId.None? {
      return Fail(400, InvalidIdMessage);
    }
    var genre: Option<GenreId> := None;
    if u.genre.Some? && u.genre.value != "" {
      genre := FindGenre(db.genres, NameIs(u.genre.value), db.nextGenreId);
      if genre.None? {
        return Fail(400, GenreNotFoundMessage);
      }
    }
    if u.genre == Some("") {
      return Fail(500, GenreCastMessage(""));
    }
    if !DateCasts(u, isDate) {
      return Fail(500, DateCastMessage("publishDate", u.publishDate.value));
    }
    if bookId.value !in db.books {
      return Fail(404, BookNotFoundMessage);
    }
    var book := ApplyUpdate(db.books[bookId.value], u, if genre.Some? then genre.value else db.books[bookId.value].genre, nowMs);
    db.books := db.books[bookId.value := book];
    reply := Reply(200, true, BookUpdatedMessage, OneBook(bookId.value, book));
  }

  method DeleteBook(db: Db, id: string) returns (reply: Reply)
    modifies db
    ensures Outcome(db.State(), reply) == DeleteBookSpec(old(db.State()), id)
  {
    var bookId := ParseId(id);
    if bookId.None? {
      return Fail(400, InvalidIdMessage);
    }
    if bookId.value !in db.books {
      return Fail(404, BookNotFoundMessage);
    }
    db.books := db.books - {bookId.value};
    reply := Reply(200, true, BookDeletedMessage, NoBody);
  }

  // ---------------------------------------------------------------- properties

  /** Any falsy required field is refused first, so a price or page count of 0 is refused too;
      `language` may be missing. Nothing is stored. */
  lemma CreateBookRequiresFields(c: Catalog, req: NewBook, slugify: string -> string, isDate: string -> bool, nowMs: nat)
    requires !AllRequiredPresent(req)
    ensures CreateBookSpec(c, req, slugify, isDate, nowMs) == Outcome(c, Fail(400, MissingFieldsMessage))
    ensures req.price == Number(0.0) || req.pages == Number(0.0) ==> !AllRequiredPresent(req)
  {
  }

  /** The checks run in a fixed order, and each refusal stores nothing: a taken slug is reported even
      when the genre is also unknown and the numbers are also invalid, and an unknown genre even when
      the numbers are invalid. */
  lemma CreateBookCheckOrder(c: Catalog, req: NewBook, slugify: string -> string, isDate: string -> bool, nowMs: nat)
    requires AllRequiredPresent(req)
    ensures var o := CreateBookSpec(c, req, slugify, isDate, nowMs);
            var slugTaken := FindBookBySlug(c.books, slugify(req.name), c.nextBookId).Some?;
            var genreKnown := FindGenre(c.genres, NameIs(req.genre), c.nextGenreId).Some?;
            && (slugTaken ==> o == Outcome(c, Fail(400, BookExistsMessage)))
            && (!slugTaken && !genreKnown ==> o == Outcome(c, Fail(400, GenreNotFoundMessage)))
            && (!slugTaken && genreKnown && (IsNaN(req.price) || IsNaN(req.pages)) ==> o == Outcome(c, Fail(400, BadNumbersMessage)))
  {
  }

  /** When every check passes but trimming empties the name or the description, or the slug is empty,
      `save()` refuses the book: 500 with the validation message, and nothing is stored. */
  lemma CreateBookRefusedByValidation(c: Catalog, req: NewBook, slugify: string -> string, isDate: string -> bool, nowMs: nat)
    requires AllRequiredPresent(req)
    requires FindBookBySlug(c.books, slugify(req.name), c.nextBookId).None?
    requires FindGenre(c.genres, NameIs(req.genre), c.nextGenreId).Some?
    requires !IsNaN(req.price) && !IsNaN(req.pages)
    requires Trim(req.name) == "" || Trim(req.description) == "" || slugify(req.name) == ""
    requires isDate(req.publishDate)
    ensures var o := CreateBookSpec(c, req, slugify, isDate, nowMs);
            var paths := BookModel.RequiredFailures(BuildBook(req, slugify(req.name), FindGenre(c.genres, NameIs(req.genre), c.nextGenreId).value, nowMs));
            && o.catalog == c && o.reply == Fail(500, ValidationMessage("Book", paths))
            && paths != [] && (Trim(req.name) == "" <==> paths[0] == "name")
  {
  }

  /** When every check passes but the publish date does not cast to a Date, `save()` refuses the book:
      500 with a validation message whose first entry is the cast error, and nothing is stored. */
  lemma CreateBookRefusedOnBadDate(c: Catalog, req: NewBook, slugify: string -> string, isDate: string -> bool, nowMs: nat)
    requires AllRequiredPresent(req)
    requires FindBookBySlug(c.books, slugify(req.name), c.nextBookId).None?
    requires FindGenre(c.genres, NameIs(req.genre), c.nextGenreId).Some?
    requires !IsNaN(req.price) && !IsNaN(req.pages)
    requires !isDate(req.publishDate)
    ensures var o := CreateBookSpec(c, req, slugify, isDate, nowMs);
            var entry := "Book validation failed: publishDate: " + DateCastMessage("publishDate", req.publishDate);
            && o.catalog == c && o.reply.status == 500 && !o.reply.success
            && |entry| <= |o.reply.message| && o.reply.message[..|entry|] == entry
  {
    var entry := "Book validation failed: publishDate: " + DateCastMessage("publishDate", req.publishDate);
    var book := BuildBook(req, slugify(req.name), FindGenre(c.genres, NameIs(req.genre), c.nextGenreId).value, nowMs);
    var rest := if BookModel.RequiredFailures(book) != [] then ", " + RequiredList(BookModel.RequiredFailures(book)) else "";
    assert SaveErrorMessage(book, isDate) == entry + rest;
    assert (entry + rest)[..|entry|] == entry;
  }

  /** When every check passes and validation does too, exactly one book is stored, at the next id, and
      no other book and no genre changes. */
  lemma CreateBookStoresOne(c: Catalog, req: NewBook, slugify: string -> string, isDate: string -> bool, nowMs: nat)
    requires AllRequiredPresent(req)
    requires FindBookBySlug(c.books, slugify(req.name), c.nextBookId).None?
    requires FindGenre(c.genres, NameIs(req.genre), c.nextGenreId).Some?
    requires !IsNaN(req.price) && !IsNaN(req.pages)
    requires Trim(req.name) != "" && Trim(req.description) != "" && slugify(req.name) != "" && isDate(req.publishDate)
    ensures var o := CreateBookSpec(c, req, slugify, isDate, nowMs);
            var id := c.nextBookId;
            && o.reply.status == 200 && o.reply.message == BookCreatedMessage
            && o.catalog.books.Keys == c.books.Keys + {id} && o.catalog.nextBookId == id + 1
            && (forall other :: other in c.books && other != id ==> o.catalog.books[other] == c.books[other])
            && o.catalog.genres == c.genres && o.catalog.nextGenreId == c.nextGenreId
            && o.reply.body == OneBook(id, o.catalog.books[id])
  {
    CreateBookSaves(c, req, slugify, isDate, nowMs);
  }

  /** A created book is stored under an id no book had, and the catalog stays valid. */
  lemma CreateBookKeepsValid(c: Catalog, req: NewBook, slugify: string -> string, isDate: string -> bool, nowMs: nat)
    requires ValidCatalog(c)
    ensures c.nextBookId !in c.books
    ensures ValidCatalog(CreateBookSpec(c, req, slugify, isDate, nowMs).catalog)
  {
    if AllRequiredPresent(req) && FindBookBySlug(c.books, slugify(req.name), c.nextBookId).None?
       && FindGenre(c.genres, NameIs(req.genre), c.nextGenreId).Some? && !IsNaN(req.price) && !IsNaN(req.pages)
       && Trim(req.name) != "" && Trim(req.description) != "" && slugify(req.name) != "" && isDate(req.publishDate) {
      CreateBookSaves(c, req, slugify, isDate, nowMs);
      AddBookKeepsValid(c, BuildBook(req, slugify(req.name), FindGenre(c.genres, NameIs(req.genre), c.nextGenreId).value, nowMs));
    } else {
      CreateBookUnchangedUnlessStored(c, req, slugify, isDate, nowMs);
    }
  }

  /** Unless every check and validation pass, createBook leaves the catalog as it was. */
  lemma CreateBookUnchangedUnlessStored(c: Catalog, req: NewBook, slugify: string -> string, isDate: string -> bool, nowMs: nat)
    requires !(AllRequiredPresent(req) && FindBookBySlug(c.books, slugify(req.name), c.nextBookId).None?
               && FindGenre(c.genres, NameIs(req.genre), c.nextGenreId).Some? && !IsNaN(req.price) && !IsNaN(req.pages)
               && Trim(req.name) != "" && Trim(req.description) != "" && slugify(req.name) != "" && isDate(req.publishDate))
    ensures CreateBookSpec(c, req, slugify, isDate, nowMs).catalog == c
    ensures !CreateBookSpec(c, req, slugify, isDate, nowMs).reply.success
  {
    if AllRequiredPresent(req) && FindBookBySlug(c.books, slugify(req.name), c.nextBookId).None?
       && FindGenre(c.genres, NameIs(req.genre), c.nextGenreId).Some? && !IsNaN(req.price) && !IsNaN(req.pages) {
      if isDate(req.publishDate) {
        CreateBookRefusedByValidation(c, req, slugify, isDate, nowMs);
      } else {
        CreateBookRefusedOnBadDate(c, req, slugify, isDate, nowMs);
      }
    }
  }

  /** The stored book: its slug is the slug of the name and no book stored before has it, its genre is
      the id of the genre named in the request, and its name and description are trimmed. */
  lemma CreatedBookFields(c: Catalog, req: NewBook, slugify: string -> string, isDate: string -> bool, nowMs: nat)
    requires ValidCatalog(c) && AllRequiredPresent(req)
    requires FindBookBySlug(c.books, slugify(req.name), c.nextBookId).None?
    requires FindGenre(c.genres, NameIs(req.genre), c.nextGenreId).Some?
    requires !IsNaN(req.price) && !IsNaN(req.pages)
    requires Trim(req.name) != "" && Trim(req.description) != "" && slugify(req.name) != "" && isDate(req.publishDate)
    ensures c.nextBookId in CreateBookSpec(c, req, slugify, isDate, nowMs).catalog.books
    ensures var b := CreateBookSpec(c, req, slugify, isDate, nowMs).catalog.books[c.nextBookId];
            && b.slug == slugify(req.name)
            && (forall other :: other in c.books ==> c.books[other].slug != b.slug)
            && b.genre in c.genres && GenreMatches(c.genres[b.genre], NameIs(req.genre))
            && b.name == Trim(req.name) && b.description == Trim(req.description)
            && b.ISBN == req.ISBN && b.language == req.language && b.createdAt == b.updatedAt == nowMs
  {
    var slug := slugify(req.name);
    var book := BuildBook(req, slug, FindGenre(c.genres, NameIs(req.genre), c.nextGenreId).value, nowMs);
    assert CreateBookSpec(c, req, slugify, isDate, nowMs).catalog.books[c.nextBookId] == book by {
      CreateBookSaves(c, req, slugify, isDate, nowMs);
    }
    forall other | other in c.books
      ensures c.books[other].slug != slug
    {
      assert other < c.nextBookId;
    }
  }

  /** The outcome of createBook once every check and validation pass. */
  lemma CreateBookSaves(c: Catalog, req: NewBook, slugify: string -> string, isDate: string -> bool, nowMs: nat)
    requires AllRequiredPresent(req)
    requires FindBookBySlug(c.books, slugify(req.name), c.nextBookId).None?
    requires FindGenre(c.genres, NameIs(req.genre), c.nextGenreId).Some?
    requires !IsNaN(req.price) && !IsNaN(req.pages)
    requires Trim(req.name) != "" && Trim(req.description) != "" && slugify(req.name) != "" && isDate(req.publishDate)
    ensures var book := BuildBook(req, slugify(req.name), FindGenre(c.genres, NameIs(req.genre), c.nextGenreId).value, nowMs);
            CreateBookSpec(c, req, slugify, isDate, nowMs)
            == Outcome(c.(books := c.books[c.nextBookId := book], nextBookId := c.nextBookId + 1),
                       Reply(200, true, BookCreatedMessage, OneBook(c.nextBookId, book)))
  {
  }

  /** Storing a book under the next id, referring to a stored genre, keeps the catalog valid. */
  lemma AddBookKeepsValid(c: Catalog, book: Book)
    requires ValidCatalog(c) && book.genre in c.genres
    ensures c.nextBookId !in c.books
    ensures ValidCatalog(c.(books := c.books[c.nextBookId := book], nextBookId := c.nextBookId + 1))
  {
  }

  /** Replacing a stored book by one referring to a stored genre keeps the catalog valid. */
  lemma ReplaceBookKeepsValid(c: Catalog, id: BookId, book: Book)
    requires ValidCatalog(c) && id in c.books && book.genre in c.genres
    ensures ValidCatalog(c.(books := c.books[id := book]))
  {
  }

  /** An id that is not an id is refused before the collections are read; an unknown book is 404. */
  lemma UpdateAndDeleteRejects(c: Catalog, id: string, u: BookUpdate, isDate: string -> bool, nowMs: nat)
    requires ParseId(id).None?
             || (ParseId(id).value !in c.books
                 && (u.genre.None? || (u.genre.value != "" && FindGenre(c.genres, NameIs(u.genre.value), c.nextGenreId).Some?))
                 && DateCasts(u, isDate))
    ensures UpdateBookSpec(c, id, u, isDate, nowMs).catalog == c && DeleteBookSpec(c, id).catalog == c
    ensures ParseId(id).None? ==> UpdateBookSpec(c, id, u, isDate, nowMs).reply == Fail(400, InvalidIdMessage)
                                  && DeleteBookSpec(c, id).reply == Fail(400, InvalidIdMessage)
    ensures ParseId(id).Some? ==> UpdateBookSpec(c, id, u, isDate, nowMs).reply == Fail(404, BookNotFoundMessage)
                                  && DeleteBookSpec(c, id).reply == Fail(404, BookNotFoundMessage)
  {
  }

  /** An unknown genre name refuses the update with 400 and changes nothing, whether or not the book exists. */
  lemma UpdateUnknownGenreRejected(c: Catalog, id: string, u: BookUpdate, isDate: string -> bool, nowMs: nat)
    requires ParseId(id).Some? && u.genre.Some? && u.genre.value != ""
    requires FindGenre(c.genres, NameIs(u.genre.value), c.nextGenreId).None?
    ensures UpdateBookSpec(c, id, u, isDate, nowMs) == Outcome(c, Fail(400, GenreNotFoundMessage))
  {
  }

  /** A publish date that does not cast to a Date refuses the update with 500 and the cast error, after
      the genre checks and before the book is looked up; nothing changes. */
  lemma UpdateBadDateRejected(c: Catalog, id: string, u: BookUpdate, isDate: string -> bool, nowMs: nat)
    requires ParseId(id).Some?
    requires u.genre.None? || (u.genre.value != "" && FindGenre(c.genres, NameIs(u.genre.value), c.nextGenreId).Some?)
    requires u.publishDate.Some? && u.publishDate.value != "" && !isDate(u.publishDate.value)
    ensures UpdateBookSpec(c, id, u, isDate, nowMs) == Outcome(c, Fail(500, DateCastMessage("publishDate", u.publishDate.value)))
  {
  }

  /** The outcome of updateBook once the id, the genre and the book are found. */
  lemma UpdateBookSaves(c: Catalog, id: string, bookId: BookId, u: BookUpdate, isDate: string -> bool, nowMs: nat)
    requires ParseId(id) == Some(bookId) && bookId in c.books
    requires u.genre.None? || (u.genre.value != "" && FindGenre(c.genres, NameIs(u.genre.value), c.nextGenreId).Some?)
    requires DateCasts(u, isDate)
    ensures var genre := if u.genre.Some? then FindGenre(c.genres, NameIs(u.genre.value), c.nextGenreId).value
                         else c.books[bookId].genre;
            var book := ApplyUpdate(c.books[bookId], u, genre, nowMs);
            UpdateBookSpec(c, id, u, isDate, nowMs) == Outcome(c.(books := c.books[bookId := book]), Reply(200, true, BookUpdatedMessage, OneBook(bookId, book)))
  {
  }

  /** A successful update replaces only that book. */
  lemma UpdateChangesOnlyThatBook(c: Catalog, id: string, bookId: BookId, u: BookUpdate, isDate: string -> bool, nowMs: nat)
    requires ParseId(id) == Some(bookId) && bookId in c.books
    requires u.genre.None? || (u.genre.value != "" && FindGenre(c.genres, NameIs(u.genre.value), c.nextGenreId).Some?)
    requires DateCasts(u, isDate)
    ensures var o := UpdateBookSpec(c, id, u, isDate, nowMs);
            && o.reply.status == 200 && o.reply.message == BookUpdatedMessage
            && o.catalog.books.Keys == c.books.Keys && o.catalog.genres == c.genres
            && o.catalog.nextBookId == c.nextBookId && o.catalog.nextGenreId == c.nextGenreId
            && (forall other :: other in c.books && other != bookId ==> o.catalog.books[other] == c.books[other])
            && o.reply.body == OneBook(bookId, o.catalog.books[bookId])
  {
    UpdateBookSaves(c, id, bookId, u, isDate, nowMs);
  }

  /** Every update, successful or not, keeps the catalog valid. */
  lemma UpdateKeepsValid(c: Catalog, id: string, u: BookUpdate, isDate: string -> bool, nowMs: nat)
    requires ValidCatalog(c)
    ensures ValidCatalog(UpdateBookSpec(c, id, u, isDate, nowMs).catalog)
  {
    if ParseId(id).Some? && ParseId(id).value in c.books
       && (u.genre.None? || (u.genre.value != "" && FindGenre(c.genres, NameIs(u.genre.value), c.nextGenreId).Some?))
       && DateCasts(u, isDate) {
      var bookId := ParseId(id).value;
      var genre := if u.genre.Some? then FindGenre(c.genres, NameIs(u.genre.value), c.nextGenreId).value else c.books[bookId].genre;
      UpdateBookSaves(c, id, bookId, u, isDate, nowMs);
      ReplaceBookKeepsValid(c, bookId, ApplyUpdate(c.books[bookId], u, genre, nowMs));
    }
  }

  /** In the updated book, the fields present in the body are replaced (name and description trimmed),
      the genre refers to the named genre, `updatedAt` moves to now, and the rest, `createdAt` included,
      stays. */
  lemma UpdatedBookFields(c: Catalog, id: string, bookId: BookId, u: BookUpdate, isDate: string -> bool, nowMs: nat)
    requires ParseId(id) == Some(bookId) && bookId in c.books
    requires u.genre.None? || (u.genre.value != "" && FindGenre(c.genres, NameIs(u.genre.value), c.nextGenreId).Some?)
    requires DateCasts(u, isDate)
    ensures var after := UpdateBookSpec(c, id, u, isDate, nowMs).catalog.books[bookId];
            var before := c.books[bookId];
            && (after.name == if u.name.Some? then Trim(u.name.value) else before.name)
            && (after.description == if u.description.Some? then Trim(u.description.value) else before.description)
            && (after.price == if u.price.Some? then u.price.value else before.price)
            && (after.slug == if u.slug.Some? then u.slug.value else before.slug)
            && (u.genre.None? ==> after.genre == before.genre)
            && (u.genre.Some? ==> after.genre in c.genres && GenreMatches(c.genres[after.genre], NameIs(u.genre.value)))
            && after.createdAt == before.createdAt && after.updatedAt == nowMs
  {
    UpdateBookSaves(c, id, bookId, u, isDate, nowMs);
  }

  /** A successful delete removes exactly that book. */
  lemma DeleteRemovesExactlyOne(c: Catalog, id: string, bookId: BookId)
    requires ValidCatalog(c) && ParseId(id) == Some(bookId) && bookId in c.books
    ensures var o := DeleteBookSpec(c, id);
            && ValidCatalog(o.catalog) && o.reply == Reply(200, true, BookDeletedMessage, NoBody)
            && o.catalog.books.Keys == c.books.Keys - {bookId}
            && (forall other :: other in o.catalog.books ==> o.catalog.books[other] == c.books[other])
  {
  }

  /** A book created and then looked up by its slug is found. */
  lemma CreatedBookFoundBySlug(c: Catalog, req: NewBook, slugify: string -> string, isDate: string -> bool, nowMs: nat)
    requires ValidCatalog(c) && AllRequiredPresent(req)
    requires FindBookBySlug(c.books, slugify(req.name), c.nextBookId).None?
    requires FindGenre(c.genres, NameIs(req.genre), c.nextGenreId).Some?
    requires !IsNaN(req.price) && !IsNaN(req.pages)
    requires Trim(req.name) != "" && Trim(req.description) != "" && slugify(req.name) != "" && isDate(req.publishDate)
    ensures var o := CreateBookSpec(c, req, slugify, isDate, nowMs);
            GetSingleBookSpec(o.catalog, slugify(req.name)) == Reply(200, true, "", o.reply.body)
  {
    var slug := slugify(req.name);
    var genre := FindGenre(c.genres, NameIs(req.genre), c.nextGenreId).value;
    var book := BuildBook(req, slug, genre, nowMs);
    var after := c.(books := c.books[c.nextBookId := book], nextBookId := c.nextBookId + 1);
    CreateBookSaves(c, req, slugify, isDate, nowMs);
    var found := FindBookBySlug(after.books, slug, after.nextBookId);
    assert found.Some? by {
      assert after.books[c.nextBookId].slug == slug;
    }
    assert found.value == c.nextBookId;
  }
}
