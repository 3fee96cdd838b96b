/** The client book store: the listing, featured and new-book sections, one book, the search results,
    and the admin operations, each updating the store's fields around one request. The request is not
    part of this model: its outcome is a parameter. */
module BookStore {
  import opened Common
  import opened Encoding
  import opened ClientBooks

  /** The optional listing filters a caller passes; `sort` is "" when absent. */
  datatype BookFilters = BookFilters(page: Option<int>, limit: Option<int>, genre: Option<seq<string>>, sort: string)

  /** `String(n)` for an integer. */
  function IntText(n: int): string
  {
    if n < 0 then "-" + NatToDecimal(-n) else NatToDecimal(n)
  }

  /** One `genre` entry per selected genre, in order. */
  function GenreParams(genres: seq<string>): (r: seq<(string, string)>)
    ensures |r| == |genres|
    ensures forall i :: 0 <= i < |r| ==> r[i] == ("genre", genres[i])
  {
    if genres == [] then [] else [("genre", genres[0])] + GenreParams(genres[1..])
  }

  /** The query the listing requests carry: genres, then sort, page and limit, each only when given. */
  function QueryParams(f: BookFilters): seq<(string, string)>
  {
    (if f.genre.Some? && |f.genre.value| > 0 then GenreParams(f.genre.value) else [])
    + (if f.sort != "" then [("sort", f.sort)] else [])
    + (if f.page.Some? then [("page", IntText(f.page.value))] else [])
    + (if f.limit.Some? then [("limit", IntText(f.limit.value))] else [])
  }

  /** `URLSearchParams.getAll(key)`. */
  function GetAll(params: seq<(string, string)>, key: string): seq<string>
  {
    if params == [] then []
    else (if params[0].0 == key then [params[0].1] else []) + GetAll(params[1..], key)
  }

  /** `URLSearchParams.get(key)`. */
  function Get(params: seq<(string, string)>, key: string): Option<string>
  {
    var all := GetAll(params, key);
    if all == [] then None else Some(all[0])
  }

  lemma {:induction false} GetAllAppend(a: seq<(string, string)>, b: seq<(string, string)>, key: string)
    ensures GetAll(a + b, key) == GetAll(a, key) + GetAll(b, key)
  {
    if a == [] {
      assert a + b == b;
    } else {
      assert (a + b)[1..] == a[1..] + b;
      GetAllAppend(a[1..], b, key);
    }
  }

  lemma {:induction false} GetAllGenreParams(genres: seq<string>, key: string)
    ensures GetAll(GenreParams(genres), key) == if key == "genre" then genres else []
  {
    if genres != [] {
      GetAllGenreParams(genres[1..], key);
      assert GenreParams(genres) == [("genre", genres[0])] + GenreParams(genres[1..]);
      GetAllAppend([("genre", genres[0])], GenreParams(genres[1..]), key);
      assert GetAll([("genre", genres[0])], key) == (if key == "genre" then [genres[0]] else []) by {
        assert [("genre", genres[0])][1..] == [];
      }
    }
  }

  lemma GetAllSingle(k: string, v: string, key: string)
    ensures GetAll([(k, v)], key) == if k == key then [v] else []
  {
    assert [(k, v)][1..] == [];
  }

  /** The values the query holds under one key, in order. */
  lemma QueryGetAll(f: BookFilters, key: string)
    ensures GetAll(QueryParams(f), key)
            == (if key == "genre" && f.genre.Some? then f.genre.value else [])
               + (if key == "sort" && f.sort != "" then [f.sort] else [])
               + (if key == "page" && f.page.Some? then [IntText(f.page.value)] else [])
               + (if key == "limit" && f.limit.Some? then [IntText(f.limit.value)] else [])
  {
    var g: seq<(string, string)> := if f.genre.Some? && |f.genre.value| > 0 then GenreParams(f.genre.value) else [];
    var s: seq<(string, string)> := if f.sort != "" then [("sort", f.sort)] else [];
    var p: seq<(string, string)> := if f.page.Some? then [("page", IntText(f.page.value))] else [];
    var l: seq<(string, string)> := if f.limit.Some? then [("limit", IntText(f.limit.value))] else [];
    assert QueryParams(f) == g + s + p + l;
    GetAllAppend(g + s + p, l, key);
    GetAllAppend(g + s, p, key);
    GetAllAppend(g, s, key);
    if f.genre.Some? && |f.genre.value| > 0 {
      GetAllGenreParams(f.genre.value, key);
    }
    if f.sort != "" {
      GetAllSingle("sort", f.sort, key);
    }
    if f.page.Some? {
      GetAllSingle("page", IntText(f.page.value), key);
    }
    if f.limit.Some? {
      GetAllSingle("limit", IntText(f.limit.value), key);
    }
  }

  /** Reading the query back gives the filters: every genre in order, and the sort, page and limit
      that were given. */
  lemma QueryReadBack(f: BookFilters)
    ensures GetAll(QueryParams(f), "genre") == (if f.genre.Some? then f.genre.value else [])
    ensures Get(QueryParams(f), "sort") == (if f.sort != "" then Some(f.sort) else None)
    ensures Get(QueryParams(f), "page") == (if f.page.Some? then Some(IntText(f.page.value)) else None)
    ensures Get(QueryParams(f), "limit") == (if f.limit.Some? then Some(IntText(f.limit.value)) else None)
  {
    QueryGetAll(f, "genre");
    QueryGetAll(f, "sort");
    QueryGetAll(f, "page");
    QueryGetAll(f, "limit");
  }

  /** The listing reply: `books`, `book` and `message` may be missing. */
  datatype ListData = ListData(success: bool, message: Option<string>, books: Option<seq<ClientBook>>, book: Option<ClientBook>,
                               booksCount: int, totalBooks: int, page: int, limit: int, totalPages: int)

  /** A request answers, throws an `Error` with its message, or throws some other value, which the
      handlers ignore. */
  datatype Fetch = Answered(data: ListData) | Threw(message: string) | ThrewNonError

  const FetchBooksError := "Error while fetching books."
  const FetchBookError := "Error while fetching book."

  /** `error.message || fallback`. */
  function ErrorText(message: string, fallback: string): (r: string)
    ensures r != ""  || fallback == ""
    ensures message != "" ==> r == message
  {
    if message != "" then message else fallback
  }

  datatype BookState = BookState(
    books: Option<seq<ClientBook>>,
    featuredBooks: Option<seq<ClientBook>>,
    newBooks: Option<seq<ClientBook>>,
    book: Option<ClientBook>,
    errorState: Option<string>,
    loadingState: bool,
    message: Option<string>,
    totalBooks: int,
    booksCount: int,
    page: int,
    limit: int,
    totalPages: int)

  const Initial := BookState(None, None, None, None, None, false, None, 0, 0, 1, 10, 0)

  /** What every action sets first: loading, and no error or message. */
  function Begin(s: BookState): BookState
  {
    s.(loadingState := true, errorState := None, message := None)
  }

  function OrEmpty(books: Option<seq<ClientBook>>): seq<ClientBook>
  {
    if books.Some? then books.value else []
  }

  /** getFeaturedBooks. */
  function FeaturedSpec(s: BookState, r: Fetch): BookState
  {
    var s1 := Begin(s);
    var s2 := match r
      case Answered(d) =>
        if d.success then s1.(page := d.page, limit := d.limit, totalBooks := d.totalBooks, totalPages := d.totalPages,
                              featuredBooks := d.books, errorState := None, message := d.message)
        else s1
      case Threw(m) => s1.(errorState := Some(ErrorText(m, FetchBooksError)), loadingState := false, books := None)
      case ThrewNonError => s1;
    s2.(loadingState := false)
  }

  /** getNewBooks. */
  function NewBooksSpec(s: BookState, r: Fetch): BookState
  {
    var s1 := Begin(s);
    var s2 := match r
      case Answered(d) =>
        if d.success then s1.(page := d.page, limit := d.limit, totalBooks := d.totalBooks, totalPages := d.totalPages,
                              newBooks := d.books, errorState := None, message := d.message)
        else s1
      case Threw(m) => s1.(errorState := Some(ErrorText(m, FetchBooksError)), loadingState := false, newBooks := None)
      case ThrewNonError => s1;
    s2.(loadingState := false)
  }

  /** getAllBooks: a successful page is merged behind the books already shown. */
  function AllBooksSpec(s: BookState, f: BookFilters, r: Fetch): BookState
  {
    var s1 := Begin(s);
    var s2 := match r
      case Answered(d) =>
        if d.success then
          s1.(books := Some(AppendUnseen(OrEmpty(s1.books), OrEmpty(d.books))),
              page := if f.page.Some? then f.page.value else 1,
              limit := d.limit, booksCount := d.booksCount, totalBooks := d.totalBooks, totalPages := d.totalPages,
              errorState := None, message := d.message)
        else s1
      case Threw(m) => s1.(errorState := Some(ErrorText(m, FetchBooksError)), loadingState := false, newBooks := None)
      case ThrewNonError => s1;
    s2.(loadingState := false)
  }

  /** getBook: the reply's book and message are taken whatever `success` says. */
  function BookSpec(s: BookState, r: Fetch): BookState
  {
    var s1 := Begin(s);
    var s2 := match r
      case Answered(d) => s1.(book := d.book, message := d.message)
      case Threw(m) => s1.(errorState := Some(ErrorText(m, FetchBookError)), loadingState := false, newBooks := None)
      case ThrewNonError => s1;
    s2.(loadingState := false)
  }

  /** searchBook: the results replace the list. */
  function SearchSpec(s: BookState, r: Fetch): BookState
  {
    var s1 := Begin(s);
    var s2 := match r
      case Answered(d) => s1.(books := d.books, message := d.message)
      case Threw(m) => s1.(errorState := Some(ErrorText(m, FetchBookError)), books := None)
      case ThrewNonError => s1;
    s2.(loadingState := false)
  }

  /** The search request's query string. */
  function SearchQuery(userQuery: string): string
  {
    "search=" + EncodeURIComponent(userQuery)
  }

  /** createBook: the created book goes to the front of the list. */
  function CreateSpec(s: BookState, r: Fetch): BookState
  {
    var s1 := Begin(s);
    var s2 := match r
      case Answered(d) =>
        if d.success && d.book.Some? then s1.(books := Some([d.book.value] + OrEmpty(s1.books)), message := d.message)
        else s1
      case Threw(m) => s1.(errorState := Some(m))
      case ThrewNonError => s1;
    s2.(loadingState := false)
  }

  /** updateBook: the returned book replaces every entry with that id. */
  function UpdateSpec(s: BookState, id: string, r: Fetch): BookState
  {
    var s1 := Begin(s);
    var s2 := match r
      case Answered(d) =>
        if d.success && d.book.Some? then
          s1.(books := Some(ReplaceById(OrEmpty(s1.books), id, d.book.value)), book := d.book, message := d.message)
        else s1
      case Threw(m) => s1.(errorState := Some(m))
      case ThrewNonError => s1;
    s2.(loadingState := false)
  }

  /** deleteBook: every entry with that id goes; a missing list stays missing. */
  function DeleteSpec(s: BookState, id: string, r: Fetch): BookState
  {
    var s1 := Begin(s);
    var s2 := match r
      case Answered(d) =>
        if d.success then
          s1.(books := if s1.books.Some? then Some(RemoveById(s1.books.value, id)) else None, message := d.message)
        else s1
      case Threw(m) => s1.(errorState := Some(m))
      case ThrewNonError => s1;
    s2.(loadingState := false)
  }

  class Store {
    var books: Option<seq<ClientBook>>
    var featuredBooks: Option<seq<ClientBook>>
    var newBooks: Option<seq<ClientBook>>
    var book: Option<ClientBook>
    var errorState: Option<string>
    var loadingState: bool
    var message: Option<string>
    var totalBooks: int
    var booksCount: int
    var page: int
    var limit: int
    var totalPages: int

    function State(): BookState
      reads this
    {
      BookState(books, featuredBooks, newBooks, book, errorState, loadingState, message, totalBooks, booksCount,
                page, limit, totalPages)
    }

    constructor ()
      ensures State() == Initial
    {
      books, featuredBooks, newBooks, book := None, None, None, None;
      errorState, loadingState, message := None, false, None;
      totalBooks, booksCount, page, limit, totalPages := 0, 0, 1, 10, 0;
    }

    method Start()
      modifies this
      ensures State() == Begin(old(State()))
    {
      loadingState, errorState, message := true, None, None;
    }

    /** The query of a listing request, appended one parameter at a time. */
    static method BuildQueryParams(f: BookFilters) returns (params: seq<(string, string)>)
      ensures params == QueryParams(f)
    {
      params := [];
      if f.genre.Some? && |f.genre.value| > 0 {
        var genres := f.genre.value;
        var i := 0;
        while i < |genres|
          invariant 0 <= i <= |genres|
          invariant params == GenreParams(genres[..i])
        {
          GenreParamsAppend(genres[..i], genres[i]);
          assert genres[..i + 1] == genres[..i] + [genres[i]];
          params := params + [("genre", genres[i])];
          i := i + 1;
        }
        assert genres[..i] == genres;
      }
      if f.sort != "" {
        params := params + [("sort", f.sort)];
      }
      if f.page.Some? {
        params := params + [("page", IntText(f.page.value))];
      }
      if f.limit.Some? {
        params := params + [("limit", IntText(f.limit.value))];
      }
    }

    method GetFeaturedBooks(f: BookFilters, r: Fetch) returns (query: seq<(string, string)>)
      modifies this
      ensures query == QueryParams(f)
      ensures State() == FeaturedSpec(old(State()), r)
    {
      Start();
      query := BuildQueryParams(f);
      match r {
        case Answered(d) =>
          if d.success {
            page, limit, totalBooks, totalPages := d.page, d.limit, d.totalBooks, d.totalPages;
            featuredBooks, errorState, message := d.books, None, d.message;
          }
        case Threw(m) =>
          errorState, loadingState, books := Some(ErrorText(m, FetchBooksError)), false, None;
        case ThrewNonError =>
      }
      loadingState := false;
    }

    method GetNewBooks(f: BookFilters, r: Fetch) returns (query: seq<(string, string)>)
      modifies this
      ensures query == QueryParams(f)
      ensures State() == NewBooksSpec(old(State()), r)
    {
      Start();
      query := BuildQueryParams(f);
      match r {
        case Answered(d) =>
          if d.success {
            page, limit, totalBooks, totalPages := d.page, d.limit, d.totalBooks, d.totalPages;
            newBooks, errorState, message := d.books, None, d.message;
          }
        case Threw(m) =>
          errorState, loadingState, newBooks := Some(ErrorText(m, FetchBooksError)), false, None;
        case ThrewNonError =>
      }
      loadingState := false;
    }

    method GetAllBooks(f: BookFilters, r: Fetch) returns (query: seq<(string, string)>)
      modifies this
      ensures query == QueryParams(f)
      ensures State() == AllBooksSpec(old(State()), f, r)
    {
      Start();
      query := BuildQueryParams(f);
      match r {
        case Answered(d) =>
          if d.success {
            books := Some(AppendUnseen(OrEmpty(books), OrEmpty(d.books)));
            page := if f.page.Some? then f.page.value else 1;
            limit, booksCount, totalBooks, totalPages := d.limit, d.booksCount, d.totalBooks, d.totalPages;
            errorState, message := None, d.message;
          }
        case Threw(m) =>
          errorState, loadingState, newBooks := Some(ErrorText(m, FetchBooksError)), false, None;
        case ThrewNonError =>
      }
      loadingState := false;
    }

    method GetBook(r: Fetch)
      modifies this
      ensures State() == BookSpec(old(State()), r)
    {
      Start();
      match r {
        case Answered(d) =>
          book, message := d.book, d.message;
        case Threw(m) =>
          errorState, loadingState, newBooks := Some(ErrorText(m, FetchBookError)), false, None;
        case ThrewNonError =>
      }
      loadingState := false;
    }

    method SearchBook(userQuery: string, r: Fetch) returns (query: string)
      modifies this
      ensures query == SearchQuery(userQuery)
      ensures State() == SearchSpec(old(State()), r)
    {
      Start();
      query := SearchQuery(userQuery);
      match r {
        case Answered(d) =>
          books, message := d.books, d.message;
        case Threw(m) =>
          errorState, books := Some(ErrorText(m, FetchBookError)), None;
        case ThrewNonError =>
      }
      loadingState := false;
    }

    method CreateBook(r: Fetch)
      modifies this
      ensures State() == CreateSpec(old(State()), r)
    {
      Start();
      match r {
        case Answered(d) =>
          if d.success && d.book.Some? {
            books, message := Some([d.book.value] + OrEmpty(books)), d.message;
          }
        case Threw(m) =>
          errorState := Some(m);
        case ThrewNonError =>
      }
      loadingState := false;
    }

    method UpdateBook(id: string, r: Fetch)
      modifies this
      ensures State() == UpdateSpec(old(State()), id, r)
    {
      Start();
      match r {
        case Answered(d) =>
          if d.success && d.book.Some? {
            books, book, message := Some(ReplaceById(OrEmpty(books), id, d.book.value)), d.book, d.message;
          }
        case Threw(m) =>
          errorState := Some(m);
        case ThrewNonError =>
      }
      loadingState := false;
    }

    method DeleteBook(id: string, r: Fetch)
      modifies this
      ensures State() == DeleteSpec(old(State()), id, r)
    {
      Start();
      match r {
        case Answered(d) =>
          if d.success {
            books, message := if books.Some? then Some(RemoveById(books.value, id)) else None, d.message;
          }
        case Threw(m) =>
          errorState := Some(m);
        case ThrewNonError =>
      }
      loadingState := false;
    }
  }

  lemma {:induction false} GenreParamsAppend(genres: seq<string>, g: string)
    ensures GenreParams(genres + [g]) == GenreParams(genres) + [("genre", g)]
  {
  }

  // ---------------------------------------------------------------- properties

  /** A successful listing page keeps every book already shown, in place, and adds behind them exactly
      the reply's books whose ids were not shown yet; the page is the requested one, 1 by default. */
  lemma AllBooksMerges(s: BookState, f: BookFilters, d: ListData)
    requires d.success
    ensures var t := AllBooksSpec(s, f, Answered(d));
            var before := OrEmpty(s.books);
            && t.books.Some? && |before| <= |t.books.value| && t.books.value[..|before|] == before
            && (forall i :: |before| <= i < |t.books.value| ==> !HasId(before, t.books.value[i].id) && t.books.value[i] in OrEmpty(d.books))
            && (forall b :: b in OrEmpty(d.books) && !HasId(before, b.id) ==> b in t.books.value)
            && t.page == (if f.page.Some? then f.page.value else 1)
            && !t.loadingState && t.errorState.None?
  {
  }

  /** Pages whose books have distinct ids merge into a list with distinct ids. */
  lemma AllBooksNoDuplicates(s: BookState, f: BookFilters, d: ListData)
    requires d.success && DistinctIds(OrEmpty(s.books)) && DistinctIds(OrEmpty(d.books))
    ensures DistinctIds(AllBooksSpec(s, f, Answered(d)).books.value)
  {
    AppendUnseenKeepsDistinct(OrEmpty(s.books), OrEmpty(d.books));
  }

  /** A failed listing request blanks `newBooks`, not `books`, and a failed featured request blanks
      `books`, not `featuredBooks`: each section clears another section's list. */
  lemma FailuresClearTheWrongList(s: BookState, f: BookFilters, m: string)
    ensures var t := AllBooksSpec(s, f, Threw(m));
            t.newBooks.None? && t.books == s.books && t.errorState == Some(ErrorText(m, FetchBooksError))
    ensures var t := FeaturedSpec(s, Threw(m));
            t.books.None? && t.featuredBooks == s.featuredBooks && t.errorState == Some(ErrorText(m, FetchBooksError))
  {
  }

  /** Every action ends with the store not loading. */
  lemma ActionsEndNotLoading(s: BookState, f: BookFilters, id: string, r: Fetch)
    ensures !FeaturedSpec(s, r).loadingState && !NewBooksSpec(s, r).loadingState && !AllBooksSpec(s, f, r).loadingState
    ensures !BookSpec(s, r).loadingState && !SearchSpec(s, r).loadingState
    ensures !CreateSpec(s, r).loadingState && !UpdateSpec(s, id, r).loadingState && !DeleteSpec(s, id, r).loadingState
  {
  }

  /** A created book is put first, ahead of the list as it was. */
  lemma CreatePrepends(s: BookState, d: ListData)
    requires d.success && d.book.Some?
    ensures var t := CreateSpec(s, Answered(d));
            t.books == Some([d.book.value] + OrEmpty(s.books)) && t.books.value[0] == d.book.value
            && t.books.value[1..] == OrEmpty(s.books)
  {
  }

  /** An update replaces the entries with that id and leaves the length and every other entry alone. */
  lemma UpdateReplaces(s: BookState, id: string, d: ListData)
    requires d.success && d.book.Some?
    ensures var t := UpdateSpec(s, id, Answered(d));
            var before := OrEmpty(s.books);
            && t.books.Some? && |t.books.value| == |before|
            && (forall i :: 0 <= i < |before| && before[i].id != id ==> t.books.value[i] == before[i])
            && (forall i :: 0 <= i < |before| && before[i].id == id ==> t.books.value[i] == d.book.value)
            && t.book == d.book
  {
  }

  /** A deletion removes the entries with that id and keeps every other entry. */
  lemma DeleteRemoves(s: BookState, id: string, d: ListData)
    requires d.success && s.books.Some?
    ensures var t := DeleteSpec(s, id, Answered(d));
            && t.books.Some? && !HasId(t.books.value, id)
            && (forall b :: b in s.books.value && b.id != id ==> b in t.books.value)
            && (forall b :: b in t.books.value ==> b in s.books.value)
  {
  }
}
