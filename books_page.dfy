/** The Books page: the genre and sort filters, the page counter, and the reset that follows every
    filter change. */
module BooksPage {
  import opened Common
  import opened ClientBooks
  import BookStore

  /** The selected genre ids, in the order they were ticked, and the chosen sort. */
  datatype Filters = Filters(genre: seq<string>, sort: Option<string>)

  datatype FilterId = GenreFilter | SortFilter

  /** The number of books each page requests. */
  const PageSize := 6

  /** `genres.filter(g => g !== id)`. */
  function Without(genres: seq<string>, id: string): (r: seq<string>)
    ensures id !in r
    ensures forall g :: g in r <==> g in genres && g != id
    ensures |r| <= |genres|
  {
    if genres == [] then []
    else (if genres[0] == id then [] else [genres[0]]) + Without(genres[1..], id)
  }

  /** The genre click: a selected id is removed wherever it occurs, an unselected one is appended. */
  function ToggleGenre(genres: seq<string>, id: string): (r: seq<string>)
    ensures id in genres ==> id !in r && forall g :: g in r <==> g in genres && g != id
    ensures id !in genres ==> r == genres + [id]
  {
    if id in genres then Without(genres, id) else genres + [id]
  }

  /** The updater passed to `setSelectedFilters`. */
  function ChangeFilters(prev: Filters, filterId: FilterId, optionId: string): Filters
  {
    match filterId
    case GenreFilter => prev.(genre := ToggleGenre(prev.genre, optionId))
    case SortFilter => prev.(sort := Some(optionId))
  }

  /** The filters each fetch sends: the current page, six books, the selected genres and the sort. */
  function FetchFilters(page: int, f: Filters): (r: BookStore.BookFilters)
    ensures r.page == Some(page) && r.limit == Some(PageSize) && r.genre == Some(f.genre)
    ensures r.sort == (if f.sort.Some? then f.sort.value else "")
  {
    BookStore.BookFilters(Some(page), Some(PageSize), Some(f.genre), if f.sort.Some? then f.sort.value else "")
  }

  lemma {:induction false} WithoutAbsent(genres: seq<string>, id: string)
    requires id !in genres
    ensures Without(genres, id) == genres
  {
    if genres != [] {
      WithoutAbsent(genres[1..], id);
      assert [genres[0]] + genres[1..] == genres;
    }
  }

  lemma {:induction false} WithoutAppend(genres: seq<string>, id: string)
    ensures Without(genres + [id], id) == Without(genres, id)
  {
    if genres == [] {
      assert Without([id], id) == [] + Without([], id) by { assert [id][1..] == []; }
    } else {
      assert (genres + [id])[1..] == genres[1..] + [id];
      WithoutAppend(genres[1..], id);
    }
  }

  /** Ticking an unselected genre and unticking it again restores the selection exactly. */
  lemma ToggleAbsentTwice(genres: seq<string>, id: string)
    requires id !in genres
    ensures ToggleGenre(ToggleGenre(genres, id), id) == genres
  {
    WithoutAppend(genres, id);
    WithoutAbsent(genres, id);
  }

  /** Unticking a selected genre and ticking it again moves it, once, to the end of the selection. */
  lemma TogglePresentTwice(genres: seq<string>, id: string)
    requires id in genres
    ensures ToggleGenre(ToggleGenre(genres, id), id) == Without(genres, id) + [id]
  {
  }

  /** Choosing a sort changes only the sort; the genre click changes only the genres. */
  lemma ChangeFiltersTouchesOneField(prev: Filters, optionId: string)
    ensures ChangeFilters(prev, SortFilter, optionId) == Filters(prev.genre, Some(optionId))
    ensures ChangeFilters(prev, GenreFilter, optionId).sort == prev.sort
  {
  }

  class Page {
    var page: int
    var selectedFilters: Filters
    var isLoading: bool

    constructor ()
      ensures page == 1 && selectedFilters == Filters([], None) && !isLoading
    {
      page, selectedFilters, isLoading := 1, Filters([], None), false;
    }

    /** A filter click, followed by the reset effect it triggers: back to page 1, loading, and an
        empty book list in the store. */
    method OnFilterChange(filterId: FilterId, optionId: string, store: BookStore.Store)
      modifies this, store
      ensures selectedFilters == ChangeFilters(old(selectedFilters), filterId, optionId)
      ensures page == 1 && isLoading
      ensures store.State() == old(store.State()).(books := Some([]))
    {
      page := 1;
      selectedFilters := ChangeFilters(selectedFilters, filterId, optionId);
      page := 1;
      isLoading := true;
      store.books := Some([]);
    }

    method LoadMoreBooks()
      modifies this
      ensures page == old(page) + 1 && isLoading && selectedFilters == old(selectedFilters)
    {
      isLoading := true;
      page := page + 1;
    }

    /** The fetch effect: the store loads the current page with the current filters. */
    method LoadPage(store: BookStore.Store, r: BookStore.Fetch) returns (query: seq<(string, string)>)
      modifies this, store
      ensures query == BookStore.QueryParams(FetchFilters(page, selectedFilters))
      ensures store.State() == BookStore.AllBooksSpec(old(store.State()), FetchFilters(page, selectedFilters), r)
      ensures page == old(page) && selectedFilters == old(selectedFilters) && !isLoading
    {
      isLoading := true;
      query := store.GetAllBooks(FetchFilters(page, selectedFilters), r);
      isLoading := false;
    }
  }

  /** After a filter change the next fetch asks for page 1 and shows only the reply's books. */
  lemma FilterChangeRestartsListing(s: BookStore.BookState, f: Filters, d: BookStore.ListData)
    requires d.success
    ensures var t := BookStore.AllBooksSpec(s.(books := Some([])), FetchFilters(1, f), BookStore.Answered(d));
            t.page == 1 && t.books == Some(BookStore.OrEmpty(d.books))
  {
    UnseenOfNothing(BookStore.OrEmpty(d.books));
  }

  lemma {:induction false} UnseenOfNothing(incoming: seq<ClientBook>)
    ensures Unseen([], incoming) == incoming
  {
    if incoming != [] {
      assert !HasId([], incoming[0].id);
      UnseenOfNothing(incoming[1..]);
      assert [incoming[0]] + incoming[1..] == incoming;
    }
  }
}
