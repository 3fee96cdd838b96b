/** The two search inputs (the desktop bar and the mobile panel) and how the search page reads their
    query back. */
module SearchBox {
  import opened Common
  import opened Encoding

  const SearchPath := "/books/search?q="

  /** Where a search for `userQuery` navigates: nowhere for a blank query, otherwise the search page
      with the trimmed query encoded as `q`. */
  function SearchUrl(userQuery: string): (r: Option<string>)
    ensures r.None? <==> AllSpace(userQuery)
    ensures r.Some? ==> r.value == SearchPath + EncodeURIComponent(Trim(userQuery))
  {
    TrimEmptyIffBlank(userQuery);
    var q := Trim(userQuery);
    if q == "" then None else Some(SearchPath + EncodeURIComponent(q))
  }

  /** The part of `s` before the first `c`. */
  function UpTo(s: string, c: char): (r: string)
    ensures |r| <= |s| && r == s[..|r|]
    ensures (forall i :: 0 <= i < |s| ==> s[i] != c) ==> r == s
  {
    if s == [] || s[0] == c then [] else [s[0]] + UpTo(s[1..], c)
  }

  /** The search page's `params.get("q") || ""`, for a URL whose query starts with `q`. */
  function QueryOnPage(url: string): string
  {
    if StartsWith(url, SearchPath) then DecodeQueryValue(UpTo(url[|SearchPath|..], '&')) else ""
  }

  /** The search page reads back exactly the trimmed query, which is never blank, so it searches. */
  lemma SearchRoundTrip(userQuery: string)
    requires SearchUrl(userQuery).Some?
    ensures QueryOnPage(SearchUrl(userQuery).value) == Trim(userQuery)
    ensures QueryOnPage(SearchUrl(userQuery).value) != ""
  {
    var e := EncodeURIComponent(Trim(userQuery));
    var url := SearchPath + e;
    StartsWithAppend(SearchPath, e);
    assert url[|SearchPath|..] == e;
    QueryValueRoundTrip(Trim(userQuery));
  }

  /** The desktop search bar. */
  class Searchbar {
    var userQuery: string

    constructor ()
      ensures userQuery == ""
    {
      userQuery := "";
    }

    method OnChange(value: string)
      modifies this
      ensures userQuery == value
    {
      userQuery := value;
    }

    /** A blank query does nothing; otherwise the bar navigates and empties. */
    method HandleSearch() returns (navigateTo: Option<string>)
      modifies this
      ensures navigateTo == SearchUrl(old(userQuery))
      ensures userQuery == if navigateTo.Some? then "" else old(userQuery)
    {
      navigateTo := SearchUrl(userQuery);
      if navigateTo.None? {
        return;
      }
      userQuery := "";
    }

    /** Only Enter searches. */
    method OnKeyDown(key: string) returns (navigateTo: Option<string>)
      modifies this
      ensures key != "Enter" ==> navigateTo.None? && userQuery == old(userQuery)
      ensures key == "Enter" ==> navigateTo == SearchUrl(old(userQuery))
      ensures key == "Enter" ==> userQuery == if navigateTo.Some? then "" else old(userQuery)
    {
      navigateTo := None;
      if key == "Enter" {
        navigateTo := HandleSearch();
      }
    }
  }

  /** The mobile search panel: the same search, which also closes the panel, a clear button, and
      closing on scroll. */
  class MobileSearch {
    var userQuery: string
    var isSearchOpen: bool

    constructor (isSearchOpen: bool)
      ensures userQuery == "" && this.isSearchOpen == isSearchOpen
    {
      userQuery := "";
      this.isSearchOpen := isSearchOpen;
    }

    method HandleSearch() returns (navigateTo: Option<string>)
      modifies this
      ensures navigateTo == SearchUrl(old(userQuery))
      ensures navigateTo.Some? ==> userQuery == "" && !isSearchOpen
      ensures navigateTo.None? ==> userQuery == old(userQuery) && isSearchOpen == old(isSearchOpen)
    {
      navigateTo := SearchUrl(userQuery);
      if navigateTo.None? {
        return;
      }
      userQuery := "";
      isSearchOpen := false;
    }

    /** The "Canc" button. */
    method Clear()
      modifies this
      ensures userQuery == "" && isSearchOpen == old(isSearchOpen)
    {
      userQuery := "";
    }

    method OnScroll(scrollY: int)
      modifies this
      ensures isSearchOpen == (old(isSearchOpen) && scrollY <= 50)
      ensures userQuery == old(userQuery)
    {
      if scrollY > 50 && isSearchOpen {
        isSearchOpen := false;
      }
    }
  }
}
