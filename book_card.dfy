/** The wishlist button of BookCard and NewBookCard, which share one rule: guests are refused, and
    for a signed-in user the click adds an absent book or removes a present one. */
module BookCard {
  import opened Common
  import opened ClientBooks
  import opened WishlistStore

  datatype Toast = ErrorToast(text: string) | SuccessToast(text: string)

  const MustAuthenticateMessage := "You must be authenticated to do this!"
  const AddedMessage := "Book added to wishlist!"
  const RemovedMessage := "Book removed from wishlist!"

  /** The list and the toast after one click. */
  function ToggleSpec(list: seq<ClientBook>, isAuthenticated: bool, book: ClientBook): (r: (seq<ClientBook>, Toast))
    ensures !isAuthenticated ==> r == (list, ErrorToast(MustAuthenticateMessage))
    ensures isAuthenticated && !HasId(list, book.id) ==> r == (list + [book], SuccessToast(AddedMessage))
    ensures isAuthenticated && HasId(list, book.id) ==> r == (RemoveById(list, book.id), SuccessToast(RemovedMessage))
  {
    if !isAuthenticated then (list, ErrorToast(MustAuthenticateMessage))
    else if !HasId(list, book.id) then (Added(list, Some(book)), SuccessToast(AddedMessage))
    else (RemoveById(list, book.id), SuccessToast(RemovedMessage))
  }

  /** `addBookToWishlist`. */
  method AddBookToWishlist(store: Wishlist, isAuthenticated: bool, book: ClientBook) returns (toast: Toast)
    requires store.Valid()
    modifies store
    ensures store.Valid()
    ensures (store.wishlist, toast) == ToggleSpec(old(store.wishlist), isAuthenticated, book)
  {
    if !isAuthenticated {
      return ErrorToast(MustAuthenticateMessage);
    }
    if !store.AlreadyIn(book.id) {
      store.AddToWishlist(Some(book));
      toast := SuccessToast(AddedMessage);
    } else {
      store.RemoveFromWishlist(book.id);
      toast := SuccessToast(RemovedMessage);
    }
  }

  /** The heart is filled for a signed-in user whose wishlist holds the book. */
  predicate HeartFilled(list: seq<ClientBook>, isAuthenticated: bool, id: string)
  {
    HasId(list, id) && isAuthenticated
  }

  /** A click by a signed-in user flips the book's membership, and so the heart. */
  lemma ToggleFlipsMembership(list: seq<ClientBook>, book: ClientBook)
    ensures HasId(ToggleSpec(list, true, book).0, book.id) <==> !HasId(list, book.id)
    ensures HeartFilled(ToggleSpec(list, true, book).0, true, book.id) <==> !HeartFilled(list, true, book.id)
  {
    if !HasId(list, book.id) {
      assert (list + [book])[|list|] == book;
    } else {
      RemoveForgetsOnlyThatId(list, book.id, book.id + "x");
    }
  }

  /** Two clicks by a signed-in user restore the book's membership; starting from a list without the
      book they restore the list itself. */
  lemma ToggleTwice(list: seq<ClientBook>, book: ClientBook)
    ensures var twice := ToggleSpec(ToggleSpec(list, true, book).0, true, book).0;
            HasId(twice, book.id) <==> HasId(list, book.id)
    ensures !HasId(list, book.id) ==> ToggleSpec(ToggleSpec(list, true, book).0, true, book).0 == list
  {
    ToggleFlipsMembership(list, book);
    ToggleFlipsMembership(ToggleSpec(list, true, book).0, book);
    if !HasId(list, book.id) {
      AddThenRemove(list, book);
    }
  }

  /** A click leaves every other book's membership as it was. */
  lemma ToggleLeavesOthers(list: seq<ClientBook>, isAuthenticated: bool, book: ClientBook, other: string)
    requires other != book.id
    ensures HasId(ToggleSpec(list, isAuthenticated, book).0, other) <==> HasId(list, other)
  {
    if isAuthenticated {
      if !HasId(list, book.id) {
        if HasId(list + [book], other) {
          var i :| 0 <= i < |list + [book]| && (list + [book])[i].id == other;
          assert i < |list| && list[i].id == other;
        }
        if HasId(list, other) {
          var i :| 0 <= i < |list| && list[i].id == other;
          assert (list + [book])[i].id == other;
        }
      } else {
        RemoveForgetsOnlyThatId(list, book.id, other);
      }
    }
  }
}
