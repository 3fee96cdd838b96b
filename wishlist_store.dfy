/** The persisted wishlist store: a list of books with set semantics on `_id`. */
module WishlistStore {
  import opened Common
  import opened ClientBooks

  /** `addToWishlist`'s new list: unchanged for a missing book or a known id, otherwise the book at the end. */
  function Added(list: seq<ClientBook>, book: Option<ClientBook>): (r: seq<ClientBook>)
    ensures book.None? || HasId(list, book.value.id) ==> r == list
    ensures book.Some? && !HasId(list, book.value.id) ==> r == list + [book.value]
  {
    if book.None? || HasId(list, book.value.id) then list else list + [book.value]
  }

  class Wishlist {
    var wishlist: seq<ClientBook>

    /** Every id appears at most once. */
    predicate Valid()
      reads this
    {
      DistinctIds(wishlist)
    }

    constructor ()
      ensures wishlist == [] && Valid()
    {
      wishlist := [];
    }

    /** `alreadyInWishlist`. */
    function AlreadyIn(id: string): (r: bool)
      reads this
      ensures r <==> exists i :: 0 <= i < |wishlist| && wishlist[i].id == id
    {
      HasId(wishlist, id)
    }

    method AddToWishlist(book: Option<ClientBook>)
      requires Valid()
      modifies this
      ensures Valid()
      ensures wishlist == Added(old(wishlist), book)
    {
      if book.None? {
        return;
      }
      if AlreadyIn(book.value.id) {
        return;
      }
      wishlist := wishlist + [book.value];
    }

    method RemoveFromWishlist(id: string)
      requires Valid()
      modifies this
      ensures Valid()
      ensures wishlist == RemoveById(old(wishlist), id)
    {
      RemoveByIdKeepsDistinct(wishlist, id);
      wishlist := RemoveById(wishlist, id);
    }
  }

  /** Adding a book whose id is new keeps the list distinct. */
  lemma AddedKeepsDistinct(list: seq<ClientBook>, book: Option<ClientBook>)
    requires DistinctIds(list)
    ensures DistinctIds(Added(list, book))
    ensures book.Some? ==> HasId(Added(list, book), book.value.id)
  {
    if book.Some? && !HasId(list, book.value.id) {
      var r := list + [book.value];
      forall i, j | 0 <= i < j < |r|
        ensures r[i].id != r[j].id
      {
        if j == |list| {
          assert r[i] == list[i];
        }
      }
      assert r[|list|] == book.value;
    }
  }

  /** Removing a book that was just added, under an id the list did not have, gives the list back. */
  lemma AddThenRemove(list: seq<ClientBook>, book: ClientBook)
    requires !HasId(list, book.id)
    ensures RemoveById(Added(list, Some(book)), book.id) == list
  {
    RemoveByIdAppend(list, [book], book.id);
    assert RemoveById([book], book.id) == [];
  }

  /** After a removal the id is gone and every other entry stays, in order. */
  lemma RemoveForgetsOnlyThatId(list: seq<ClientBook>, id: string, other: string)
    requires other != id
    ensures !HasId(RemoveById(list, id), id)
    ensures HasId(RemoveById(list, id), other) <==> HasId(list, other)
  {
    var r := RemoveById(list, id);
    if HasId(list, other) {
      var i :| 0 <= i < |list| && list[i].id == other;
      assert list[i] in r;
    }
    if HasId(r, other) {
      var i :| 0 <= i < |r| && r[i].id == other;
      assert r[i] in list;
    }
  }
}
