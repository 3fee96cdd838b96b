/** The book records the client stores hold, and the list operations on them that compare by `_id`. */
module ClientBooks {
  import opened Common

  /** The genre a book is populated with. */
  datatype ClientGenre = ClientGenre(name: string, slug: string, description: string, image: string)

  datatype ClientBook = ClientBook(
    id: string,
    name: string,
    slug: string,
    description: string,
    price: real,
    imageUrl: string,
    author: string,
    genre: ClientGenre,
    pages: real,
    ISBN: string,
    language: Option<string>,
    publishDate: string)

  /** `list.some(book => book._id === id)`. */
  function HasId(list: seq<ClientBook>, id: string): (r: bool)
    ensures r <==> exists i :: 0 <= i < |list| && list[i].id == id
  {
    if list == [] then false else list[0].id == id || HasId(list[1..], id)
  }

  /** `list.filter(book => book._id !== id)`. */
  function RemoveById(list: seq<ClientBook>, id: string): (r: seq<ClientBook>)
    ensures |r| <= |list|
    ensures forall i :: 0 <= i < |r| ==> r[i].id != id && r[i] in list
    ensures forall b :: b in list && b.id != id ==> b in r
    ensures !HasId(list, id) ==> r == list
  {
    if list == [] then []
    else if list[0].id == id then RemoveById(list[1..], id)
    else [list[0]] + RemoveById(list[1..], id)
  }

  /** Filtering keeps the order of what it keeps: it distributes over concatenation. */
  lemma {:induction false} RemoveByIdAppend(a: seq<ClientBook>, b: seq<ClientBook>, id: string)
    ensures RemoveById(a + b, id) == RemoveById(a, id) + RemoveById(b, id)
  {
    if a == [] {
      assert a + b == b;
    } else {
      assert (a + b)[1..] == a[1..] + b;
      RemoveByIdAppend(a[1..], b, id);
    }
  }

  /** No two entries share an `_id`. */
  predicate DistinctIds(list: seq<ClientBook>)
  {
    forall i, j :: 0 <= i < j < |list| ==> list[i].id != list[j].id
  }

  /** Filtering a list with distinct ids leaves one with distinct ids. */
  lemma {:induction false} RemoveByIdKeepsDistinct(list: seq<ClientBook>, id: string)
    requires DistinctIds(list)
    ensures DistinctIds(RemoveById(list, id))
  {
    if list != [] {
      assert DistinctIds(list[1..]) by {
        forall i, j | 0 <= i < j < |list[1..]|
          ensures list[1..][i].id != list[1..][j].id
        {
          assert list[1..][i] == list[i + 1] && list[1..][j] == list[j + 1];
        }
      }
      RemoveByIdKeepsDistinct(list[1..], id);
      var rest := RemoveById(list[1..], id);
      if list[0].id != id {
        forall k | 0 <= k < |rest|
          ensures rest[k].id != list[0].id
        {
          assert rest[k] in list[1..];
          var m :| 0 <= m < |list[1..]| && list[1..][m] == rest[k];
          assert list[m + 1] == rest[k];
        }
        assert [list[0]] + rest == RemoveById(list, id);
      }
    }
  }

  /** `list.map(b => b._id === id ? book : b)`. */
  function ReplaceById(list: seq<ClientBook>, id: string, book: ClientBook): (r: seq<ClientBook>)
    ensures |r| == |list|
    ensures forall i :: 0 <= i < |r| ==> r[i] == (if list[i].id == id then book else list[i])
  {
    if list == [] then [] else [if list[0].id == id then book else list[0]] + ReplaceById(list[1..], id, book)
  }

  /** `[...list, ...incoming.filter(b => !ids.has(b._id))]` where `ids` are the ids of `list`. */
  function AppendUnseen(list: seq<ClientBook>, incoming: seq<ClientBook>): (r: seq<ClientBook>)
    ensures |list| <= |r| && r[..|list|] == list
    ensures forall i :: |list| <= i < |r| ==> !HasId(list, r[i].id) && r[i] in incoming
    ensures forall b :: b in incoming && !HasId(list, b.id) ==> b in r
  {
    list + Unseen(list, incoming)
  }

  /** The incoming books whose ids the list does not have, in their order. */
  function Unseen(list: seq<ClientBook>, incoming: seq<ClientBook>): (r: seq<ClientBook>)
    ensures forall i :: 0 <= i < |r| ==> !HasId(list, r[i].id) && r[i] in incoming
    ensures forall b :: b in incoming && !HasId(list, b.id) ==> b in r
  {
    if incoming == [] then []
    else (if HasId(list, incoming[0].id) then [] else [incoming[0]]) + Unseen(list, incoming[1..])
  }

  /** When both lists have distinct ids, so does the merge: no book is shown twice. */
  lemma AppendUnseenKeepsDistinct(list: seq<ClientBook>, incoming: seq<ClientBook>)
    requires DistinctIds(list) && DistinctIds(incoming)
    ensures DistinctIds(AppendUnseen(list, incoming))
  {
    var r := AppendUnseen(list, incoming);
    UnseenKeepsDistinct(list, incoming);
    forall i, j | 0 <= i < j < |r|
      ensures r[i].id != r[j].id
    {
      if j >= |list| && i < |list| {
        assert !HasId(list, r[j].id);
        assert r[i] == list[i];
      } else if i >= |list| {
        assert r[i] == Unseen(list, incoming)[i - |list|] && r[j] == Unseen(list, incoming)[j - |list|];
      }
    }
  }

  lemma {:induction false} UnseenKeepsDistinct(list: seq<ClientBook>, incoming: seq<ClientBook>)
    requires DistinctIds(incoming)
    ensures DistinctIds(Unseen(list, incoming))
  {
    if incoming != [] {
      assert DistinctIds(incoming[1..]) by {
        forall i, j | 0 <= i < j < |incoming[1..]|
          ensures incoming[1..][i].id != incoming[1..][j].id
        {
          assert incoming[1..][i] == incoming[i + 1] && incoming[1..][j] == incoming[j + 1];
        }
      }
      UnseenKeepsDistinct(list, incoming[1..]);
      var rest := Unseen(list, incoming[1..]);
      forall k | 0 <= k < |rest|
        ensures rest[k].id != incoming[0].id
      {
        var m :| 0 <= m < |incoming[1..]| && incoming[1..][m] == rest[k];
        assert incoming[m + 1] == rest[k];
      }
    }
  }
}
