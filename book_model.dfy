/** The Book schema: every path but `language` is required, `name` and `description` are trimmed,
    `genre` refers to a Genre document, and documents carry createdAt/updatedAt. `slug` has no
    unique index. */
module BookModel {
  import opened Common
  import opened GenreModel

  type BookId = nat

  datatype Book = Book(
    name: string,
    slug: string,
    description: string,
    price: real,
    imageUrl: string,
    author: string,
    genre: GenreId,
    pages: real,
    ISBN: string,
    language: Option<string>,
    publishDate: string,
    createdAt: nat,
    updatedAt: nat)

  /** The paths whose `required` validator fails, in schema order. The numeric, reference and date paths
      are always set by the code that builds a book, so only string paths can be empty. */
  function RequiredFailures(b: Book): (paths: seq<string>)
    ensures paths == [] <==> b.name != "" && b.slug != "" && b.description != "" && b.imageUrl != ""
                             && b.author != "" && b.ISBN != "" && b.publishDate != ""
  {
    (if b.name == "" then ["name"] else [])
    + (if b.slug == "" then ["slug"] else [])
    + (if b.description == "" then ["description"] else [])
    + (if b.imageUrl == "" then ["imageUrl"] else [])
    + (if b.author == "" then ["author"] else [])
    + (if b.ISBN == "" then ["ISBN"] else [])
    + (if b.publishDate == "" then ["publishDate"] else [])
  }

  /** A stored book passed validation and went through the trimming setters. */
  predicate Stored(b: Book)
  {
    RequiredFailures(b) == [] && b.name == Trim(b.name) && b.description == Trim(b.description)
  }

  /** Mongoose's message for a failed validation: `<Model> validation failed: <path>: Path `<path>` is required.`
      for each failing path, joined by ", ". */
  function ValidationMessage(model: string, paths: seq<string>): string
  {
    model + " validation failed: " + RequiredList(paths)
  }

  /** The message of the error Mongoose raises when the text `value` does not cast to a Date at `path`. */
  function DateCastMessage(path: string, value: string): string
  {
    "Cast to date failed for value \"" + value + "\" (type string) at path \"" + path + "\""
  }

  /** The publish date is set but `isDate`, Mongoose's Date cast, refuses it (an empty text casts to null). */
  predicate BadDate(b: Book, isDate: string -> bool)
  {
    b.publishDate != "" && !isDate(b.publishDate)
  }

  /** The message `save()` fails with: the cast error recorded when the document was built comes first,
      then the required paths that are empty. */
  function SaveErrorMessage(b: Book, isDate: string -> bool): string
  {
    if BadDate(b, isDate) then
      "Book validation failed: publishDate: " + DateCastMessage("publishDate", b.publishDate)
      + (if RequiredFailures(b) != [] then ", " + RequiredList(RequiredFailures(b)) else "")
    else ValidationMessage("Book", RequiredFailures(b))
  }

  function RequiredList(paths: seq<string>): string
  {
    if paths == [] then ""
    else
      paths[0] + ": Path `" + paths[0] + "` is required." + (if |paths| > 1 then ", " + RequiredList(paths[1..]) else "")
  }
}
