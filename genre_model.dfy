/** The Genre schema: `name` required, unique and trimmed; `slug` required and unique;
    `subjectSlug` required; `description` optional; timestamps. The `image` the interface declares
    has no schema path, so a genre document never stores one. */
module GenreModel {
  import opened Common

  type GenreId = nat

  datatype Genre = Genre(name: string, slug: string, subjectSlug: Option<string>, description: Option<string>,
                         createdAt: nat, updatedAt: nat)

  /** A required string path fails validation when it is absent or empty. */
  predicate Present(s: Option<string>)
  {
    s.Some? && s.value != ""
  }

  /** The document `new Genre({...})` builds: the `trim` setter applies to `name`. */
  function NewGenre(name: string, slug: string, subjectSlug: Option<string>, description: Option<string>, nowMs: nat): (g: Genre)
    ensures g.name == Trim(name) && g.slug == slug && g.subjectSlug == subjectSlug && g.description == description
  {
    Genre(Trim(name), slug, subjectSlug, description, nowMs, nowMs)
  }

  /** The paths whose `required` validator fails, in schema order. */
  function RequiredFailures(g: Genre): (paths: seq<string>)
    ensures paths == [] <==> g.name != "" && g.slug != "" && Present(g.subjectSlug)
    ensures "subjectSlug" in paths <==> !Present(g.subjectSlug)
  {
    (if g.name == "" then ["name"] else [])
    + (if g.slug == "" then ["slug"] else [])
    + (if !Present(g.subjectSlug) then ["subjectSlug"] else [])
  }

  /** The unique indexes on `name` and `slug`. */
  ghost predicate UniqueGenres(genres: map<GenreId, Genre>)
  {
    forall a, b :: a in genres && b in genres && a != b ==> genres[a].name != genres[b].name && genres[a].slug != genres[b].slug
  }

  /** A stored genre passed validation. */
  predicate Stored(g: Genre)
  {
    RequiredFailures(g) == [] && g.name == Trim(g.name)
  }
}
