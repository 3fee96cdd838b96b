# Readly bookstore: a Dafny model of its account, catalog and client-state core

Readly is a bookstore web application. Its Express server keeps user accounts, genres and books
in MongoDB, and its React client keeps the session, the book lists and a wishlist in zustand
stores. This project models the core of both sides and proves what that core promises.

The server side covers:

- the account handlers (signup, email verification, forgotten and reset password, login, logout,
  session check, user and admin listings) over an in-memory user collection;
- the session gate `verifyToken`, the admin gate `verifyUserRole` and the cookie issuer
  `generateTokenAndSetCookie`, with JSON Web Tokens (RFC 7519) reduced to sign/verify over a key
  and an expiry;
- the three routers as tables, with the dispatch that runs a route's middleware chain before its
  handler;
- the book and genre handlers over a catalog of genres and books, with the two schemas' required,
  trimmed and unique paths.

The client side covers:

- the book store: query building, the listing merge, and the create/update/delete list updates;
- the session store, the three route wrappers, and the application shell's hidden-chrome rule;
- the wishlist store and the wishlist button the two book cards share;
- the Books page filters and paging;
- the email-verification code entry;
- the password rules and the sign-up gate;
- the two search boxes and the search page's read-back of the query.

Handlers that fetch and then overwrite fields become methods of classes over mutable state. Each
method is proved equal to a specification function of the old state, and the promises are proved
as lemmas about those functions. Requests to the server, email dispatch, random draws and the
clock are parameters of the operations that use them.

The model follows the code where the code does something its authors may not have meant:

- A token that fails verification (bad signature, expired, malformed) is answered with 500 and
  the library's message, not with 401.
- The user and admin listings sit behind `verifyToken` only, with no role check. They strip only
  the password, so any signed-in user sees every pending verification code and reset token.
- `createGenre` builds a genre without the required `subjectSlug`. Its `save()` therefore always
  fails, and no request ever creates a genre.
- An email failure after `save()` answers 500, yet the new user stays stored.
- On the client, a successful logout clears `user` but leaves `isAuthenticated` set, so the
  wishlist page still renders afterwards.
- A failed `getFeaturedBooks` blanks `books`, and a failed `getAllBooks` or `getBook` blanks
  `newBooks`.
- The verification page's input guard lets only one digit or an empty value through, so its
  paste branch is unreachable from the page.
- An update whose `genre` is the empty string skips the genre lookup. It reaches the database
  with `genre: ""`, which fails to cast and answers 500.

## Model

| member | source | states |
|---|---|---|
| Common.TrimStart | backend/src/models/book.model.ts:19-23 | What leading trimming drops is whitespace, and what it keeps starts with a non-space character |
| Common.TrimEnd | backend/src/models/book.model.ts:28-32 | What trailing trimming drops is whitespace, and what it keeps ends with a non-space character |
| Common.TrimEmptyIffBlank | frontend/src/components/Searchbar.tsx:11 | A query trims to the empty string exactly when it is made of whitespace only |
| Common.TrimIdempotent | backend/src/models/book.model.ts:19-33 | Trimming a trimmed name or description changes nothing |
| Encoding.NatToDecimal | backend/src/controllers/auth.controller.ts:52-54 | `toString()` of a non-negative integer is a non-empty run of digits without a leading zero |
| Encoding.DecimalRoundTrip | backend/src/controllers/auth.controller.ts:52-54 | Reading back a printed number gives the number |
| Encoding.DecimalInjective | backend/src/controllers/auth.controller.ts:52-54 | Two numbers print the same only when they are equal |
| Encoding.DecimalLength | backend/src/controllers/auth.controller.ts:52-54 | A number with k digits prints as exactly k characters |
| Encoding.ParseDecimalRoundTrip | backend/src/controllers/book.controller.ts:237 | The text form of every id parses back to that id |
| Encoding.ParseDecimal | backend/src/controllers/book.controller.ts:237 | An id string is accepted only when it is the canonical text of the number it yields |
| Encoding.HexEncode | backend/src/controllers/auth.controller.ts:172 | Hex encoding writes two lower-case hexadecimal digits per byte |
| Encoding.HexRoundTrip | backend/src/controllers/auth.controller.ts:172 | Decoding the hexadecimal text of the random bytes gives back the bytes |
| Encoding.EncodeURIComponent | frontend/src/components/Searchbar.tsx:12 | The encoded query contains no `+`, `&` or space, so it stays one query value |
| Encoding.QueryValueRoundTrip | frontend/src/pages/Search.tsx:12 | The query parser reads back exactly what `encodeURIComponent` wrote |
| Jwt.SignThenVerify | backend/src/middleware/verifyToken.ts:29-32 | A token verifies under its own key to its payload until its expiry, and is "jwt expired" from then on |
| Jwt.ForeignKeyRejected | backend/src/middleware/verifyToken.ts:29-32 | A token signed with one key fails with "invalid signature" under any other key, at any time |
| TokenCookie.GenerateTokenAndSetCookie | backend/src/utils/generateTokenAndSetCookie.ts:10-26 | It throws iff JWT_SECRET or NODE_ENV is unset. Otherwise the claims are exactly {userId, userRole}, the cookie is named `token` and holds the returned token, and max-age equals the token's lifetime. It is httpOnly always, secure iff production, and sameSite strict iff production |
| TokenCookie.IssuedCookieDecodes | backend/src/utils/generateTokenAndSetCookie.ts:15-24 | The cookie handed out decodes under the same secret to the issued claims for seven days |
| TokenCookie.CookieOutlivesToken | backend/src/utils/generateTokenAndSetCookie.ts:15-23 | The cookie's max-age of 604,800,000 ms ends with the token: at the cookie's last moment the token has expired |
| VerifyToken.Check | backend/src/middleware/verifyToken.ts:13-48 | The gate passes iff a token cookie is present, the secret is set and the token decodes to claims, and it passes exactly those claims. No cookie gives 401 "No token was provided"; an unset secret gives 500; a verification error gives 500 with the error's message; a falsy payload gives 401 "Invalid token" |
| VerifyToken.Request.constructor | backend/src/middleware/verifyToken.ts:13 | A request starts with its cookies and with no claims attached |
| VerifyToken.VerifyToken | backend/src/middleware/verifyToken.ts:15-48 | `next()` is called iff the gate passes. Then userId and userRole are written from the claims; otherwise the request is untouched and the gate's status and message are answered |
| VerifyUserRole.VerifyUserRole | backend/src/middleware/verifyUserRole.ts:16-25 | `next()` iff the role is "admin"; no role gives 401 "Unauthorized: No user found"; any other role gives 403 "Forbidden: Admins only" |
| Routes.Bind | backend/src/routes/book.route.ts:15-19 | A pattern matches only a path of its own length, and binds every one of its parameters |
| Routes.FirstMatch | backend/src/routes/auth.route.ts:17-27 | The route found is registered, has the request's verb, and matches the path with the bindings returned |
| Routes.FirstMatchAt | backend/src/routes/auth.route.ts:17-27 | A route is the first match exactly when it matches and no earlier route with that verb does |
| Routes.MutatingRoutesAreGuarded | backend/src/routes/book.route.ts:17-19 | Every route to createBook, updateBook, deleteBook or createGenre runs verifyToken and then verifyUserRole |
| Routes.AdminChainAdmitsOnlyAdmins | backend/src/routes/book.route.ts:17-19 | The two-gate chain gets through only with a cookie whose verified claims carry the admin role, and hands those claims on |
| Routes.OnlyAdminsMutateCatalog | backend/src/routes/genre.route.ts:16 | A request that reaches a catalog-mutating handler carried a token cookie that verifies to the admin role |
| Routes.NoCookieNoMutation | backend/src/routes/book.route.ts:17-19 | A request without a token cookie never reaches a catalog-mutating handler |
| Routes.TokenChain | backend/src/routes/auth.route.ts:17 | Running verifyToken alone reaches the handler with the gate's claims, or stops with the gate's answer |
| Routes.SessionRoutesNeedOnlyAToken | backend/src/routes/auth.route.ts:17-19 | check-auth, users and admins reach their handler with the verified claims for any role, so the listings have no role check |
| Routes.SessionRoutesBlockedWithoutSession | backend/src/routes/auth.route.ts:17-19 | Without a passing session the check-auth and listing routes answer with the gate's status and message |
| Routes.AuthRouteGuards | backend/src/routes/auth.route.ts:17-27 | In /api/auth only check-auth, users and admins run a middleware, and it is verifyToken alone |
| Routes.UnguardedRouteReachesHandler | backend/src/routes/auth.route.ts:21-27 | A matched route without middleware reaches its handler with nothing attached to the request |
| Routes.ResetTokenFromPath | backend/src/routes/auth.route.ts:27 | POST reset-password/<token> reaches resetPassword unguarded, with the token bound from the path |
| Routes.CatalogReadsUnguarded | backend/src/routes/genre.route.ts:13-14 | GET / and GET /:slug reach the listing and the single lookup with no gate, for books and for genres |
| AuthController.FindOne | backend/src/controllers/auth.controller.ts:108-111 | The lookup returns the first matching user in insertion order, and None only when no user matches |
| AuthController.Listed | backend/src/controllers/auth.controller.ts:339 | The listing holds stored users, stripped of the password, in insertion order, and admins only when asked |
| AuthController.CodeValue | backend/src/controllers/auth.controller.ts:52-54 | The verification number lies in [100000, 999999] |
| AuthController.VerificationCode | backend/src/controllers/auth.controller.ts:52-54 | The verification code is six decimal digits without a leading zero, denoting a number in [100000, 999999] |
| AuthController.ResetToken | backend/src/controllers/auth.controller.ts:172 | The reset token is 40 lower-case hexadecimal digits that decode back to the 20 random bytes |
| AuthController.Logout | backend/src/controllers/auth.controller.ts:307-310 | Logout always answers 200 and clears the `token` cookie |
| AuthController.InsertKeepsValid | backend/src/controllers/auth.controller.ts:57-66 | Storing a valid user under the next id, when no stored user has its email, keeps the collection valid |
| AuthController.ReplaceKeepsValid | backend/src/controllers/auth.controller.ts:121-125 | Replacing a stored user by a valid one with the same email keeps the collection valid |
| AuthController.SignupKeepsValid | backend/src/controllers/auth.controller.ts:24-89 | Whatever the request, signup keeps the emails unique, the ids below the next id and each token paired with its expiry |
| AuthController.VerifyEmailKeepsValid | backend/src/controllers/auth.controller.ts:92-144 | Whatever the request, verifyEmail keeps the collection valid |
| AuthController.ForgotPasswordKeepsValid | backend/src/controllers/auth.controller.ts:147-197 | Whatever the request, forgotPassword keeps the collection valid |
| AuthController.ResetPasswordKeepsValid | backend/src/controllers/auth.controller.ts:200-251 | Whatever the request, resetPassword keeps the collection valid |
| AuthController.LoginKeepsValid | backend/src/controllers/auth.controller.ts:254-304 | Whatever the request, login keeps the collection valid |
| AuthController.UserStore.constructor | backend/src/controllers/auth.controller.ts:40 | The collection starts empty |
| AuthController.UserStore.Insert | backend/src/controllers/auth.controller.ts:57-66 | A saved document goes under the next id, nothing else changes, and a valid user with a new email keeps the collection valid |
| AuthController.UserStore.Signup | backend/src/controllers/auth.controller.ts:24-89 | The new collection and the reply are those of the signup specification, and the collection stays valid |
| AuthController.UserStore.VerifyEmail | backend/src/controllers/auth.controller.ts:92-144 | The field-by-field update of the matched user gives the collection and reply of the verification specification, and the collection stays valid |
| AuthController.UserStore.ForgotPassword | backend/src/controllers/auth.controller.ts:147-197 | Setting the token and expiry in place gives the forgot-password specification, and the collection stays valid |
| AuthController.UserStore.ResetPassword | backend/src/controllers/auth.controller.ts:200-251 | Replacing the hash and clearing the token in place gives the reset specification, and the collection stays valid |
| AuthController.UserStore.Login | backend/src/controllers/auth.controller.ts:254-304 | Issuing the cookie and setting lastLogin in place gives the login specification, and the collection stays valid |
| AuthController.UserStore.CheckAuth | backend/src/controllers/auth.controller.ts:313-334 | The reply is that of the session-check specification, and the collection is untouched |
| AuthController.UserStore.TotalUsers | backend/src/controllers/auth.controller.ts:337-359 | The reply is the listing of every user |
| AuthController.UserStore.TotalAdmins | backend/src/controllers/auth.controller.ts:362-384 | The reply is the listing of the admins |
| AuthProperties.SignupRejects | backend/src/controllers/auth.controller.ts:32-46 | A missing field gives 400 "Please provide all the required fields!"; a stored email gives 400 "User already exists!"; either way the collection is unchanged |
| AuthProperties.SignupStoresOneUser | backend/src/controllers/auth.controller.ts:49-82 | A successful signup stores exactly one user at the next id. It has the email and name, the hash of the password and not the password, a six-digit code expiring a day later, and is unverified. The reply is 201 iff the JWT variables are set and the email goes out, else 500. A 201 carries that user without the password, and whenever the variables are set a session cookie for the new id with role "user" is set |
| AuthProperties.SignupMailFailureCommits | backend/src/controllers/auth.controller.ts:66-86 | When the verification email fails, the reply is 500 with the sender's message, yet the user is stored exactly as on success |
| AuthProperties.VerifyEmailRejects | backend/src/controllers/auth.controller.ts:99-118 | An empty code gives 400 before any lookup. A wrong or expired code gives the one 400 message. Nothing changes |
| AuthProperties.VerificationExpiryIsStrict | backend/src/controllers/auth.controller.ts:110 | A code whose expiry equals the current time no longer matches |
| AuthProperties.VerifyEmailSucceeds | backend/src/controllers/auth.controller.ts:120-137 | A matching code marks the first holder verified and clears both verification fields. Every other user is unchanged, and the reply carries the user without the password |
| AuthProperties.VerificationCodeSingleUse | backend/src/controllers/auth.controller.ts:120-125 | Replaying a used code at any later time cannot touch the user it verified |
| AuthProperties.ForgotPasswordRejects | backend/src/controllers/auth.controller.ts:154-169 | An empty email gives 400 and an unknown email gives 404 "User not found."; nothing changes |
| AuthProperties.ForgotPasswordIssuesToken | backend/src/controllers/auth.controller.ts:172-190 | For a known email, the user's reset token becomes the 40 hex digits of the random bytes, expiring an hour later. No other user and no other field changes, and the reply does not carry the token |
| AuthProperties.ResetPasswordRejects | backend/src/controllers/auth.controller.ts:208-226 | An empty password gives 400 before any lookup; a token that no user holds unexpired gives 400 "Invalid or expired reset password token."; nothing changes |
| AuthProperties.ResetPasswordSucceeds | backend/src/controllers/auth.controller.ts:228-244 | A matching token replaces that user's hash with the hash of the new password and clears both reset fields. Every other user is unchanged, and the reply is 200 iff no confirmation-email error occurs |
| AuthProperties.ResetTokenSingleUse | backend/src/controllers/auth.controller.ts:233-236 | After a reset, the user no longer matches that token at any time |
| AuthProperties.ForgotThenReset | backend/src/controllers/auth.controller.ts:172-236 | A reset within the hour with the token forgot-password issued succeeds, and the new password then matches the stored hash |
| AuthProperties.LoginFailuresIndistinguishable | backend/src/controllers/auth.controller.ts:269-283 | An unknown email and a wrong password get the identical 400 "Invalid credentials." reply, and nothing is stored |
| AuthProperties.LoginRequiresBothFields | backend/src/controllers/auth.controller.ts:261-266 | A missing email or password gives 400 before any lookup, and nothing is stored |
| AuthProperties.LoginSucceeds | backend/src/controllers/auth.controller.ts:277-297 | With the right password only lastLogin of that user changes, to now. The reply carries the user without the password and a cookie for the user's id and role |
| AuthProperties.CheckAuthResolvesIssuedId | backend/src/controllers/auth.controller.ts:315-327 | checkAuth on the text form of a stored id returns that user without the password; on an id no user has it returns 404 |
| AuthProperties.LoginThenCheckAuth | backend/src/controllers/auth.controller.ts:285 | The cookie a login issues, presented within seven days, passes verifyToken with the claims of the user who logged in, and checkAuth then returns that user |
| AuthProperties.ListedComplete | backend/src/controllers/auth.controller.ts:339 | The listing misses no stored user, and no admin when only admins are listed |
| AuthProperties.ListingsExact | backend/src/controllers/auth.controller.ts:348-377 | Each listing's count equals its length. totalAdmins lists exactly the users with role "admin", without passwords |
| AuthProperties.ListingShowsResetTokens | backend/src/controllers/auth.controller.ts:339-351 | Only the password is removed: the listing shows every user's pending reset token and verification code |
| GenreModel.NewGenre | backend/src/models/genre.model.ts:14-19 | A new genre document has the trimmed name and the given slug, subject slug and description |
| GenreModel.RequiredFailures | backend/src/models/genre.model.ts:14-28 | Validation passes iff name, slug and subjectSlug are all non-empty, and subjectSlug is reported iff it is missing |
| BookModel.RequiredFailures | backend/src/models/book.model.ts:17-66 | Validation passes iff every required string path is non-empty; language is not among them |
| Catalog.FindGenre | backend/src/controllers/book.controller.ts:178 | The genre lookup by name or slug returns the first match in insertion order, and None only when no genre matches |
| Catalog.FindBookBySlug | backend/src/controllers/book.controller.ts:169 | The book lookup by slug returns the first match, and None only when no book has that slug |
| Catalog.AllGenres | backend/src/controllers/genre.controller.ts:8 | The list holds stored genres only, in increasing id order |
| Catalog.BooksOfGenre | backend/src/controllers/genre.controller.ts:31-34 | The list holds only stored books referring to the genre, in increasing id order |
| Catalog.SaveGenreSpec | backend/src/models/genre.model.ts:14-28 | A save refused by a required path changes nothing; a save that succeeds stores the genre under the next id |
| Catalog.SaveBookSpec | backend/src/models/book.model.ts:17-66 | A save fails iff a required path is empty or the publish date does not cast to a Date. The failure carries Mongoose's validation message, the cast error first, and changes nothing; otherwise the book goes under the next id |
| Catalog.Db.constructor | backend/src/models/book.model.ts:70 | Both collections start empty |
| Catalog.Db.SaveGenre | backend/src/controllers/genre.controller.ts:68 | The in-place save gives the genre-save specification |
| Catalog.Db.SaveBook | backend/src/controllers/book.controller.ts:213 | The in-place save gives the book-save specification |
| BookController.BuildFilter | backend/src/controllers/book.controller.ts:40-58 | The built query selects exactly the requested books. An array genre becomes a membership test, a non-empty single genre an equality, and a non-empty search a case-insensitive match on name, author or description |
| BookController.SortFor | backend/src/controllers/book.controller.ts:68-77 | Exactly the four known values sort. newest/oldest sort on createdAt, descending/ascending; price-asc/price-desc sort on price, ascending/descending |
| BookController.OrDefault | backend/src/controllers/book.controller.ts:63-64 | A missing or zero page or limit falls back to the default; any other value is kept |
| BookController.TotalPagesIsCeiling | backend/src/controllers/book.controller.ts:86-87 | For a positive limit the page count is the least count whose pages hold every book, and is 0 exactly for no books |
| BookController.PageOfBook | backend/src/controllers/book.controller.ts:65-87 | Book i sits on page i / limit + 1, inside that page's skip window, and that page is within the page count |
| BookController.DefaultPagination | backend/src/controllers/book.controller.ts:63-65 | Without parameters the first page skips nothing and the limit is 10 |
| BookController.CountSelected | backend/src/controllers/book.controller.ts:86 | The count is the number of stored books, among the ids scanned, that the filter selects |
| BookController.GetAllBooksSpec | backend/src/controllers/book.controller.ts:36-102 | 200 iff the skip is not negative and the search, if any, is a valid pattern; otherwise 400 with the server's message and no body. On 200 the page and limit are the requested ones or 1 and 10, the total is the number of stored books the filter selects, and for a positive limit the page count is the least that holds every selected book |
| BookController.NegativeLimitRefused | backend/src/controllers/book.controller.ts:63-65 | Page 2 with a limit of -5 skips -5 books, and the listing answers 400 with the server's negative-skip message |
| BookController.GetSingleBookSpec | backend/src/controllers/book.controller.ts:110-120 | 200 iff some stored book has the slug, with that book; otherwise 404 "No book found" |
| BookController.CreateBook | backend/src/controllers/book.controller.ts:129-226 | The checks and the save, run against the database, give the createBook specification |
| BookController.UpdateBook | backend/src/controllers/book.controller.ts:228-274 | The checks and the in-place update give the updateBook specification |
| BookController.DeleteBook | backend/src/controllers/book.controller.ts:276-305 | The checks and the removal give the deleteBook specification |
| BookController.CreateBookRequiresFields | backend/src/controllers/book.controller.ts:148-163 | Any falsy required field, including a price or page count of 0, gives 400 "Please provide all the required fields!" and stores nothing |
| BookController.CreateBookCheckOrder | backend/src/controllers/book.controller.ts:166-192 | The checks run in order: a taken slug is reported before an unknown genre, which is reported before bad numbers. Each refusal stores nothing |
| BookController.CreateBookRefusedByValidation | backend/src/controllers/book.controller.ts:198-223 | When the checks pass and the publish date casts, but the trimmed name or description, or the slug, is empty, the save is refused with 500 and the validation message, naming the name first when it is empty |
| BookController.CreateBookRefusedOnBadDate | backend/src/controllers/book.controller.ts:198-223 | When the checks pass but the publish date does not cast to a Date, the save is refused with 500, the message starts with the date's cast error, and nothing is stored |
| BookController.CreateBookStoresOne | backend/src/controllers/book.controller.ts:198-219 | When every check and validation passes, exactly one book is added at the next id and the genres are untouched. The reply is 200 "Book created successfully!" with that book |
| BookController.CreateBookKeepsValid | backend/src/controllers/book.controller.ts:129-226 | Whatever the request, the catalog stays valid: ids below the next id, and every book referring to a stored genre |
| BookController.CreateBookUnchangedUnlessStored | backend/src/controllers/book.controller.ts:148-192 | Unless every check and validation passes, createBook leaves the catalog as it was and answers with a failure |
| BookController.CreatedBookFields | backend/src/controllers/book.controller.ts:194-210 | The stored book has the slug of the name, which no earlier book has. Its genre is the id of the named genre. Name and description are trimmed, ISBN and language are kept, and both timestamps are now |
| BookController.UpdateAndDeleteRejects | backend/src/controllers/book.controller.ts:237-294 | An invalid id gives 400 "Invalid ID." for update and delete. An unknown id gives 404 "Book not found" for delete, and for an update whose genre is absent or names a stored genre. Nothing changes |
| BookController.UpdateUnknownGenreRejected | backend/src/controllers/book.controller.ts:241-247 | An unknown genre name gives 400 "Genre not found!" and no update, whether or not the book exists |
| BookController.UpdateBadDateRejected | backend/src/controllers/book.controller.ts:253-272 | A publish date that does not cast to a Date gives 500 with the cast error and no update, whether or not the book exists |
| BookController.UpdateChangesOnlyThatBook | backend/src/controllers/book.controller.ts:253-267 | A successful update replaces only that book; the ids, the genres and every other book are unchanged, and the reply carries the updated book |
| BookController.UpdateKeepsValid | backend/src/controllers/book.controller.ts:228-274 | Every update, successful or not, keeps the catalog valid |
| BookController.UpdatedBookFields | backend/src/controllers/book.controller.ts:241-255 | Present fields replace the old ones, with name and description trimmed. A given genre becomes the named genre's id, a missing one keeps the old genre. createdAt is kept and updatedAt is now |
| BookController.DeleteRemovesExactlyOne | backend/src/controllers/book.controller.ts:284-298 | A successful delete removes exactly that book, keeps every other book unchanged and the catalog valid |
| BookController.CreatedBookFoundBySlug | backend/src/controllers/book.controller.ts:106-120 | A book just created is found by getSingleBook under the slug of its name |
| GenreController.GetAllGenresSpec | backend/src/controllers/genre.controller.ts:6-13 | getAllGenres answers 200 with a genre list |
| GenreController.AllGenresComplete | backend/src/controllers/genre.controller.ts:8 | Every stored genre is in the list |
| GenreController.AllGenresExact | backend/src/controllers/genre.controller.ts:8 | With every id below the bound, `Genre.find()` lists each stored genre with its document, and nothing else |
| GenreController.GenreListExact | backend/src/controllers/genre.controller.ts:6-13 | The genre list is exactly the stored genres, each once, in insertion order |
| GenreController.GetSingleGenreSpec | backend/src/controllers/genre.controller.ts:22-36 | 200 iff some genre has the slug, with that genre; otherwise 404 "No genre found" |
| GenreController.BooksOfGenreComplete | backend/src/controllers/genre.controller.ts:31-34 | Every stored book referring to the genre is in the list |
| GenreController.GenrePageListsItsBooks | backend/src/controllers/genre.controller.ts:22-36 | A genre page lists exactly the books whose genre reference is that genre's id |
| GenreController.CreateGenre | backend/src/controllers/genre.controller.ts:45-74 | The checks and the save, run against the database, give the createGenre specification |
| GenreController.CreateGenreNeverStores | backend/src/controllers/genre.controller.ts:51-73 | Whatever the request, createGenre stores nothing. An empty name gives 400, a taken slug gives 400 "Genre already exists", and every other request fails validation on the missing subjectSlug with 500 "Failed to create genre" |
| GenreController.SubjectSlugIsTheObstacle | backend/src/models/genre.model.ts:25-28 | With a subjectSlug, a new non-empty name and slug would be stored under the next id |
| ClientBooks.HasId | frontend/src/store/wishlistStore.ts:41-43 | True iff some entry has that _id |
| ClientBooks.RemoveById | frontend/src/store/wishlistStore.ts:45-49 | Removal keeps exactly the entries with another _id, and leaves the list unchanged when the id is absent |
| ClientBooks.RemoveByIdAppend | frontend/src/store/wishlistStore.ts:47 | Removal distributes over concatenation, so it keeps the order of what it keeps |
| ClientBooks.RemoveByIdKeepsDistinct | frontend/src/store/wishlistStore.ts:45-49 | Removal preserves distinct _ids |
| ClientBooks.ReplaceById | frontend/src/store/bookStore.ts:359-362 | Replacement keeps the length and puts the new book exactly at the entries with that _id |
| ClientBooks.AppendUnseen | frontend/src/store/bookStore.ts:240-248 | The merge keeps the old list as its prefix. It adds behind it only incoming books whose _id the old list lacks, and every such book |
| ClientBooks.Unseen | frontend/src/store/bookStore.ts:242-244 | The filter keeps exactly the incoming books whose _id the list lacks |
| ClientBooks.AppendUnseenKeepsDistinct | frontend/src/store/bookStore.ts:240-248 | Merging a page with distinct ids into a list with distinct ids keeps them distinct |
| ClientBooks.UnseenKeepsDistinct | frontend/src/store/bookStore.ts:242-244 | Filtering a page with distinct ids keeps them distinct |
| WishlistStore.Added | frontend/src/store/wishlistStore.ts:32-39 | A missing book or a known _id leaves the list unchanged; otherwise the book is appended at the end |
| WishlistStore.Wishlist.constructor | frontend/src/store/wishlistStore.ts:30 | The wishlist starts empty |
| WishlistStore.Wishlist.AlreadyIn | frontend/src/store/wishlistStore.ts:41-43 | alreadyInWishlist is true iff some entry has that _id |
| WishlistStore.Wishlist.AddToWishlist | frontend/src/store/wishlistStore.ts:32-39 | The new list is the added list, and distinct _ids are preserved |
| WishlistStore.Wishlist.RemoveFromWishlist | frontend/src/store/wishlistStore.ts:45-49 | The new list is the old one without that _id, and distinct _ids are preserved |
| WishlistStore.AddedKeepsDistinct | frontend/src/store/wishlistStore.ts:32-39 | Adding preserves distinct _ids, and afterwards the book's _id is present |
| WishlistStore.AddThenRemove | frontend/src/store/wishlistStore.ts:32-49 | Removing a book just added under a new _id gives the list back |
| WishlistStore.RemoveForgetsOnlyThatId | frontend/src/store/wishlistStore.ts:45-49 | After a removal the _id is gone and every other _id is present iff it was before |
| BookCard.ToggleSpec | frontend/src/shared/BookCard.tsx:18-31 | A guest's click changes nothing and raises the error toast. A signed-in click adds an absent book with "Book added to wishlist!" and removes a present one with "Book removed from wishlist!" |
| BookCard.AddBookToWishlist | frontend/src/shared/NewBookCard.tsx:18-31 | The click handler both cards share updates the store and toasts as the toggle specification says, and keeps the store's ids distinct |
| BookCard.ToggleFlipsMembership | frontend/src/shared/BookCard.tsx:78-84 | A signed-in click flips the book's membership, and with it the filled heart |
| BookCard.ToggleTwice | frontend/src/shared/BookCard.tsx:18-31 | Two signed-in clicks restore the book's membership, and restore the list itself when the book was absent |
| BookCard.ToggleLeavesOthers | frontend/src/shared/NewBookCard.tsx:76-82 | A click leaves every other book's membership, and so its heart, as it was |
| BookStore.GenreParams | frontend/src/store/bookStore.ts:117-119 | One `genre` parameter per selected genre, in order |
| BookStore.GetAllGenreParams | frontend/src/store/bookStore.ts:117-119 | Reading the genre parameters back gives the genres under `genre` and nothing under any other key |
| BookStore.QueryGetAll | frontend/src/store/bookStore.ts:114-130 | The query holds, under each key, exactly the values the filters give it |
| BookStore.QueryReadBack | frontend/src/store/bookStore.ts:114-130 | Reading the query back gives every genre in order, and sort, page and limit each only when given |
| BookStore.ErrorText | frontend/src/store/bookStore.ts:150 | A non-empty error message is shown as it is, and the text shown is never empty while the fallback is not |
| BookStore.Store.constructor | frontend/src/store/bookStore.ts:95-107 | The store starts with no lists, page 1, limit 10 and zero counts |
| BookStore.Store.Start | frontend/src/store/bookStore.ts:111 | An action starts loading and clears the error and the message |
| BookStore.Store.BuildQueryParams | frontend/src/store/bookStore.ts:114-130 | The parameters appended one at a time are the query of the filters |
| BookStore.Store.GetFeaturedBooks | frontend/src/store/bookStore.ts:110-158 | It requests the query of the filters and leaves the state of the featured-books specification |
| BookStore.Store.GetNewBooks | frontend/src/store/bookStore.ts:161-209 | It requests the query of the filters and leaves the state of the new-books specification |
| BookStore.Store.GetAllBooks | frontend/src/store/bookStore.ts:212-270 | It requests the query of the filters and leaves the state of the listing specification |
| BookStore.Store.GetBook | frontend/src/store/bookStore.ts:273-292 | It leaves the state of the single-book specification |
| BookStore.Store.SearchBook | frontend/src/store/bookStore.ts:295-317 | It requests `search=` and the encoded query, and leaves the state of the search specification |
| BookStore.Store.CreateBook | frontend/src/store/bookStore.ts:320-345 | It leaves the state of the create specification |
| BookStore.Store.UpdateBook | frontend/src/store/bookStore.ts:348-374 | It leaves the state of the update specification |
| BookStore.Store.DeleteBook | frontend/src/store/bookStore.ts:377-398 | It leaves the state of the delete specification |
| BookStore.GenreParamsAppend | frontend/src/store/bookStore.ts:118 | Appending one genre appends one `genre` parameter |
| BookStore.AllBooksMerges | frontend/src/store/bookStore.ts:239-256 | A successful page keeps every book already shown, in place. Behind them it adds exactly the reply's books with unseen ids. The page becomes the requested page or 1 |
| BookStore.AllBooksNoDuplicates | frontend/src/store/bookStore.ts:240-248 | Pages with distinct ids merge into a list with distinct ids |
| BookStore.FailuresClearTheWrongList | frontend/src/store/bookStore.ts:147-157 | A failed listing blanks newBooks and keeps books; a failed featured request blanks books and keeps featuredBooks |
| BookStore.ActionsEndNotLoading | frontend/src/store/bookStore.ts:155-397 | Every action ends with loadingState false, whatever the request did |
| BookStore.CreatePrepends | frontend/src/store/bookStore.ts:332-336 | A created book goes first, ahead of the list as it was |
| BookStore.UpdateReplaces | frontend/src/store/bookStore.ts:357-365 | An update replaces each entry with that _id, keeps the length and every other entry, and sets book to the reply's book |
| BookStore.DeleteRemoves | frontend/src/store/bookStore.ts:385-390 | After a successful deletion the _id is gone from the list, every entry with another _id is still there, and nothing new appears |
| BooksPage.Without | frontend/src/pages/Books.tsx:42 | Filtering removes every occurrence of the id and keeps every other genre |
| BooksPage.ToggleGenre | frontend/src/pages/Books.tsx:39-46 | A selected id is removed wherever it occurs; an unselected id is appended at the end |
| BooksPage.FetchFilters | frontend/src/pages/Books.tsx:72-77 | Each fetch asks for the current page, six books, the selected genres and the sort |
| BooksPage.WithoutAbsent | frontend/src/pages/Books.tsx:42 | Filtering out an absent id changes nothing |
| BooksPage.WithoutAppend | frontend/src/pages/Books.tsx:41-43 | Filtering out an id just appended gives the filtered list before it |
| BooksPage.ToggleAbsentTwice | frontend/src/pages/Books.tsx:39-46 | Ticking an unselected genre twice restores the selection exactly |
| BooksPage.TogglePresentTwice | frontend/src/pages/Books.tsx:39-46 | Unticking a selected genre and ticking it again moves it, once, to the end |
| BooksPage.ChangeFiltersTouchesOneField | frontend/src/pages/Books.tsx:37-54 | Choosing a sort replaces only the sort; a genre click keeps the sort |
| BooksPage.Page.constructor | frontend/src/pages/Books.tsx:23-31 | The page starts at 1 with no genre selected, no sort and not loading |
| BooksPage.Page.OnFilterChange | frontend/src/pages/Books.tsx:34-62 | A filter click updates the filters, resets the page to 1, starts loading and empties the store's book list, changing nothing else in it |
| BooksPage.Page.LoadMoreBooks | frontend/src/pages/Books.tsx:65-68 | Loading more moves to exactly the next page, starts loading and keeps the filters |
| BooksPage.Page.LoadPage | frontend/src/pages/Books.tsx:70-80 | The fetch requests the current page and filters, leaves the store as the listing specification says, and ends loading |
| BooksPage.FilterChangeRestartsListing | frontend/src/pages/Books.tsx:58-80 | After a filter change the next fetch asks for page 1 and shows exactly the reply's books |
| BooksPage.UnseenOfNothing | frontend/src/store/bookStore.ts:240-244 | Against an empty list every incoming book is unseen |
| VerifyEmailPage.PastedSlots | frontend/src/pages/VerifyEmail.tsx:25-28 | A paste gives six slots: slot i holds the i-th character, or nothing past the end |
| VerifyEmailPage.CodeEntry.constructor | frontend/src/pages/VerifyEmail.tsx:10 | The code starts as six empty slots |
| VerifyEmailPage.CodeEntry.HandleChange | frontend/src/pages/VerifyEmail.tsx:19-43 | There are always six slots. A longer value fills every slot from its first six characters and focuses the last. Any other value writes only its slot and moves focus on after a character when this is not the last slot |
| VerifyEmailPage.CodeEntry.OnChange | frontend/src/pages/VerifyEmail.tsx:102-109 | Only one digit or an empty value reaches the slot, so every slot keeps holding nothing or one digit |
| VerifyEmailPage.CodeEntry.HandleKeyDown | frontend/src/pages/VerifyEmail.tsx:45-51 | Backspace over an empty slot moves focus back one slot, unless this is the first; the code never changes |
| VerifyEmailPage.CodeEntry.HandleSubmit | frontend/src/pages/VerifyEmail.tsx:53-67 | A code is sent iff the submit button is enabled, and it is the six joined digits |
| VerifyEmailPage.JoinOfSlots | frontend/src/pages/VerifyEmail.tsx:56-57 | The joined code is all digits, and has length six exactly when no slot is empty, which is when the button is enabled |
| VerifyEmailPage.PasteJoinsBack | frontend/src/pages/VerifyEmail.tsx:23-29 | A paste of six characters or more joins back to its first six |
| VerifyEmailPage.GuardRefusesPaste | frontend/src/pages/VerifyEmail.tsx:106 | The input guard refuses every value longer than one character |
| PasswordRules.Rules | frontend/src/shared/validatePassword.tsx:4-12 | Four rules, in order, with their labels. Length holds iff at least 8 characters; uppercase iff some A-Z; number iff some digit; special iff some character of !@#$%^&* |
| PasswordRules.PatternIffRules | frontend/src/pages/SignUp.tsx:28 | The sign-up pattern accepts exactly the passwords that meet all four rules and hold no line terminator |
| PasswordRules.PatternMatchesRules | frontend/src/pages/SignUp.tsx:28 | For passwords without line breaks, the sign-up password pattern accepts exactly when every rule shows as met |
| PasswordRules.LineBreakClosesGate | frontend/src/pages/SignUp.tsx:28 | A password with a line break never passes the gate |
| AuthStore.ErrorText | frontend/src/store/authStore.ts:80-87 | A failure shows the server's message, else the error's message, else "An unknown error occurred." |
| AuthStore.Store.constructor | frontend/src/store/authStore.ts:57-67 | The store starts with no user, not authenticated, checking the session, not loading, and zero totals |
| AuthStore.Store.RecordFailure | frontend/src/store/authStore.ts:81-87 | A failure records its error text and changes nothing else |
| AuthStore.Store.SignIn | frontend/src/store/authStore.ts:70-116 | Signup and login rethrow iff the request failed, and leave the sign-in state |
| AuthStore.Store.Logout | frontend/src/store/authStore.ts:119-130 | Logout leaves the logout state |
| AuthStore.Store.VerifyEmail | frontend/src/store/authStore.ts:133-156 | It returns the reply on success and rethrows iff the request failed. It leaves the request state without touching the user |
| AuthStore.Store.PasswordRequest | frontend/src/store/authStore.ts:178-223 | forgotPassword and resetPassword rethrow iff the request failed, and keep the reply's message |
| AuthStore.Store.CheckAuth | frontend/src/store/authStore.ts:159-175 | The session check leaves the check-auth state |
| AuthStore.Store.GetTotals | frontend/src/store/authStore.ts:226-254 | The user and admin totals leave the listing state |
| AuthStore.SignInOutcome | frontend/src/store/authStore.ts:79-103 | A success signs in the reply's user. A failure keeps the session and records the error text. Loading ends either way |
| AuthStore.CheckAuthSettles | frontend/src/store/authStore.ts:159-175 | The check always ends with isCheckingAuth false and no error. isAuthenticated holds iff it succeeded, and a failure keeps the stored user |
| AuthStore.LogoutKeepsSessionFlag | frontend/src/store/authStore.ts:124 | A successful logout removes the user but leaves isAuthenticated as it was |
| AuthStore.VerifyEmailKeepsUser | frontend/src/store/authStore.ts:133-143 | Verifying the email never updates the stored user, the session flag or the message |
| AuthStore.TotalsAreSilent | frontend/src/store/authStore.ts:226-254 | The listings never show an error and change only their own list and count |
| AuthStore.ActionsEndNotLoading | frontend/src/store/authStore.ts:89-253 | Every action but checkAuth ends with loadingState false |
| RouteGuards.RedirectAuthUser | frontend/src/utils/RedirectAuthUser.tsx:10-16 | Redirect home iff authenticated with a verified user; otherwise the children render, and there is never a toast |
| RouteGuards.UserNotLogged | frontend/src/utils/UserNotLogged.tsx:12-24 | Redirect home with the toast iff not authenticated; otherwise the children render |
| RouteGuards.CheckUserRole | frontend/src/utils/ChechUserRole.tsx:11-20 | Nothing while the session is checked. After that the children render iff the user is an admin, and anyone else is redirected home with "Forbidden. Admin only!" |
| RouteGuards.GuardsReadOnlyTheirFields | frontend/src/utils/ChechUserRole.tsx:11 | Each wrapper's decision depends only on its own fields: the session flag and verification, the session flag, or the check flag and the role |
| RouteGuards.UnverifiedUserSeesForms | frontend/src/utils/RedirectAuthUser.tsx:12-16 | A signed-in user with an unverified email still sees the sign-in forms |
| AppShell.ChromeFor | frontend/src/App.tsx:52-141 | Header, mobile navigation and footer are rendered iff the path is not hidden |
| AppShell.ResetLinksHideChrome | frontend/src/App.tsx:33-43 | Every reset link is hidden, whatever its token |
| AppShell.HideRouteExtends | frontend/src/App.tsx:41-43 | Every path that extends a hidden path is hidden too |
| AppShell.PrefixMatching | frontend/src/App.tsx:41-43 | The test is by prefix: "/loginx" is hidden, while "/", "/books", "/wishlist" and "/admin" are not |
| AppShell.Render | frontend/src/App.tsx:60-133 | An unwrapped page always renders, with no toast |
| AppShell.DashboardOnlyForAdmins | frontend/src/App.tsx:126-133 | The dashboard renders only for an admin, once the session check is over |
| AppShell.WishlistRendersAfterLogout | frontend/src/App.tsx:116-123 | After a successful logout from a session, the wishlist page still renders |
| AppShell.FormsReachableAfterLogout | frontend/src/App.tsx:65-105 | After a successful logout the sign-in forms render again |
| SearchBox.SearchUrl | frontend/src/components/Searchbar.tsx:11-12 | A blank query navigates nowhere; any other goes to "/books/search?q=" and the encoded trimmed query |
| SearchBox.UpTo | frontend/src/pages/Search.tsx:12 | The query value is a prefix of the rest of the URL, all of it when there is no `&` |
| SearchBox.SearchRoundTrip | frontend/src/pages/Search.tsx:12-18 | The search page reads back exactly the trimmed query, which is never empty, so it searches |
| SearchBox.Searchbar.constructor | frontend/src/components/Searchbar.tsx:6 | The bar starts empty |
| SearchBox.Searchbar.OnChange | frontend/src/components/Searchbar.tsx:35 | Typing sets the query |
| SearchBox.Searchbar.HandleSearch | frontend/src/components/Searchbar.tsx:9-20 | It navigates to the search URL of the query, and empties the bar iff it navigated |
| SearchBox.Searchbar.OnKeyDown | frontend/src/components/Searchbar.tsx:36-41 | Only Enter searches; any other key changes nothing |
| SearchBox.MobileSearch.constructor | frontend/src/components/MobileSearch.tsx:9-13 | The panel starts with an empty query and the given open state |
| SearchBox.MobileSearch.HandleSearch | frontend/src/components/MobileSearch.tsx:16-28 | It navigates to the search URL of the query. After navigating the query is cleared and the panel closed; otherwise nothing changes |
| SearchBox.MobileSearch.Clear | frontend/src/components/MobileSearch.tsx:72-74 | "Canc" empties the query and keeps the panel as it was |
| SearchBox.MobileSearch.OnScroll | frontend/src/components/MobileSearch.tsx:31-42 | Scrolling past 50 closes an open panel; the query is kept |

## Left out

- Email dispatch is not part of this model. Each send is a parameter that succeeds or throws with the sender's message, and the password-reset confirmation email is a parameter of resetPassword.
- bcrypt, `crypto.randomBytes`, `Math.random` and JSON Web Token signing are idealised. A hash records its password and salt and matches only that password. The random bytes and the draw are parameters. A token records its payload, key and times.
- MongoDB's sorting, skip/limit execution and `populate` are left out. The listing model gives the query, the sort key, the counts and the page arithmetic, not the page of books returned.
- `$regex` matching is a parameter of the book filter, and `slugify` is a parameter of createBook and createGenre.
- ObjectId validity is modelled as the canonical decimal text of an id, and ids grow with insertion order.
- Express's case-insensitive and trailing-slash path matching is left out; routes match segment by segment.
- The server's plumbing (JSON and cookie parsing, CORS, helmet, static files, the database connection) and the seeding script are left out.
- JavaScript's `Number()` coercion is left out. A numeric body field carries the value `Number()` gives it, and the page and limit are integers or absent. Floating-point division in the page count is modelled as integer ceiling division.
- The cast error a non-id genre value raises in the listing filter is left out.
- Which texts compile as a MongoDB regular expression, and which texts Mongoose casts to a Date, are parameters: `regexError` for the listing and `isDate` for createBook and updateBook.
- BookController.UpdateBookSpec: when the genre and the publish date both fail to cast, only the genre's error is reported. Mongoose may report both.
- The cast error messages follow Mongoose's wording for a text value. Escaping inside the quoted value is left out.
- PasswordRules.Rules: lengths count characters, while JavaScript counts UTF-16 code units. A character outside the Basic Multilingual Plane counts once here and twice in the source. The same holds for the pattern's `.{8,}` and for the code slot and paste lengths in VerifyEmailPage.
- Encoding.EncodeURIComponent: keeps non-ASCII characters as they are, rather than percent-encoding their UTF-8 bytes.
- `URLSearchParams.toString` is modelled as the list of key/value pairs it serialises, not as the form-encoded text.
- Concurrency is left out. Each handler and each store action is one atomic step, so two requests racing on one token are not modelled.
- Rendering, toasts, DOM focus (kept as a slot index), the loaders, and the fetch-and-display pages are left out.
- React effect scheduling is collapsed into method order. BooksPage.Page.OnFilterChange includes the reset effect the filter change triggers.
- BookStore.CreateSpec: a success reply without a book would put `undefined` at the front of the list. The model leaves the list unchanged in that case.
- GenreController.GetAllGenresSpec: the 500 "Failed to fetch genres" branch is left out, because the in-memory collection never fails to list.
