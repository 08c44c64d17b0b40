# Articles admin and reader frontend — a Dafny model

The system is a Next.js frontend for a blog: an admin console that lists,
searches, pages and deletes articles and manages categories, a reader-facing
article list and profile page, a middleware route guard, a client-side "fake"
login/registration helper over a bundled user list, and one API route that
appends new accounts to a JSON user file. The logic worth modelling is small
and sequential, spread over the pages' handlers and derived values; this
project states it in Dafny and proves what those pages promise.

Layout (one module per source file, plus shared modules):

| file | module | models |
|---|---|---|
| types.dfy | `Types` | the API records of `src/types/article.ts`, `Option`, `Result`, `Remote` (a remote call's outcome) |
| seqs.dfy | `Seqs` | `Array.prototype.find` and `filter`, with subsequence, idempotence and multiplicity lemmas |
| text.dfy | `Text` | ASCII `toLowerCase`/`toUpperCase`, `includes`, `startsWith`, `slice(0, n)`, decimal `${n}` |
| key_value.dfy | `KeyValue` | `localStorage` and the cookie jar as a class with a `map` field |
| middleware.dfy | `Middleware` | `src/middleware.ts` |
| fake_auth.dfy | `FakeAuth` | `src/lib/fakeAuth.ts` |
| register_route.dfy | `RegisterRoute` | `src/app/api/register/route.ts` |
| admin_articles.dfy | `AdminArticles` | `src/app/admin/articles/page.tsx` |
| admin_category.dfy | `AdminCategory` | `src/app/admin/category/page.tsx` |
| add_article.dfy | `AddArticle` | `src/app/admin/articles/add/page.tsx` |
| login.dfy | `Login` | `src/app/login/page.tsx` |
| admin_layout.dfy | `AdminLayout` | `src/app/admin/layout.tsx` |
| public_articles.dfy | `PublicArticles` | `src/app/articles/page.tsx` |
| user_profile.dfy | `UserProfile` | `src/app/user_profile/page.tsx` |

Pages are classes whose fields are the component's `useState` values; each
handler is a method whose `ensures` gives the whole new state. Results of
HTTP calls, file uploads, object URLs, cookies and the `btoa` encoder are
parameters of the handlers (`Remote.Done(response)` or `Remote.Failed` for a
call that threw). Navigation is returned as the target path.

Two behaviours of the code worth noting:

- The admin search ignores the selected category; the select only stores its
  value and resets the page (`AdminArticlesPage.SelectCategory`).
- The page count comes from the server's `total` and `limit`, not from the
  number of articles the search keeps (`AdminArticlesPage.TotalPages`), and
  the page number is not clamped to it when the search narrows the list.

## Model

| member | source | states |
|---|---|---|
| Types.OrZero | src/app/admin/articles/page.tsx:38-39 | a missing figure reads as 0, a present one (0 included) as itself |
| Seqs.Find | src/lib/fakeAuth.ts:4 | `find` gives nothing exactly when no element passes, else the first element that passes |
| Seqs.Filter | src/app/admin/articles/page.tsx:73-78 | `filter` keeps exactly the passing elements and never lengthens the list |
| Seqs.FilterIsSubsequence | src/app/admin/articles/page.tsx:73-78 | the filtered list embeds in the input at increasing positions: nothing is added or reordered |
| Seqs.FilterIdempotent | src/app/admin/articles/page.tsx:73-78 | filtering the filtered list with the same test changes nothing |
| Seqs.FilterKeepsAll | src/app/admin/articles/page.tsx:73-78 | when every element passes, the result equals the input in content and order |
| Seqs.FilterMultiplicity | src/app/admin/articles/page.tsx:64 | each value keeps its multiplicity if it passes and has none otherwise |
| Text.LowerChar | src/app/admin/articles/page.tsx:75 | lowercasing maps 'A'..'Z' to 'a'..'z' and leaves every other character alone |
| Text.UpperChar | src/app/articles/page.tsx:48 | uppercasing maps 'a'..'z' to 'A'..'Z' and leaves every other character alone |
| Text.Lower | src/app/admin/articles/page.tsx:75-76 | `toLowerCase` keeps the length and lowercases each position |
| Text.LowerIdempotent | src/app/admin/articles/page.tsx:75-76 | lowering twice is lowering once |
| Text.IncludesIffOccurs | src/app/admin/articles/page.tsx:75-76 | the `includes` scan is true exactly when the term occurs at some position |
| Text.Includes | src/app/admin/articles/page.tsx:75-76 | `includes` is true when the term is a prefix, and never for a term longer than the text |
| Text.StartsWith | src/middleware.ts:9 | `startsWith` agrees with the prefix relation on strings |
| Text.Take | src/app/articles/page.tsx:164 | `slice(0, n)` is a prefix of length min(n, length) |
| Text.Decimal | src/lib/fakeAuth.ts:10 | the id's text is a non-empty string of decimal digits |
| Text.DecimalRoundTrip | src/lib/fakeAuth.ts:10 | reading the id's digits back gives the id |
| KeyValue.Store.Set | src/lib/fakeAuth.ts:11 | storing a key replaces that key's value and keeps every other entry |
| KeyValue.Store.Remove | src/lib/fakeAuth.ts:36 | removing a key drops it and keeps every other entry |
| Middleware.TokenOf | src/middleware.ts:5 | a missing cookie gives the empty token, a present one its value |
| Middleware.Guarded | src/middleware.ts:9 | a path is guarded iff it begins with "/articles" or "/admin", character by character |
| Middleware.Decide | src/middleware.ts:4-14 | the only redirect is to "/login", and only for an empty token |
| Middleware.MissingCookieIsEmptyToken | src/middleware.ts:5 | no cookie and an empty cookie get the same decision on every path |
| Middleware.EmptyTokenGuardedRedirects | src/middleware.ts:9-10 | an empty token on a guarded path is redirected to "/login" |
| Middleware.TokenAlwaysPasses | src/middleware.ts:9-13 | any non-empty token passes on every path |
| Middleware.UnguardedPathPasses | src/middleware.ts:9-13 | a path that is not guarded passes with or without a token |
| Middleware.LoginNeverRedirected | src/middleware.ts:9-13 | "/login" always passes, so the redirect cannot loop |
| Middleware.RawPrefixGuardsLookalikes | src/middleware.ts:9 | "/administrator" and "/articlesX" are guarded too; "/" is not |
| FakeAuth.NewUser | src/lib/fakeAuth.ts:21-27 | the new user has id length + 1, role "user" and the given name, email and password |
| FakeAuth.FindByCredentials | src/lib/fakeAuth.ts:4 | nothing exactly when no listed user has both the email and the password, else a listed user with both |
| FakeAuth.FindByEmail | src/lib/fakeAuth.ts:16 | nothing exactly when no listed user has the email, else a listed user with it |
| FakeAuth.TokenPayload | src/lib/fakeAuth.ts:10 | the payload starts with the id's digits and a colon, and its length is those of id, email and role plus two separators |
| FakeAuth.FakeLogin | src/lib/fakeAuth.ts:3-13 | no matching user: "Invalid email or password" and storage unchanged; else the first match, its encoded "id:email:role" token returned and stored under "token" |
| FakeAuth.FakeRegister | src/lib/fakeAuth.ts:15-33 | a known email: "Email already exists" and storage unchanged; else the new user and its token, stored; the user list is a value the call cannot change |
| FakeAuth.FakeLogout | src/lib/fakeAuth.ts:35-37 | only the "token" entry is removed |
| FakeAuth.LoginFindsFirstMatch | src/lib/fakeAuth.ts:4-8 | login fails exactly when no user has both credentials, else returns the first user that has them |
| FakeAuth.RegisterRejectsKnownEmail | src/lib/fakeAuth.ts:16-19 | registration is refused exactly when some user has that email |
| FakeAuth.RegisteredUserCannotLogIn | src/lib/fakeAuth.ts:21-32 | since the list is never extended, an account registration accepted cannot then log in |
| FakeAuth.NewIdIsFresh | src/lib/fakeAuth.ts:22 | with bundled ids no larger than the list's length, the new id is unused |
| FakeAuth.PayloadDeterminesUser | src/lib/fakeAuth.ts:10 | for colon-free emails, equal token payloads mean equal id, email and role |
| RegisterRoute.Post | src/app/api/register/route.ts:4-26 | the saved list and the response are those of `Register` on the list read from the file |
| RegisterRoute.NewAccount | src/app/api/register/route.ts:14-20 | the record has id length + 1 and the request's name, email, password and role |
| RegisterRoute.Register | src/app/api/register/route.ts:4-26 | a record is created iff no listed user has the email; a taken email answers 400 with the list unchanged; a created record is appended and returned |
| RegisterRoute.TakenEmailRejected | src/app/api/register/route.ts:8-12 | a taken email answers 400 "Email already registered" and leaves the list as it was |
| RegisterRoute.FreshEmailAppended | src/app/api/register/route.ts:14-25 | a new email appends one record at the end with id length + 1 and the submitted fields, keeps earlier records in order, and returns that record |
| RegisterRoute.RegisterKeepsEmailsUnique | src/app/api/register/route.ts:8-22 | unique emails before a request stay unique after it |
| RegisterRoute.RegisterGrowsByAtMostOne | src/app/api/register/route.ts:22 | the old list is a prefix of the new one, which is one longer exactly on success |
| AdminArticles.CeilDiv | src/app/admin/articles/page.tsx:80 | for a positive limit, the page count is the least n with n * limit >= total |
| AdminArticles.CeilDivIsLeast | src/app/admin/articles/page.tsx:80 | every count whose pages hold the total is at least `CeilDiv`, so the ceiling is the least such count |
| AdminArticles.PageRows | src/app/admin/articles/page.tsx:81-82 | the rows are the items from (page-1)*10 on, at most ten, none when that start is past the end |
| AdminArticles.PreviousPage | src/app/admin/articles/page.tsx:171 | Previous goes one page back and never below 1 |
| AdminArticles.NextPage | src/app/admin/articles/page.tsx:173 | Next goes one page on and never above totalPages |
| AdminArticles.Matches | src/app/admin/articles/page.tsx:74-76 | an article matches iff the lowercased term occurs in its lowercased title or its present lowercased content |
| AdminArticles.SearchArticles | src/app/admin/articles/page.tsx:73-78 | the search keeps exactly the listed articles that match, each with its multiplicity, and never lengthens the list |
| AdminArticles.WithoutId | src/app/admin/articles/page.tsx:64 | the remaining articles are exactly the listed ones with another id |
| AdminArticles.AfterDelete | src/app/admin/articles/page.tsx:52-70 | no token or a failed request leaves list and dialog as they were; a success closes the dialog and keeps exactly the articles with another id, each with its multiplicity; the list is always a subsequence of the old one |
| AdminArticles.PagesUpToIsPrefix | src/app/admin/articles/page.tsx:81-82 | pages 1..n laid end to end are exactly the first n*10 items |
| AdminArticles.PagesCoverAll | src/app/admin/articles/page.tsx:80-82 | pages 1..ceil(len/10) reconstruct the list: disjoint, in order, nothing lost |
| AdminArticles.SearchSelectsMatches | src/app/admin/articles/page.tsx:73-78 | an article is kept iff the lowercased term occurs in its lowercased title or its present lowercased content |
| AdminArticles.SearchIsSubsequence | src/app/admin/articles/page.tsx:73-78 | the search keeps input order and only drops articles |
| AdminArticles.SearchIdempotent | src/app/admin/articles/page.tsx:73-78 | searching again with the same term changes nothing |
| AdminArticles.EmptySearchKeepsAll | src/app/admin/articles/page.tsx:73-78 | an empty term keeps every article in the original order |
| AdminArticles.WithoutIdRemovesExactly | src/app/admin/articles/page.tsx:64 | removal drops every article with the id, keeps the others with their multiplicity, in order |
| AdminArticles.DeleteOutcome | src/app/admin/articles/page.tsx:52-70 | with no token nothing is removed; after a successful delete the dialog is closed and exactly the other articles remain, with their multiplicity, in order |
| AdminArticles.AdminArticlesPage.constructor | src/app/admin/articles/page.tsx:11-19 | the initial state: empty lists and terms, page 1, dialog closed, zero total and limit |
| AdminArticles.AdminArticlesPage.Filtered | src/app/admin/articles/page.tsx:73-78 | the filtered list holds exactly the articles matching the stored term, with their multiplicity, in their order |
| AdminArticles.AdminArticlesPage.Displayed | src/app/admin/articles/page.tsx:81-82 | ten rows, or what is left of the filtered list, or none past its end; row k is filtered article (page-1)*10+k |
| AdminArticles.AdminArticlesPage.TotalLabel | src/app/admin/articles/page.tsx:86 | "Total Articles" is the length of the filtered list, all articles for an empty term |
| AdminArticles.AdminArticlesPage.TotalPages | src/app/admin/articles/page.tsx:80 | the page count exists exactly for a positive limit and is the least count whose pages cover the server's total |
| AdminArticles.AdminArticlesPage.FetchCategories | src/app/admin/articles/page.tsx:23-30 | categories become the body's list or []; a failure changes nothing |
| AdminArticles.AdminArticlesPage.FetchArticles | src/app/admin/articles/page.tsx:32-45 | articles, total and limit become the body's values or [], 0, 0; loading ends false on success and failure |
| AdminArticles.AdminArticlesPage.SetSearchTerm | src/app/admin/articles/page.tsx:103-109 | the term is stored and the page reset to 1, nothing else changes |
| AdminArticles.AdminArticlesPage.SelectCategory | src/app/admin/articles/page.tsx:90-92 | the choice is stored and the page reset to 1; the filtered list is unchanged |
| AdminArticles.AdminArticlesPage.Previous | src/app/admin/articles/page.tsx:171 | disabled on page 1; otherwise one page back; never below 1 |
| AdminArticles.AdminArticlesPage.Next | src/app/admin/articles/page.tsx:173 | disabled on the last page or with no pages; otherwise one page on, never past totalPages |
| AdminArticles.AdminArticlesPage.OpenDelete | src/app/admin/articles/page.tsx:156 | the dialog opens for that article |
| AdminArticles.AdminArticlesPage.CancelDelete | src/app/admin/articles/page.tsx:182 | the dialog closes and forgets the article |
| AdminArticles.AdminArticlesPage.ConfirmDelete | src/app/admin/articles/page.tsx:183 | with no article id nothing happens, else the state is that after `handleDelete` |
| AdminArticles.AdminArticlesPage.HandleDelete | src/app/admin/articles/page.tsx:52-71 | the list and dialog become `AfterDelete` of the old ones |
| AdminCategory.CategoryNameError | src/app/admin/category/page.tsx:17-22 | a name is accepted iff its length is 2..50, with the short or long message otherwise |
| AdminCategory.CategoriesPage.constructor | src/app/admin/category/page.tsx:27-42 | no categories, total 0, all dialogs closed, nothing selected, empty form not yet submitted |
| AdminCategory.CategoriesPage.Rows | src/app/admin/category/page.tsx:158-159 | the table shows every fetched category in order: the search box has no state |
| AdminCategory.CategoriesPage.FetchCategories | src/app/admin/category/page.tsx:48-60 | categories become the body's list or [], total its length; a failure changes neither |
| AdminCategory.CategoriesPage.TypeName | src/app/admin/category/page.tsx:207 | the name field takes the typed text; after a submission the message is the name rule's verdict on it, before one it stays |
| AdminCategory.CategoriesPage.OpenAdd | src/app/admin/category/page.tsx:141 | the add dialog opens |
| AdminCategory.CategoriesPage.CancelAdd | src/app/admin/category/page.tsx:216-219 | the add dialog closes and the form resets: empty name, no message, not submitted |
| AdminCategory.CategoriesPage.SubmitAdd | src/app/admin/category/page.tsx:63-84 | a rejected name only shows its message; an accepted one, once posted, resets the form, closes the dialog and refetches; the form counts as submitted afterwards |
| AdminCategory.CategoriesPage.OpenEdit | src/app/admin/category/page.tsx:169-171 | the row is selected, its name prefilled, the edit dialog opened |
| AdminCategory.CategoriesPage.CancelEdit | src/app/admin/category/page.tsx:255-256 | the edit dialog closes and the form resets, not submitted; the selection stays |
| AdminCategory.CategoriesPage.SubmitEdit | src/app/admin/category/page.tsx:241 | a rejected name only shows its message, else the state is that after `handleEditCategory`; the form counts as submitted afterwards |
| AdminCategory.CategoriesPage.HandleEdit | src/app/admin/category/page.tsx:87-105 | dialog, selection, form and refetch become `AfterEdit` of the old ones |
| AdminCategory.CategoriesPage.OpenDelete | src/app/admin/category/page.tsx:179-180 | the row is selected and the confirmation opened |
| AdminCategory.CategoriesPage.CancelDelete | src/app/admin/category/page.tsx:287-288 | the confirmation closes and the selection is cleared |
| AdminCategory.CategoriesPage.HandleDelete | src/app/admin/category/page.tsx:107-123 | dialog, selection and refetch become `AfterDelete` of the old ones |
| AdminCategory.HandlersNeedSelection | src/app/admin/category/page.tsx:88-117 | without a selection edit and delete do nothing; a success closes the dialog and clears the selection; only a success refetches |
| AdminCategory.AfterEdit | src/app/admin/category/page.tsx:87-105 | a refetch happens iff a category is selected and the update succeeds, and then the dialog is closed, the selection and the name cleared; otherwise nothing changes |
| AdminCategory.AfterDelete | src/app/admin/category/page.tsx:107-123 | a refetch happens iff a category is selected and the delete succeeds, and then the dialog is closed and the selection cleared; otherwise nothing changes |
| AddArticle.Validate | src/app/admin/articles/add/page.tsx:15-19 | each of title, category and content has an error iff it is empty or (content) absent; an empty field gets its own message, an absent content zod 4's "Invalid input: expected string, received undefined" |
| AddArticle.Payload | src/app/admin/articles/add/page.tsx:71-76 | for a form with content, the body copies title and content and sends the category field as categoryId |
| AddArticle.PreviewTitle | src/app/admin/articles/add/page.tsx:217 | the preview heading is the title, or "Untitled" for an empty one |
| AddArticle.ImageUrl | src/app/admin/articles/add/page.tsx:65-69 | no thumbnail gives "" without an upload; a thumbnail gives the upload's URL, nothing if it failed |
| AddArticle.AddArticlePage.constructor | src/app/admin/articles/add/page.tsx:26-41 | no thumbnail, empty preview and file name, not loading, not submitted; empty title and category, no content yet, no messages |
| AddArticle.AddArticlePage.TypeTitle | src/app/admin/articles/add/page.tsx:136 | the title takes the text; after a submission its message is re-validated, the other messages stay |
| AddArticle.AddArticlePage.ChooseCategory | src/app/admin/articles/add/page.tsx:146 | the category takes the chosen id; after a submission its message is re-validated, the other messages stay |
| AddArticle.AddArticlePage.EditContent | src/app/admin/articles/add/page.tsx:161 | the editor's HTML becomes the content; `setValue` validates nothing, so no message changes |
| AddArticle.AddArticlePage.HandleFileChange | src/app/admin/articles/add/page.tsx:47-54 | a picked file becomes thumbnail, preview and file name; no file changes nothing |
| AddArticle.AddArticlePage.HandleDeleteThumbnail | src/app/admin/articles/add/page.tsx:56-60 | thumbnail none, preview and file name "" |
| AddArticle.AddArticlePage.OpenPreview | src/app/admin/articles/add/page.tsx:182 | the Preview button opens the preview dialog |
| AddArticle.AddArticlePage.ClosePreview | src/app/admin/articles/add/page.tsx:201 | the dialog's Close button shuts it |
| AddArticle.AddArticlePage.Cancel | src/app/admin/articles/add/page.tsx:170-175 | the form resets to its first state with no messages and not submitted; thumbnail and preview go; the file name label stays |
| AddArticle.AddArticlePage.Submit | src/app/admin/articles/add/page.tsx:92 | the errors are the schema's and the form counts as submitted; only a form with three non-empty fields starts the submission |
| AddArticle.AddArticlePage.BeginSubmit | src/app/admin/articles/add/page.tsx:64 | loading is raised before any request |
| AddArticle.AddArticlePage.FinishSubmit | src/app/admin/articles/add/page.tsx:62-86 | the posted body carries the image URL; navigation to the list only after a successful post; loading ends false on every path |
| AddArticle.NoThumbnailPostsEmptyImage | src/app/admin/articles/add/page.tsx:65-76 | corollary: without a thumbnail the body is the form with imageUrl "" whatever an upload would answer |
| AddArticle.ValidateAcceptsFilledForms | src/app/admin/articles/add/page.tsx:15-19 | corollary: the schema accepts exactly the forms with three non-empty fields, and the untouched form gets all three messages |
| Login.ValidateLogin | src/app/login/page.tsx:13-16 | the email error follows the email check; the password errs, with its message, iff shorter than 6 |
| Login.CookieToken | src/app/login/page.tsx:32 | the cookie is "dummy-token-" followed by the role, never empty |
| Login.LandingPage | src/app/login/page.tsx:35 | "/admin/articles" iff the role is "admin", else "/articles" |
| Login.OnSubmit | src/app/login/page.tsx:27-45 | failure: the error message, no cookie, no navigation; success: the role cookie, the token in storage, a welcome and the landing page |
| Login.SignedInUserPassesGuard | src/app/login/page.tsx:32 | the guard admits any signed-in user to every path, non-admins to /admin included |
| Login.LandingPages | src/app/login/page.tsx:35 | only the two landing pages are ever chosen; non-admins go to "/articles" |
| AdminLayout.PageTitle | src/app/admin/layout.tsx:18-23 | the heading is one of "Articles", "Category", "" |
| AdminLayout.LinkActive | src/app/admin/layout.tsx:34-45 | a side link (Articles, Category) is highlighted iff its href occurs in the path |
| AdminLayout.PageTitleCases | src/app/admin/layout.tsx:18-23 | "Articles" iff the path contains "/admin/articles"; "Category" iff it contains "/admin/category" but not that; "" iff neither |
| AdminLayout.TitleMatchesHighlight | src/app/admin/layout.tsx:19-44 | a heading always goes with the highlighted link of the same name |
| AdminLayout.ListPagesTitled | src/app/admin/layout.tsx:18-23 | the two list pages and the add page get their headings |
| PublicArticles.Initial | src/app/articles/page.tsx:48 | the avatar is one character: "?" for an empty name, else the name's first letter upper-cased |
| PublicArticles.UsernameAfterFetch | src/app/articles/page.tsx:36-39 | the name comes from the first article's author only when the list is non-empty and that author exists |
| PublicArticles.Excerpt | src/app/articles/page.tsx:164 | the excerpt is the first min(100, length) characters of present content |
| PublicArticles.CardOf | src/app/articles/page.tsx:135-169 | the card links to "/articles/<id>" with the article's image, title and excerpt; its category label is never empty, "Unknown" standing in for an empty name |
| PublicArticles.Cards | src/app/articles/page.tsx:133-134 | one card per article, in order |
| PublicArticles.ArticlesPage.constructor | src/app/articles/page.tsx:11-14 | no articles, zero total and limit, empty name |
| PublicArticles.ArticlesPage.FetchArticles | src/app/articles/page.tsx:24-46 | list, total and limit take the body's values or [], 0, 0, then the name; a failure changes nothing |
| PublicArticles.ArticlesPage.ShowingLine | src/app/articles/page.tsx:125-129 | the "Showing N of T" line exists iff limit > 0, with N the number fetched |
| PublicArticles.ArticlesPage.Grid | src/app/articles/page.tsx:132-135 | every fetched article gets its card (link, image, title, excerpt, category label), in order |
| PublicArticles.MissingFieldsDefault | src/app/articles/page.tsx:32-34 | corollary: a body without data, total or limit gives [], 0, 0 and keeps the name |
| UserProfile.ProfilePage.constructor | src/app/user_profile/page.tsx:8 | the name starts empty |
| UserProfile.NameAfter | src/app/user_profile/page.tsx:13-25 | a failed request, an empty or missing list, or a first article without author keeps the name; otherwise it is that author's |
| UserProfile.ProfilePage.FetchArticles | src/app/user_profile/page.tsx:11-29 | only the name changes, to `NameAfter` the old name and the outcome |
| UserProfile.ProfilePage.Card | src/app/user_profile/page.tsx:47-73 | the card shows the initial and name; password "user123" and role "User" are constants |
| UserProfile.FailedFetchShowsUnknown | src/app/user_profile/page.tsx:8-25 | on a fresh page, a failed request or a body with no articles leaves the avatar at "?" |

## Left out

- HTTP transport (axios, the API client and its interceptor, the service
  modules): each call is a `Remote` parameter, succeeded or failed.
- `src/lib/users.ts` file reading and writing: the user file is the
  `RegisterRoute.UserFile` object's `users` field.
- The rich-text editors, static pages, JSX, alerts and toasts other than the
  login toast, router navigation (returned as a path), the scroll listener,
  date formatting and images.
- The zod email check is the parameter `isEmail`; `btoa` is the parameter
  `encode` (its Latin-1 exception is not modelled).
- Case mapping is ASCII only; JavaScript's Unicode case mapping and UTF-16
  lengths are not modelled.
- AdminArticles.AdminArticlesPage.Next: with `limit` 0 the code computes
  `Math.ceil(total / 0)`, NaN or Infinity, and the button stays enabled; the
  model leaves the page unchanged in that case instead of modelling floats.
- API figures (`total`, `limit`, `page`) are modelled as non-negative integers;
  non-integer or negative values are not.
- Async ordering: each handler runs to completion; stale or reordered
  responses are not modelled. `onSubmit` of the add page is split at its awaits
  into `BeginSubmit` and `FinishSubmit`; the refetch a category handler starts
  is reported as `refetch` and performed by a later `FetchCategories` call.
- RegisterRoute.Post: the request is four strings; a body `req.json()` cannot
  parse (the route's own failure, an unhandled rejection) and fields missing
  from the body (stored as absent keys) are not modelled.
- AddArticle.MissingMessage: an absent content gets zod's default message for
  a missing string, in zod 4's words (the login schema's top-level `z.email`
  is zod 4 API); the message is the library's, not the page's.
- The add-article preview of the content (`parse(...)`) is not modelled; only
  the dialog's open/close flag is.
- The add page's category list (`categories`, fetched on mount and shown as
  the select's options) is not modelled: the select's value is taken as given
  by `ChooseCategory`.
- AddArticle.AddArticlePage.Cancel: the `router.back()` it ends with has no
  target path (it depends on the browser history) and is not modelled.
