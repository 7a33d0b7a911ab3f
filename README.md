# Real-estate listing browser: property store, pagination, session and routing

This project models the client-side core of a small real-estate listing web
application (`app.js`). The application fetches a flat list of property
records once. It shows them as a featured strip, as sale/rent tabs and as a
paginated full listing that the user can search. It routes between pages by
the location fragment (`#home`, `#properties`, ...). It also simulates
sign-in, sign-up and a newsletter form, and keeps the session in the
browser's local storage.

Modules:

- `Wrappers` (wrappers.dfy): `Option`, which stands for a value or `null`.
- `Text` (text.dfy): the string operations the code borrows from JavaScript:
  ASCII `toLowerCase`/`toUpperCase`, `includes`, `split('@')[0]` and
  upper-casing the first character.
- `Listing` (listing.dfy): the property record, and the pure selections over
  it. These are the featured strip, the parity-based sale/rent tabs, the
  search and type filter, the page slice, the page count and the pagination
  window. JavaScript's `Array.prototype.slice` is written out with its
  clamping rules.
- `Store` (store.dfy): class `PropertyStore`, which holds `allProperties`,
  `filteredProperties` and `currentPage`. Its methods are `Load`,
  `ApplyFilters`, `ClearFilters` and `ChangePage`; they change the fields in
  place and return what would be rendered. `UpdatePagination` builds the
  numbered buttons in a loop, as the source does.
- `Session` (session.dfy): sign-up validation with its ordered checks, the
  sign-in rule, the display name, and the newsletter check. Class
  `SessionManager` holds `currentUser` and local storage, a map from key to
  text. It has methods for sign-in, sign-up, logout and start-up rehydration.
  Two module-level client methods, `LoginSurvivesReload` and
  `LogoutSurvivesReload`, drive a store through a reload round trip.
- `Router` (router.dfy): resolving the fragment and the page `showPage`
  activates. Class `PageController` holds the fragment, the active page set
  and the navigation-link highlight.

Outside inputs become parameters:

- `Math.random()` in the type filter becomes `draws: seq<real>`, one draw per
  record. A record passes the type filter when no type is selected or its draw
  exceeds 0.3.
- `Date.now()` in the mock user id becomes an opaque `stamp`.
- `JSON.stringify` and `JSON.parse` become function parameters `serialize`
  and `parse`. A failed parse is `None`. The method `LoginSurvivesReload` requires
  `parse(serialize(u)) == Some(u)` and that a serialized user is non-empty.
- The declared page ids (the `<id>-page` elements) and the navigation links'
  `href`s are constructor parameters of `PageController`.

Behaviour of the code that the model keeps, although a reader might expect
otherwise:

- Loading records does not reset the page index (app.js:187-188). So the
  model's store invariant is only `currentPage >= 1` and `filtered` being an
  order-preserving subsequence of `all`. It does not claim that the page index
  is clamped to the page count.
- The type filter is random, not a deterministic rule (app.js:375).
- The sale/rent tabs choose records by index parity. Any tab name other than
  `"sale"` selects the odd indices (app.js:237-239).
- If no home page is declared, an unknown page leaves no page active and does
  not touch the fragment (app.js:131-135).
- The navigation highlight uses the resolved name before any fallback to home,
  so `#nonexistent` highlights no link until the redirect is routed
  (app.js:110-112).
- `displayAllProperties` returns before `updatePagination` when the page is
  empty, so the controls are then left as they were (app.js:259-262).

## Model

| member | source | states |
|---|---|---|
| `Text.Lower` | app.js:363-372 | lower-casing keeps the length, leaves no upper-case ASCII letter, and changes no character that is not one |
| `Text.IncludesIff` | app.js:368-372 | `includes` holds exactly when the term occurs at some index of the string (both directions) |
| `Text.BeforeAt` | app.js:502 | `split('@')[0]` is a prefix of the email with no '@', followed in the email by '@' or by nothing |
| `Text.Capitalize` | app.js:502 | only the first character is upper-cased; length and the rest are kept |
| `Listing.JsSlice` | app.js:257 | for non-negative bounds, `slice` is empty from the end on and is otherwise clamped to the length |
| `Listing.Featured` | app.js:220 | the featured strip is the prefix of `allProperties` of length min(6, n) |
| `Listing.WithParity` | app.js:237-238 | the index-parity filter holds every second record from the first index of that parity, with its count |
| `Listing.ByType` | app.js:237-239 | a tab holds min(8, number of indices of its parity) records; its i-th is `allProperties[2i + parity]`, in order |
| `Listing.TabsDisjoint` | app.js:238 | the sale tab and the rent tab never take the same index |
| `Listing.TabsPartition` | app.js:237-239 | each of the first 16 records is in exactly the tab of its index parity, at position index/2 |
| `Listing.MatchesSearch` | app.js:367-372 | definition of the search test: an empty term, or the term in one of the five lower-cased fields; characterised by `SearchMatchesMembers` |
| `Listing.MatchesType` | app.js:375 | definition of the type test: no type selected, or the record's draw above 0.3; characterised by `FilterWithoutType` |
| `Listing.SearchMatches` | app.js:366-373 | no longer than the records, and every record it keeps matches the term |
| `Listing.FilterProperties` | app.js:366-378 | no longer than the records, every record it keeps matches the term, and with no type it is as long as the search matches |
| `Listing.SearchMatchesSubsequence` | app.js:366-373 | the search matches are an order-preserving subsequence of the loaded records |
| `Listing.SearchMatchesCounts` | app.js:366-373 | each matching record keeps all its occurrences and each other record has none |
| `Listing.SearchMatchesMembers` | app.js:366-373 | a record is a search match exactly when it is loaded and matches the term in one of the five fields |
| `Listing.EmptySearchKeepsAll` | app.js:367 | an empty search term keeps every record, in order |
| `Listing.FilterWithoutType` | app.js:375-377 | with no type selected the filter is exactly the search filter, whatever the draws |
| `Listing.FilterWithinSearch` | app.js:366-378 | with a type selected the result is still an order-preserving subsequence of the search matches |
| `Listing.FilterWithinAll` | app.js:366-378 | the filter result is always an order-preserving subsequence of `allProperties` |
| `Listing.FilteredMatchSearch` | app.js:366-378 | every record the filter keeps is loaded and matches the search term |
| `Listing.TotalPages` | app.js:401 | `Math.ceil(n / 12)`: zero exactly for no records; the least page count holding all n records |
| `Listing.PageSlice` | app.js:255-257 | page p has at most 12 records, is empty exactly when (p-1)*12 >= n, and is otherwise `filtered[(p-1)*12 .. min(p*12, n))` |
| `Listing.PagesFromCover` | app.js:255-257 | the pages from p to the last one show the records from (p-1)*12 on, in order |
| `Listing.PagesCover` | app.js:255-257 | pages 1 to totalPages concatenated give `filtered` exactly: nothing skipped or repeated |
| `Listing.PageAccepted` | app.js:441 | definition of the guard of `changePage` (page within 1..totalPages); characterised by `DisabledMatchesGuard` and `ChangePage` |
| `Listing.PageRange` | app.js:418-427 | one button per page from lo to hi, in range, and exactly the current page's button active |
| `Listing.Pagination` | app.js:401-434 | controls exactly when there is more than one page; Previous disabled exactly on page 1, Next exactly on the last page |
| `Listing.PaginationShown` | app.js:403-406 | pagination controls exist exactly when there is more than one page |
| `Listing.PaginationWindow` | app.js:418-427 | at most 5 consecutive numbered buttons, all existing pages; the current page is among them iff 1 <= p <= totalPages, and only its button is active |
| `Listing.DisabledMatchesGuard` | app.js:410-441 | on an existing page, Previous and Next are disabled exactly when `changePage` would ignore their target; every numbered button's page is accepted |
| `Store.PropertyStore.constructor` | app.js:15-19 | the store starts with no records and on page 1 |
| `Store.PropertyStore.UpdatePagination` | app.js:397-437 | the loop's buttons are those of the pagination window; no controls iff at most one page |
| `Store.PropertyStore.DisplayAllProperties` | app.js:251-269 | an empty page gives the placeholder with no pagination update; otherwise the page slice and its controls |
| `Store.PropertyStore.Load` | app.js:187-191 | `all` and `filtered` become the fetched records, the page index is unchanged, and the featured strip and sale tab are rendered from them |
| `Store.PropertyStore.ApplyFilters` | app.js:359-382 | `filtered` is the lower-cased search and type filter of `all`, within the search matches, equal to them without a type; page 1 is shown |
| `Store.PropertyStore.ClearFilters` | app.js:384-394 | `filtered` equals `all` (same records, same order) and page 1 is shown, whatever the prior state |
| `Store.PropertyStore.ChangePage` | app.js:439-445 | a page outside 1..totalPages changes nothing (so every call does nothing while `filtered` is empty); otherwise it becomes current and is shown |
| `Store.ClearEqualsEmptyFilter` | app.js:366-378 | clearing the filters gives the same result as applying an empty search with no type |
| `Session.ValidateSignup` | app.js:533-552 | sign-up reports the first failing check, in the source's order: missing field, mismatch, short password, terms; success iff all pass |
| `Session.SignupOkSignsIn` | app.js:492 | credentials that pass sign-up validation are accepted by sign-in |
| `Session.DisplayName` | app.js:502 | the name is the part of the email before its first '@' with its first character upper-cased; it is empty iff the email is empty or starts with '@' |
| `Session.SignupMessage` | app.js:535-561 | the dialog for each outcome; its title is "Success" exactly for a valid sign-up, "Error" otherwise |
| `Session.SignInAccepted` | app.js:492 | definition of the sign-in rule (non-empty email, password of at least 6 characters); characterised by `SignupOkSignsIn` and `HandleLogin` |
| `Session.NewUser` | app.js:500-504 | the new user keeps the email, takes the display name, and has the id `mock-uid-` followed by the time stamp |
| `Session.NewsletterAccepted` | app.js:605 | definition of the newsletter check; characterised by `NewsletterAcceptsAt` |
| `Session.NewsletterAcceptsAt` | app.js:605 | the newsletter accepts an address exactly when it contains '@' |
| `Session.SessionManager.constructor` | app.js:15 | at page load nobody is signed in and storage is as the browser kept it |
| `Session.SessionManager.CheckAuthState` | app.js:451-462 | a non-empty stored session that parses becomes the current user; one that fails to parse is removed and the user is kept |
| `Session.SessionManager.HandleLogin` | app.js:484-521 | accepted iff the email is non-empty and the password has at least 6 characters; success sets and stores the new user, failure changes nothing |
| `Session.SessionManager.HandleSignup` | app.js:523-571 | the outcome is the first failing check (or success) with its dialog; the method changes no state, so a successful sign-up signs nobody in and stores nothing |
| `Session.SessionManager.Logout` | app.js:573-575 | nobody is signed in and the stored copy is removed |
| `Session.LoginSurvivesReload` | app.js:499-506 | after signing in and reloading, the rehydrated user is the one who signed in |
| `Session.LogoutSurvivesReload` | app.js:573-575 | after logging out and reloading, nobody is signed in and the key is absent |
| `Router.Resolve` | app.js:110 | the resolved page name is never empty; characterised by `ResolveHome` |
| `Router.ActivePages` | app.js:115-137 | at most one page is active, always a declared one, and the requested page is active exactly when it is declared |
| `Router.Redirects` | app.js:129-135 | definition of the fallback condition (requested page undeclared, home declared); characterised by `RedirectSettles` and `ShowPage` |
| `Router.IsCurrentLink` | app.js:144-145 | definition of `href.slice(1) === currentPage`; used by `UpdateNavigation` |
| `Router.ResolveHome` | app.js:110 | an empty fragment resolves to `home`; any other resolves to the text after '#'; never to the empty name |
| `Router.ExactlyOneActive` | app.js:115-137 | with a home page declared, exactly one declared page is active afterwards: the requested one if declared, else home |
| `Router.RedirectSettles` | app.js:129-135 | after the redirect the fragment resolves to home, which shows home and redirects no further |
| `Router.PageController.constructor` | app.js:116-117 | the controller starts with the declared pages, links and fragment, no page active and no link highlighted |
| `Router.PageController.ShowPage` | app.js:115-137 | only the requested page is active if declared, else home, and then the fragment becomes `#home`; the listing is rendered iff the page is `properties` |
| `Router.PageController.UpdateNavigation` | app.js:139-154 | each link with an `href` is highlighted iff it names the current page; links without one keep their style |
| `Router.PageController.HandleRouting` | app.js:109-113 | the resolved fragment is shown and highlighted |
| `Router.PageController.OnLoad` | app.js:721-727 | an empty fragment is first set to `#home`; then the pages activated, the final fragment (after any redirect), whether the listing is rendered and the link highlight are those of routing that fragment |

## Left out

- Network: the `fetch` call, the response check and the loading and error banners (app.js:179-213). `Load` models only the success path.
- DOM rendering, which is presentation only: card HTML (`createPropertyCard`), the random sale/rent badge on listing cards, the contact-or-login button, the auth area (`updateAuthUI`), modals, mobile navigation, tab-button activation (`showPropertyTab`) and event wiring.
- `searchProperties`, the hero search (app.js:339-354), is not modelled as an operation. It lower-cases the hero term, sets the fragment to `properties` (a routing step the model does not take), and after a timer copies the term and the type into the listing's form and calls `applyFilters`. `ApplyFilters` takes those two values as parameters.
- Timers (`setTimeout`): every delayed step is taken as immediate. The navigation to `#home` or `#login` after the success dialogs of sign-in, sign-up and logout is not modelled.
- Randomness: the type filter's draws are a parameter. The image-error fallback is left out.
- `JSON.parse` that yields a value other than a user object (for example `"null"`) is not told apart from a user. `parse` either gives a user or fails.
- Case mapping covers ASCII letters only. JavaScript's full Unicode `toLowerCase`/`toUpperCase` is a foreign call.
- String lengths count characters, not UTF-16 code units.
- A form field absent from `FormData` (`null`) is treated as the empty string. The exception `password.length` would throw on `null` is not modelled.
- `formatPrice` and `formatDate`, which depend on `Intl` and `Date`; lazy image loading; the service-worker stub; the Firebase configuration and endpoint constants.
