# OSAKA Television site: admin workflows and catalogue, modelled in Dafny

This project models the client-side logic of a small television retailer's web
site: the hero-slide admin page (add and edit dialog, image upload, save,
delete), the public hero carousel, the admin products page (list, counters,
active/inactive switch), the admin dashboard counters, the public page's
catalogue sections, and the password gate of the admin area (login, guard,
logout).

Each React page becomes a Dafny `class` whose fields are the page's state
variables. Each event handler becomes a method that changes those fields. The
pure parts are module-level functions with their own contracts: the upload
checks, the object-key construction, the save payload, the counters, the
category filters and the section order. Every call to the outside world enters
as a parameter of the handler that makes it:

- a select is a `FetchOutcome` (`Fetched(data)`, where data may be null, or `FetchFailed`);
- an insert, update or delete is a `WriteOutcome` (`Written` or `WriteFailed`);
- a storage upload is an `UploadOutcome` (`Uploaded(publicUrl)` or `UploadFailed`);
- the answer to `confirm(...)` is a boolean;
- `Math.random().toString(36).substring(2)` is a string token, and `Date.now()` is a natural number;
- `localStorage` and the router are the two fields of a `Browser.Window` object.

Handlers that send a request return it (the select as an `Outcomes.Select`, the
write, the object key), and handlers that re-fetch after a write also return
that second select, so that "no request is made" is a statement about the
results.

Timers are discrete events. The 500 ms login delay is `AdminLogin.LoginPage.DelayElapsed`,
and the 5000 ms carousel interval is `HeroCarousel.Carousel.Tick`.

Shared files: `outcomes.dfy`, `sequences.dfy` (JavaScript's `filter`), `text.dfy`
(`${n}` and `parseInt(s) || 0`), `catalog.dfy` (the product record) and
`browser.dfy` (the `localStorage` and router state of the two admin pages).
Then one file per page: `hero_admin.dfy`, `hero_carousel.dfy`,
`products_admin.dfy`, `dashboard_home.dfy`, `home_page.dfy`, `admin_login.dfy`,
`dashboard_layout.dfy`.

The model follows the code as written; in particular:

- The dashboard guard accepts any non-empty stored value, not only the flag `'true'`.
- The public page does not filter on `is_active` itself. It asks the store for active rows only, so "only active products are shown" holds only when the store honours that query (`HomePage.ShownAreActive`).
- The section order is the five literal sections 24, 32, 43, 50 and 65 inch. Products of any other category are never shown.
- `fetchSlides` sets `loading` before the select, but the products pages' `fetchProducts` do not.

## Model

| member | source | states |
|---|---|---|
| `HeroAdmin.CheckUpload` | app/admin/dashboard/hero/page.tsx:79-92 | a file is accepted exactly when one is picked, its type starts with `image/` and its size is at most 5·1024·1024 bytes (exactly 5 MiB passes); a missing file and a non-image type are rejected, in that order of checks |
| `HeroAdmin.FileExtension` | app/admin/dashboard/hero/page.tsx:97 | the result is the longest dot-free suffix of the name: a suffix without `.`, preceded by a `.` when the name has one, and the whole name when it has none |
| `HeroAdmin.ObjectKey` | app/admin/dashboard/hero/page.tsx:97-98 | the object key starts with the random token and `-`, and is at least three characters longer than the token and the extension together (the dash, a digit, the dot) |
| `HeroAdmin.ObjectKeyShape` | app/admin/dashboard/hero/page.tsx:97-99 | the object key's own extension (the text after its last dot) is the uploaded file's extension |
| `HeroAdmin.ObjectKeyTimestamp` | app/admin/dashboard/hero/page.tsx:98 | the key is the token, `-`, a non-empty run of decimal digits that reads back as `Date.now()`, `.` and the file's extension |
| `HeroAdmin.FileExtensionAfterDot` | app/admin/dashboard/hero/page.tsx:97 | for any prefix and any dot-free tail, the extension of `prefix + "." + tail` is the tail |
| `HeroAdmin.FormFor` | app/admin/dashboard/hero/page.tsx:60-74 | opening for add gives the empty form (`''`, `''`, `''`, 0); opening for edit copies title, image URL and order, and a null description becomes `''` |
| `HeroAdmin.PayloadOf` | app/admin/dashboard/hero/page.tsx:140-146 | the payload carries the form's title, description, image URL and display order, and is always active |
| `HeroAdmin.SaveRequest` | app/admin/dashboard/hero/page.tsx:133-155 | no write exactly when the title or the image URL is empty; otherwise the payload of the form, an update of the selected slide's id when editing and an insert when adding |
| `HeroAdmin.SaveThenReopen` | app/admin/dashboard/hero/page.tsx:60-69 | saving a form and reopening the stored row for edit shows the very same form, and the stored row is active |
| `HeroAdmin.HeroPage.constructor` | app/admin/dashboard/hero/page.tsx:25-38 | the initial page state: no slides, loading, empty form and preview, closed dialog, no selection |
| `HeroAdmin.HeroPage.FetchSlides` | app/admin/dashboard/hero/page.tsx:44-58 | every slide ordered by `display_order` is requested; on error the list is unchanged, otherwise it is `data \|\| []`; loading ends either way; the preview invariant holds |
| `HeroAdmin.HeroPage.OpenDialog` | app/admin/dashboard/hero/page.tsx:60-76 | selection, form and preview are set from the slide (or emptied), keeping preview = form image URL, and the dialog opens |
| `HeroAdmin.HeroPage.CloseDialog` | app/admin/dashboard/hero/page.tsx:357 | only the dialog closes |
| `HeroAdmin.HeroPage.ImageUpload` | app/admin/dashboard/hero/page.tsx:78-125 | a rejected file makes no upload and changes nothing; an accepted one is uploaded under `ObjectKey(token, now, name)`; on success form URL and preview both become the public URL, on failure the form is unchanged; uploading has ended afterwards |
| `HeroAdmin.HeroPage.RemoveImage` | app/admin/dashboard/hero/page.tsx:127-130 | the form's image URL and the preview are both cleared; nothing else changes |
| `HeroAdmin.HeroPage.EditImageUrl` | app/admin/dashboard/hero/page.tsx:334-337 | the manual URL field sets the form URL and the preview to the same text |
| `HeroAdmin.HeroPage.EditTitle` | app/admin/dashboard/hero/page.tsx:257 | only the form's title changes |
| `HeroAdmin.HeroPage.EditDescription` | app/admin/dashboard/hero/page.tsx:268 | only the form's description changes |
| `HeroAdmin.HeroPage.EditDisplayOrder` | app/admin/dashboard/hero/page.tsx:350 | only the form's display order changes, to `parseInt(text) \|\| 0` |
| `HeroAdmin.HeroPage.Save` | app/admin/dashboard/hero/page.tsx:132-168 | the write issued is `SaveRequest` of the selection and form; with none the page is unchanged; on success the dialog closes and the list is re-fetched, and the re-fetch select is returned exactly then; on failure dialog and list stay; saving has ended; the form is untouched |
| `HeroAdmin.HeroPage.Delete` | app/admin/dashboard/hero/page.tsx:170-180 | a declined confirm makes no call and changes nothing; a failed delete changes nothing; only a successful one re-fetches the list, and the re-fetch select is returned exactly then |
| `HeroCarousel.NextIndex` | components/HeroCarousel.tsx:29 | the tick stays in range, moves to the next index, and wraps from the last index to 0 |
| `HeroCarousel.FullCycle` | components/HeroCarousel.tsx:29 | `slides.length` consecutive ticks return to the starting index |
| `HeroCarousel.AfterTicksAdd` | components/HeroCarousel.tsx:28-30 | `a` ticks followed by `b` ticks are `a + b` ticks |
| `HeroCarousel.AfterTicksBeforeWrap` | components/HeroCarousel.tsx:29 | before the wrap each tick advances the index by one |
| `HeroCarousel.AfterTicksInRange` | components/HeroCarousel.tsx:28-30 | after any number of ticks the index is still in range |
| `HeroCarousel.ExactlyOneSelected` | components/HeroCarousel.tsx:40-41 | with the index in range, exactly one slide flag (and dot flag) is on, and it is the one at the index |
| `HeroCarousel.SelectedFlags` | components/HeroCarousel.tsx:40-41 | one flag per slide (and per dot, lines 83-85), on exactly at the index equal to `currentSlide` |
| `HeroCarousel.SingleOn` | components/HeroCarousel.tsx:83-85 | a flag list that is on exactly at one position has exactly one flag on |
| `HeroCarousel.Carousel.constructor` | components/HeroCarousel.tsx:7 | the carousel starts at slide 0 |
| `HeroCarousel.Carousel.Tick` | components/HeroCarousel.tsx:28-30 | the index becomes `NextIndex` of the old one and stays in range |
| `HeroCarousel.Carousel.SelectDot` | components/HeroCarousel.tsx:79-82 | a dot click sets the index to that dot's index, which is in range |
| `HeroCarousel.Carousel.Visibility` | components/HeroCarousel.tsx:37-43 | one flag per slide, exactly one of them on, the one at `currentSlide` |
| `Outcomes.Refreshed` | app/admin/dashboard/hero/page.tsx:51-56 | after a failed select the list is the one held before; after a successful one it is the returned rows, and `[]` when the data is null (likewise app/admin/dashboard/products/page.tsx:34-38 and app/page.tsx:37-41) |
| `Text.DecimalString` | app/admin/dashboard/hero/page.tsx:98 | the decimal text of `Date.now()` is non-empty, all digits, and has no leading zero unless the number is 0 |
| `Text.DigitsValueOfDecimal` | app/admin/dashboard/hero/page.tsx:98 | reading the decimal text back as digits gives the number |
| `Text.ParseOrZero` | app/admin/dashboard/hero/page.tsx:350 | `parseInt(text) \|\| 0` of a text with no digit at all is 0 |
| `Text.ParseOrZeroOfDecimal` | app/admin/dashboard/hero/page.tsx:350 | the decimal text of a number parses back to that number |
| `Text.ParseOrZeroOfNegatedDecimal` | app/admin/dashboard/hero/page.tsx:350 | a minus sign followed by the decimal text of a number parses back to its negation |
| `Sequences.Filter` | app/page.tsx:45-47 | the result is no longer than the input; each kept element is in the input and satisfies the condition; each input element satisfying it is kept |
| `Sequences.FilterConcat` | app/page.tsx:45-47 | filtering a concatenation is the concatenation of the filters, so the kept elements keep their original order |
| `Sequences.FilterKeepsAll` | app/admin/dashboard/page.tsx:25 | a filter that keeps every element returns the input unchanged |
| `Sequences.FilterComplementLength` | app/admin/dashboard/products/page.tsx:100-114 | two filters with opposite conditions have lengths adding up to the input's length |
| `Catalog.ActiveProducts` | app/admin/dashboard/products/page.tsx:100 | exactly the active products of the list |
| `Catalog.InactiveProducts` | app/admin/dashboard/products/page.tsx:114 | exactly the inactive products of the list |
| `Catalog.ActiveInactivePartition` | app/admin/dashboard/products/page.tsx:87-114 | the active count plus the inactive count is the total |
| `Catalog.ApplyStatusUpdate` | app/admin/dashboard/products/page.tsx:43-46 | the update by id changes only `is_active`, only of rows with that id, and keeps the table's length |
| `ProductsAdmin.CountsOf` | app/admin/dashboard/products/page.tsx:87-114 | total = length, active and inactive are the two filter lengths, and they add up to the total |
| `ProductsAdmin.ToggleRequest` | app/admin/dashboard/products/page.tsx:42-46 | the request is for exactly the given id and carries the negated status |
| `ProductsAdmin.ToggleFlipsOnlyThatRow` | app/admin/dashboard/products/page.tsx:42-46 | applying a product's toggle flips that product's status and leaves every row with another id as it was |
| `ProductsAdmin.ToggleTwiceRestores` | app/admin/dashboard/products/page.tsx:42-46 | toggling a product and then toggling it back (with its new status) restores the whole table |
| `ProductsAdmin.ProductsPage.constructor` | app/admin/dashboard/products/page.tsx:21-22 | an empty list, loading |
| `ProductsAdmin.ProductsPage.FetchProducts` | app/admin/dashboard/products/page.tsx:28-40 | all products ordered by category are requested; on error the list is unchanged, otherwise it is `data \|\| []`; loading ends either way |
| `ProductsAdmin.ProductsPage.ToggleActive` | app/admin/dashboard/products/page.tsx:42-51 | sends the negated status for the id; re-fetches only on success, returning the re-fetch select exactly then; on error the page is unchanged |
| `ProductsAdmin.ProductsPage.Counters` | app/admin/dashboard/products/page.tsx:82-121 | the shown active and inactive counts add up to the shown total, the list's length |
| `DashboardHome.StatsOf` | app/admin/dashboard/page.tsx:22-27 | total = number of rows, active and inactive count the rows by `is_active`, and they add up to the total |
| `DashboardHome.UniformStatusStats` | app/admin/dashboard/page.tsx:22-27 | all-active rows give (n, n, 0) and all-inactive rows give (n, 0, n) |
| `DashboardHome.DashboardPage.constructor` | app/admin/dashboard/page.tsx:9-13 | the counters start at zero |
| `DashboardHome.DashboardPage.FetchStats` | app/admin/dashboard/page.tsx:19-29 | only the `is_active` column of `products` is requested; after an error or with null data the counters are unchanged; with data (an empty array too) they are `StatsOf(data)` |
| `HomePage.ProductsByCategory` | app/page.tsx:45-47 | exactly the products whose category equals the given one |
| `HomePage.ProductsByCategoryConcat` | app/page.tsx:45-47 | grouping keeps the order of the list |
| `HomePage.SectionsFor` | app/page.tsx:125-220 | each rendered section is non-empty and holds that category's products; the headings are the fixed category order with the empty categories removed |
| `HomePage.Sections` | app/page.tsx:125-220 | at most five sections, in the fixed order 24, 32, 43, 50, 65 inch, each non-empty and holding exactly its size's products; the headings are that order with the empty sizes removed |
| `HomePage.Headings` | app/page.tsx:129-131 | one heading per section, its category |
| `HomePage.ShownIff` | app/page.tsx:125-220 | a product is shown exactly when it is in the list and its category is one of the five sections; any other category is never shown |
| `HomePage.ShownAreActive` | app/page.tsx:31-35 | when the store honours the active-only query, no inactive product is shown |
| `HomePage.Home.constructor` | app/page.tsx:23-24 | an empty list, loading |
| `HomePage.Home.FetchProducts` | app/page.tsx:30-43 | only active products ordered by category are requested; on error the list is unchanged, otherwise it is `data \|\| []`; loading ends either way |
| `HomePage.Home.Rendered` | app/page.tsx:120-221 | nothing while loading; afterwards the sections in the fixed order, empty ones hidden |
| `Browser.GetItem` | app/admin/dashboard/layout.tsx:15 | the stored value when the key is present, null otherwise |
| `AdminLogin.PasswordMatches` | app/admin/page.tsx:23 | a password matches exactly when it has the length of `osaka2026` and agrees with it character by character, case included |
| `AdminLogin.PasswordIsCaseSensitive` | app/admin/page.tsx:23 | three near-misses (`OSAKA2026`, `Osaka2026`, `osaka2026 `) are rejected and the exact text is accepted |
| `AdminLogin.LoginPage.constructor` | app/admin/page.tsx:11-13 | empty password, no error, not loading |
| `AdminLogin.LoginPage.EditPassword` | app/admin/page.tsx:64-72 | typing is possible only while the field is enabled and changes only the password |
| `AdminLogin.LoginPage.Submit` | app/admin/page.tsx:16-19 | submitting (only while the button is enabled) clears the error and starts loading, which disables both controls; storage and location are untouched |
| `AdminLogin.LoginPage.DelayElapsed` | app/admin/page.tsx:22-30 | only the exact, case-sensitive text `osaka2026` matches: it stores `adminAuth = 'true'` and goes to `/admin/dashboard`; any other leaves the storage and location, sets the error message and ends loading |
| `DashboardLayout.Authorised` | app/admin/dashboard/layout.tsx:16 | the stored flag fails exactly when it is null or the empty string, JavaScript's two falsy string values |
| `DashboardLayout.Guarded` | app/admin/dashboard/layout.tsx:14-19 | the guard redirects to `/admin` when the flag is absent or empty, and lets any non-empty value through |
| `DashboardLayout.LoggedOut` | app/admin/dashboard/layout.tsx:22 | removing the flag keeps every other stored key and value |
| `DashboardLayout.LogoutThenGuard` | app/admin/dashboard/layout.tsx:15-24 | logout followed by the guard ends on `/admin` |
| `DashboardLayout.LoginThenGuard` | app/admin/page.tsx:24 | the flag written by a successful login passes the guard |
| `DashboardLayout.Layout.Guard` | app/admin/dashboard/layout.tsx:14-19 | storage is unchanged and the location is `Guarded` of the old state |
| `DashboardLayout.Layout.Logout` | app/admin/dashboard/layout.tsx:21-24 | the flag is removed and the location is `/admin` |
| `DashboardLayout.LogoutAndReload` | app/admin/dashboard/layout.tsx:15-24 | after logout and the guard the flag is absent and the router is on `/admin` |

## Left out

- The hosted datastore and object storage: server-side ordering (`order('display_order')`, `order('category')`), filtering and constraint checks are not modelled. Their answers are parameters.
- `getPublicUrl` is folded into the upload outcome, as the public URL it returns.
- Real time: the 500 ms login delay and the 5000 ms carousel interval are single events (`DelayElapsed`, `Tick`), and clearing the interval on unmount is not modelled.
- Asynchronous interleaving: each handler runs to completion before the next event, and its awaited calls come back in order. Overlapping requests are not modelled. Neither is React's stale `formData` captured by a pending upload, nor the fact that a re-fetch after save, delete or toggle is not awaited.
- `Text.ParseOrZero`: models `parseInt` with an optional sign, leading decimal digits and ASCII white space only. It does not model the `0x` radix prefix, Unicode white space or the float precision loss beyond 2^53. A number input never yields the first two.
- `Math.random` and `Date.now` are parameters; the model does not claim that keys never collide.
- Toasts, `console.error`, price formatting with `toLocaleString`, and all JSX and CSS rendering other than the visibility flags and section headings.
- The products page's Add, Edit and Delete buttons have no handlers in the code, so they have no model.
- The static About, Gallery and Contact sections, the "Messages 0" card, and the components Footer, Navbar, SocialLinks and TVCard are static markup.
- The product-type list and the category, model and type name composition have no code among the modelled files, so they are not part of this model.
- The dialog's `disabled={isSaving || isUploading}` on the save button, `disabled={isUploading}` on the file input, and the `{!imagePreview ? …}` condition (app/admin/dashboard/hero/page.tsx:278) under which the file input exists only while no preview is shown: the handlers are modelled without these UI guards, so `Save` and `ImageUpload` may be called in any state.
