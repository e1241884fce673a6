# Palm Beach real-estate site: the rules under the pages

This project is a Dafny model of the logic in a bilingual, Arabic-first real-estate
listing site. The site is written in TypeScript on Next.js and uses a hosted Postgres and
auth service. The markup and service calls are set aside. What remains is modelled and
proved:

- **The listing page.** This covers the filter, sort and window of the browse query, the
  capped free-text search, and how URL parameters become a filter record. It also covers
  the page count.
- **The pagination bar.** This covers the strip of page numbers with its `...` markers,
  the "showing a - b of n" line, the previous/next buttons, and the links they follow.
- **The filter panel.** This covers the toggles and range setters, the active-filter
  count, the reset, and the URL parameters the search button writes. The listing page
  reads those parameters back.
- **The JSON endpoints.** These are inquiry intake, favourite removal, profile update and
  password change. Each is modelled as a guarded change to a table. Each outcome carries
  the HTTP status and message the endpoint answers with.
- **The sign-in callback.** This covers its redirect rules, and the rule that creates a
  profile only when one is absent.
- **The dashboard.** This covers the batched join of favourites and inquiries to their
  properties, and the redirect for visitors who are not signed in. It also covers profile
  auto-creation, the inquiry filters and counts, and the removal of a favourite from the
  list on screen. The activity score is included too.
- **The client forms.** These are the registration and profile-settings forms, with
  their password checks and one-field-at-a-time edits.
- **The photo gallery.** This covers its cyclic image indices.

Storage is a Dafny sequence or map. The signed-in user is an `Option` parameter. Each
failure of the storage or auth service is a boolean parameter, and so is the URL
parser's rejection of a redirect target. A request body that is
`null` or not valid JSON is `None`: reading or destructuring it throws, which leads to
the catch-all 500 answer. Any other body that is not an object (a number, a string, an
array) destructures to absent fields and goes through the ordinary checks. The JavaScript
semantics the code relies on are written out in `JsText`:

- truthiness;
- `String.prototype.trim` over the ECMAScript white-space set;
- UTF-16 `length`;
- `parseInt` and number-to-string conversion, with a proved round trip;
- case-insensitive substring matching.

Modules: `Wrappers`, `JsText` and `Seqs` (shared), `Listing`, `Ordering`,
`PropertiesPage`, `Pagination`, `FilterPanel`, `Http`, `InquiryIntake`,
`FavoriteRemoval`, `Accounts`, `ProfileUpdate`, `ChangePassword`, `AuthCallback`,
`Dashboard`, `InquiriesList`, `FavoritesList`, `DashboardStats`, `ProfileSettings`,
`Registration`, `Gallery`.

## Model

| member | source | states |
|---|---|---|
| Listing.Bound | src/app/properties/page.tsx:37-59 | a numeric filter value imposes a bound exactly when it is truthy, that is, a number other than 0 and not NaN; the bound is that number |
| Listing.NoFiltersAcceptAll | src/app/properties/page.tsx:33-63 | the empty filter record lets every row through |
| Listing.FalsyBoundIsIgnored | src/app/properties/page.tsx:37-59 | setting any of the six numeric filters to 0 or NaN selects exactly the rows that leaving it unset selects |
| Listing.FiltersAreConjunctive | src/app/properties/page.tsx:33-63 | a row satisfies the filters exactly when it satisfies each filter set on its own |
| Listing.SingleFilterMeaning | src/app/properties/page.tsx:33-63 | on its own, the type list admits the listed types (all when empty), each numeric filter is a `>=` or `<=` bound on its column unless it is 0 or NaN, and the location is a case-insensitive substring of either location column unless empty |
| Listing.EmptySearchMatchesAll | src/app/properties/page.tsx:111 | an empty search term matches every row |
| Listing.SearchIgnoresCase | src/app/properties/page.tsx:61-111 | the search and the location filter match the same rows for a term and its lower-case form |
| JsText.EmptyTermMatchesEverything | src/app/properties/page.tsx:61-62 | the pattern `%%` built from an empty term matches every field |
| Ordering.ParseSort | src/app/properties/page.tsx:66-87 | the sort key is the default featured-first order exactly when the name is none of the six known ones |
| Ordering.PrecedesTotal | src/app/properties/page.tsx:66-87 | under every sort key any two rows are comparable |
| Ordering.PrecedesTransitive | src/app/properties/page.tsx:66-87 | under every sort key the order is transitive, featured-then-newest included |
| Ordering.Sort | src/app/properties/page.tsx:66-87 | the result is sorted by the key and is a permutation (same multiset) of the rows |
| Ordering.SortedMeaning | src/app/properties/page.tsx:66-87 | in a sorted list, price, area or creation time are non-decreasing or non-increasing as the key says; under the default order every featured row precedes every other, and rows in the same group are newest first |
| PropertiesPage.AddAtLeast | src/app/properties/page.tsx:37-55 | appending a `gte` clause for a filter keeps the query's clauses equivalent to "available and every filter checked so far, this one included" |
| PropertiesPage.AddAtMost | src/app/properties/page.tsx:41-59 | the same for an `lte` clause |
| PropertiesPage.FilterClauses | src/app/properties/page.tsx:27-63 | the clauses the builder accumulates hold of a row exactly when it is available and satisfies every active filter |
| PropertiesPage.BuildQuery | src/app/properties/page.tsx:24-92 | the built query selects exactly the available rows satisfying the filters, orders by the parsed sort key and asks for rows `(page-1)*12 .. (page-1)*12+11`; a NaN page gives a NaN range |
| PropertiesPage.RangeRows | src/app/properties/page.tsx:92 | `range(from, to)` returns at most `to-from+1` rows, each the row at its position `from+i`, and exactly that many when they all exist |
| PropertiesPage.RangeRowsOfSorted | src/app/properties/page.tsx:92 | a range of a sorted list is sorted and holds only elements of that list |
| PropertiesPage.Admitted | src/app/properties/page.tsx:33-63 | the rows every clause admits: exactly the table rows that satisfy all clauses, no more of them than the table holds |
| PropertiesPage.Execute | src/app/properties/page.tsx:27-94 | the service fails exactly when the range is NaN, its offset is negative, or its offset is past the number of admitted rows; otherwise it returns rows of the table that every clause admits, sorted by the order, with the count of admitted rows, and no more rows than that count |
| PropertiesPage.Matching | src/app/properties/page.tsx:27-63 | a row is selected exactly when it is in the table, available and satisfies every filter |
| PropertiesPage.Window | src/app/properties/page.tsx:89-92 | page `p` holds at most 12 rows, the i-th being row `(p-1)*12+i` of the ordered result |
| PropertiesPage.WindowElements | src/app/properties/page.tsx:89-92 | every row on a page comes from the ordered result |
| PropertiesPage.WindowSorted | src/app/properties/page.tsx:89-92 | a page of a sorted result is itself sorted |
| PropertiesPage.PagesDisjoint | src/app/properties/page.tsx:89-92 | two different pages of a list without repeated rows share no row |
| PropertiesPage.AllPagesYieldTheList | src/app/properties/page.tsx:89-92 | pages 1 to `ceil(n/12)` laid end to end give back the whole ordered result |
| PropertiesPage.Browse | src/app/properties/page.tsx:24-101 | a browse page has at most 12 rows; each is in the table, available and satisfies every filter; and the page is sorted by the requested key |
| PropertiesPage.GetProperties | src/app/properties/page.tsx:24-102 | a storage error, a NaN page, a page below 1 or a page starting past the matching rows gives no rows and count 0; otherwise the page of the sorted matching rows, with the count of all matching rows |
| PropertiesPage.ExistingPagesAccepted | src/app/properties/page.tsx:89-98 | every page from 1 to the page count is a range the service accepts |
| PropertiesPage.FarPagesRejected | src/app/properties/page.tsx:89-98 | a page below 1, or more than one past the page count, is a range the service refuses |
| PropertiesPage.Take | src/app/properties/page.tsx:114 | `limit(n)` keeps a prefix of at most n rows, and all rows when there are no more than n |
| PropertiesPage.SearchHits | src/app/properties/page.tsx:107-111 | a row is a hit exactly when it is available and the term occurs, case-insensitively, in one of the six text fields |
| PropertiesPage.SearchProperties | src/app/properties/page.tsx:104-122 | search returns at most 50 rows, every one an available hit, ordered featured first and then newest first; a storage error gives none; when at most 50 rows match, all of them are returned |
| PropertiesPage.TotalPages | src/app/properties/page.tsx:193 | `ceil(count/12)`: the least number of 12-row pages that holds every row |
| PropertiesPage.NumericParam | src/app/properties/page.tsx:170-175 | a numeric filter is present exactly when its parameter is set to a non-empty string |
| PropertiesPage.FiltersFromParams | src/app/properties/page.tsx:168-177 | the page's filters hold at most one non-empty type, the location text exactly when it is set, and each numeric filter exactly when its parameter is non-empty |
| PropertiesPage.PageNumber | src/app/properties/page.tsx:163 | the page is 1 when the parameter is missing or empty and `parseInt` of it otherwise |
| PropertiesPage.SortParam | src/app/properties/page.tsx:164 | the sort name is never empty, is the parameter when that is set, and selects the default order exactly when it is not one of the six known names |
| PropertiesPage.LoadPage | src/app/properties/page.tsx:160-193 | with a search term the page shows the search result and counts it; otherwise it shows the browse page with the storage count, or no rows and no pages on a storage error, a NaN page or a page the service refuses; the page count is `ceil(count/12)`; every row shown is available |
| JsText.ParseIntOfIntToString | src/app/properties/page.tsx:170-175 | `parseInt(String(n)) == n` for every integer, so numbers written to the URL read back unchanged |
| JsText.ParseInt | src/app/properties/page.tsx:163-175 | `parseInt`: NaN for an all-blank string and for one whose first non-blank character is neither a sign nor a digit; a negative result only after a leading `-` |
| JsText.ParseIntStopsAtNonDigit | src/app/properties/page.tsx:163 | `parseInt("12px")` is 12: reading stops at the first non-digit |
| JsText.ParseIntSignedHex | src/app/properties/page.tsx:163 | `parseInt("-0x1A")` is -26: the sign, then the `0x` prefix, then hexadecimal digits |
| JsText.IntToString | src/components/properties/PropertyFilters.tsx:73-95 | `n.toString()` is non-empty, starts with `-` exactly when `n` is negative, and is otherwise all decimal digits |
| JsText.Trim | src/components/properties/PropertyFilters.tsx:65 | the trimmed text is empty exactly when the text is all white space; otherwise it starts and ends with a non-space and occurs inside the text |
| JsText.TrimIdempotent | src/components/properties/PropertyFilters.tsx:65 | trimming twice is trimming once |
| JsText.BeforeFirst | src/app/auth/callback/route.ts:52 | `split(c)[0]` is the longest prefix without `c`, and the next character, if any, is `c` |
| JsText.JsLength | src/app/api/profile/change-password/route.ts:16 | the UTF-16 length lies between the number of code points and twice that |
| JsText.ToLower | src/app/properties/page.tsx:61-62 | case folding keeps the length and lowers each character on its own |
| JsText.ToLowerIdempotent | src/app/properties/page.tsx:61-62 | lower-casing twice is lower-casing once |
| JsText.Contains | src/app/properties/page.tsx:61-62 | a substring test that is true exactly when the needle occurs at some position |
| Seqs.FilterIsSubsequence | src/components/dashboard/InquiriesList.tsx:34-38 | `filter` keeps elements in their original order |
| Pagination.Neighbours | src/components/properties/Pagination.tsx:35-39 | the loop's pages are exactly `max(2, c-2) .. min(total-1, c+2)`, in order |
| Pagination.NeighboursFacts | src/components/properties/Pagination.tsx:31-39 | the neighbours are distinct, increasing and consecutive, lie strictly between 1 and the last page, and are exactly the pages within 2 of the current one |
| Pagination.Dedup | src/components/properties/Pagination.tsx:58-60 | the `indexOf` filter keeps the same set of entries, leaves no entry twice, and never lengthens the strip |
| Pagination.PageItems | src/components/properties/Pagination.tsx:30-55 | the strip before de-duplication starts with page 1 and, with two or more pages, ends with the last page |
| Pagination.KeepFirstOccurrences | src/components/properties/Pagination.tsx:58-60 | the loop keeps the first occurrence of each entry: the same entries, none twice |
| Pagination.GetPageNumbers | src/components/properties/Pagination.tsx:30-61 | the strip as the component builds it has no repeated entry; with two or more pages it starts at 1, ends at the last page, increases, shows the current page and shows exactly page 1, the last page and the pages within 2 of the current one |
| Pagination.PageItemsWellFormed | src/components/properties/Pagination.tsx:30-55 | the strip with both markers kept has that same layout, and every page it skips sits behind a `...` |
| Pagination.PageItemsNoSilentGap | src/components/properties/Pagination.tsx:41-55 | in the strip with both markers kept, two adjacent page buttons are consecutive pages |
| Pagination.AsWrittenDropsSecondMarker | src/components/properties/Pagination.tsx:58-60 | when both gaps exist, the rendered strip has the leading `...` but none before the last page |
| Pagination.AsWrittenLayout | src/components/properties/Pagination.tsx:30-60 | the rendered strip still starts at 1, ends at the last page, increases, and shows the current page and its neighbours |
| Pagination.RenderedStrip | src/components/properties/Pagination.tsx:30-60 | the rendered strip starts at 1, ends at the last page, repeats nothing and shows the current page; each button is a page in `1..total`, and each one strictly between the ends is within 2 of the current page |
| Pagination.AsWrittenHidesPages | src/components/properties/Pagination.tsx:58-60 | at page 10 of 20 the rendered strip is `1 ... 8 9 10 11 12 20`: pages 13-19 disappear with no marker |
| Pagination.ShowingLineAtMostOnePage | src/components/properties/Pagination.tsx:64-66 | the "showing" line never spans more than 12 rows |
| Pagination.StartItem | src/components/properties/Pagination.tsx:65 | the first row number is one more than a multiple of 12, and at least 1 on a real page |
| Pagination.EndItem | src/components/properties/Pagination.tsx:66 | `Math.min(page*12, total)`: at most each of the two and equal to one of them |
| Pagination.ShowingLineCountsWindow | src/components/properties/Pagination.tsx:64-66 | for an existing page, `startItem..endItem` lies within `1..count` and numbers exactly the rows the page shows |
| Pagination.Navigate | src/components/properties/Pagination.tsx:16-22 | following a page link changes only the `page` parameter |
| Pagination.NavigateLandsOnPage | src/components/properties/Pagination.tsx:16-22 | the URL after following the link to page p reads back as page p, with page 1 written as no parameter |
| Pagination.NavigateKeepsView | src/components/properties/Pagination.tsx:16-22 | following a page link keeps the search term, the filters and the sort order that the listing page reads |
| Pagination.StepButtonsStayInRange | src/components/properties/Pagination.tsx:79-121 | `PreviousEnabled` and `NextEnabled` (`disabled={currentPage <= 1}`, `disabled={currentPage >= totalPages}`) hold exactly when the page they lead to lies in `1..total` |
| FilterPanel.RangeTablesTile | src/components/properties/PropertyFilters.tsx:32-48 | the price and area ranges tile the line: each starts where the previous ends, and only the last is open |
| FilterPanel.ToggleType | src/components/properties/PropertyFilters.tsx:110-117 | clicking a selected type removes it; clicking another makes it the only type; nothing else changes |
| FilterPanel.ToggleTypeKeepsAtMostOne | src/components/properties/PropertyFilters.tsx:110-117 | from at most one selected type, any run of clicks leaves at most one |
| FilterPanel.ToggleBedrooms | src/components/properties/PropertyFilters.tsx:252 | clicking the selected bedroom count clears it, and any other count selects it; nothing else changes |
| FilterPanel.ToggleBathrooms | src/components/properties/PropertyFilters.tsx:275 | the same for bathrooms |
| FilterPanel.ToggleLocation | src/components/properties/PropertyFilters.tsx:323-326 | the same for the location |
| FilterPanel.TogglesUndo | src/components/properties/PropertyFilters.tsx:252-326 | a second click on the same button restores the panel, and a new bedroom choice narrows the listing to rows with at least that many bedrooms |
| FilterPanel.SetPriceRange | src/components/properties/PropertyFilters.tsx:119-125 | a price range sets minimum and maximum together, with no maximum for the open range; nothing else changes |
| FilterPanel.SetAreaRange | src/components/properties/PropertyFilters.tsx:127-133 | the same for area |
| FilterPanel.PriceRangeSelects | src/components/properties/PropertyFilters.tsx:119-125 | after choosing a price range, a row passes the price checks exactly when its price lies in that range, except that a zero minimum is no bound |
| FilterPanel.Reset | src/components/properties/PropertyFilters.tsx:104-108 | after a reset no filter is active |
| FilterPanel.ResetWritesNothing | src/components/properties/PropertyFilters.tsx:104-108 | a reset panel serialises to no parameter at all |
| FilterPanel.ActiveFiltersCount | src/components/properties/PropertyFilters.tsx:135-138 | the count is at most 9, and is 0 exactly when no filter field is set, no type is selected, the location is unset or empty, and the search term is empty |
| FilterPanel.NumberText | src/components/properties/PropertyFilters.tsx:73-95 | a numeric filter is written exactly when it is truthy, as its decimal text |
| FilterPanel.SetNumber | src/components/properties/PropertyFilters.tsx:73-95 | one `params.set` writes a numeric filter as the serialisation requires and leaves every other parameter unchanged |
| FilterPanel.SetNumbers | src/components/properties/PropertyFilters.tsx:73-95 | the six numeric `params.set` steps write all six numeric filters and leave the other parameters unchanged |
| FilterPanel.HandleSearch | src/components/properties/PropertyFilters.tsx:62-102 | the parameters written are exactly these: the trimmed term when non-blank, the first type, each truthy numeric filter as text, and a non-empty location |
| FilterPanel.NumberReadBack | src/components/properties/PropertyFilters.tsx:73-95 | a numeric filter written to the URL and parsed back by the listing page imposes the same bound |
| FilterPanel.ApplyRoundTrip | src/components/properties/PropertyFilters.tsx:62-102 | when at most one type is selected, the listing page's filters read from the written URL select exactly the rows the panel's filters select, and the search term arrives trimmed |
| FilterPanel.OnlyFirstTypeSurvives | src/components/properties/PropertyFilters.tsx:69-71 | of several selected types only the first reaches the listing page |
| FilterPanel.NothingActiveWritesNothing | src/components/properties/PropertyFilters.tsx:62-102 | a panel with no active filter writes no parameter |
| Http.OrNull | src/app/api/property-inquiry/route.ts:40 | `x \|\| null` keeps a non-empty string and turns anything else into null |
| InquiryIntake.ValidEmailMeaning | src/app/api/property-inquiry/route.ts:18-19 | the checker accepts an address exactly when the pattern `^[^\s@]+@[^\s@]+\.[^\s@]+$` matches it: a non-empty local part, `@`, and a domain with an inner dot, none of them holding white space or another `@` |
| InquiryIntake.AcceptsPlainAddress | src/app/api/property-inquiry/route.ts:18-24 | `ali@example.com` is accepted |
| InquiryIntake.AcceptsDottedParts | src/app/api/property-inquiry/route.ts:18-24 | `a.b@c.d.e` is accepted |
| InquiryIntake.RejectsNoAt | src/app/api/property-inquiry/route.ts:18-24 | `not-an-email` is rejected |
| InquiryIntake.RejectsNoDot | src/app/api/property-inquiry/route.ts:18-24 | `ali@example` is rejected |
| InquiryIntake.RejectsSpace | src/app/api/property-inquiry/route.ts:18-24 | `ali @example.com` is rejected |
| InquiryIntake.RejectsTwoAts | src/app/api/property-inquiry/route.ts:18-24 | `a@b@c.d` is rejected |
| InquiryIntake.Check | src/app/api/property-inquiry/route.ts:9-24 | a missing or empty required field is reported first; otherwise a malformed e-mail; otherwise the body passes |
| InquiryIntake.InquiryType | src/app/api/property-inquiry/route.ts:7 | an absent `inquiry_type` defaults to "general", null stays null, and any string is kept without checking it |
| InquiryIntake.Record | src/app/api/property-inquiry/route.ts:35-44 | the inserted row carries the assigned id and status "new"; its user is the caller when the caller has a non-empty id and null otherwise; its phone is the body's phone when non-empty and null otherwise; its type is `InquiryType` of the body's field; property, name, e-mail and message are the body's |
| InquiryIntake.AcceptedIsWellFormed | src/app/api/property-inquiry/route.ts:9-44 | every row the endpoint inserts has non-empty required fields, a well-formed e-mail and status "new" |
| InquiryIntake.InquiryTable.Post | src/app/api/property-inquiry/route.ts:4-75 | a rejected body answers 400 and a storage error or a body that is `null` or not valid JSON answers 500, none of them inserting; otherwise exactly one row is appended and echoed with 201 |
| FavoriteRemoval.Surviving | src/app/api/favorites/remove/route.ts:29-33 | the rows kept are exactly those that are not both this id and this caller's |
| FavoriteRemoval.NothingTargetedNothingRemoved | src/app/api/favorites/remove/route.ts:29-33 | deleting an id the caller does not own, or that does not exist, removes nothing |
| FavoriteRemoval.RemoveIdempotent | src/app/api/favorites/remove/route.ts:29-46 | repeating the delete changes nothing more |
| FavoriteRemoval.OtherUsersUntouched | src/app/api/favorites/remove/route.ts:29-33 | every other user's rows are exactly as before |
| FavoriteRemoval.RemovesAtMostOne | src/app/api/favorites/remove/route.ts:29-33 | with unique row ids at most one row goes |
| FavoriteRemoval.DeleteScoped | src/app/api/favorites/remove/route.ts:29-33 | the deleting loop leaves exactly the surviving rows, in order |
| FavoriteRemoval.FavoritesTable.Remove | src/app/api/favorites/remove/route.ts:4-55 | a missing id answers 400 before authentication; no user answers 401; a storage error answers 500; those three leave the table unchanged; otherwise the owner-scoped delete is applied and 200 is answered |
| ProfileUpdate.TrimmedOrNull | src/app/api/profile/update/route.ts:35-41 | `v?.trim() \|\| null`: the trimmed text when it is not blank, null otherwise |
| ProfileUpdate.UpdateData | src/app/api/profile/update/route.ts:26-41 | the change always stamps `updated_at`; it sets `full_name`, trimmed, only when it is non-blank; it sets `full_name_ar` and `phone` only when present, trimmed or null |
| ProfileUpdate.Apply | src/app/api/profile/update/route.ts:43-46 | applying the change overwrites exactly the fields it carries, and the id, owner and role are unchanged |
| ProfileUpdate.UpdateKeepsTidy | src/app/api/profile/update/route.ts:27-41 | a profile whose texts are trimmed and whose optional texts are non-empty stays so after any update |
| ProfileUpdate.UpdateRepeatable | src/app/api/profile/update/route.ts:27-46 | sending the same body twice is the same as sending it once, apart from the timestamp |
| ProfileUpdate.Update | src/app/api/profile/update/route.ts:5-68 | no user answers 401 and a storage error 500, both leaving the profiles unchanged; otherwise only the caller's row is updated, as the change says, and 200 is answered |
| ChangePassword.BodyRejection | src/app/api/profile/change-password/route.ts:9-21 | missing passwords are reported before a short new one, and the body passes only with both present and a new password of at least 6 UTF-16 units |
| ChangePassword.AstralCharactersCountTwice | src/app/api/profile/change-password/route.ts:16 | three emoji already count as six characters for the length rule |
| ChangePassword.CredentialStore.Change | src/app/api/profile/change-password/route.ts:4-73 | the body is checked before authentication; no user or no e-mail answers 401; a wrong current password answers 400; an update error answers 500; only success stores the new password, with 200 |
| Accounts.DefaultFullName | src/app/auth/callback/route.ts:52 | the default name is the metadata name when it is non-empty; otherwise the e-mail's part before the first `@`; otherwise empty |
| Accounts.DefaultNameExamples | src/app/auth/callback/route.ts:52 | for `sara@example.com` the default name is `sara` unless the metadata names someone |
| Accounts.NewProfile | src/app/auth/callback/route.ts:49-57 | a created profile has `id = user_id =` the auth id, role "user", the default name, the Arabic name or "", and the phone or null |
| Accounts.ProfileTable.EnsureProfile | src/app/auth/callback/route.ts:39-59 | an existing profile is never touched; a missing one is created from the account unless the insert fails |
| Accounts.ProfileTable.InsertDefault | src/app/dashboard/page.tsx:90-103 | inserting the default profile without looking first: the primary key leaves an existing profile untouched; otherwise the profile is created unless the insert fails |
| AuthCallback.Target | src/app/auth/callback/route.ts:62 | the `next` parameter when non-empty, else `/dashboard` |
| AuthCallback.RedirectPath | src/app/auth/callback/route.ts:10-72 | the path the handler builds: no code, or an exchange that yields no user, leads to `/auth/login`; an exchange error or an exception leads to login with its message; a signed-in user goes to the target |
| AuthCallback.AsWrittenOpenRedirect | src/app/auth/callback/route.ts:62-63 | for a signed-in user with `next=@evil.example` the handler builds the path `@evil.example`, which does not start with `/`, so the location is `<origin>@evil.example` |
| AuthCallback.AsWrittenFollowsAnyNext | src/app/auth/callback/route.ts:62-63 | the path built for a signed-in user is whatever non-empty `next` says, with no check |
| AuthCallback.SafeTarget | src/app/auth/callback/route.ts:62 | the intended target: `next` when it is a path starting with a single `/`, otherwise `/dashboard`; the result is always such a path |
| AuthCallback.SafeRedirectPath | src/app/auth/callback/route.ts:10-72 | the redirect with the checked target: the same as the handler on every failure path, `SafeTarget(next)` for a signed-in user, and always a path on the site |
| AuthCallback.SafeRedirectStaysOnOrigin | src/app/auth/callback/route.ts:63 | with the checked target the location is the origin followed by a path that starts with a single `/` |
| AuthCallback.SafeAgreesOnLocalPaths | src/app/auth/callback/route.ts:62-63 | the check changes nothing when `next` is empty, absent or already a path on the site |
| AuthCallback.FailuresLandOnLogin | src/app/auth/callback/route.ts:32-72 | every path that does not sign someone in ends on the login page |
| AuthCallback.Callback | src/app/auth/callback/route.ts:5-73 | redirects to the origin followed by `RedirectPath`, except that a signed-in target the URL parser rejects makes the redirect throw and leads to the unexpected-error login page; the profiles change only when a user signs in without a profile, and that change happens before the redirect is built |
| Dashboard.FindById | src/app/dashboard/page.tsx:40 | `find` returns a property with the given id from the list, and nothing exactly when none has it |
| Dashboard.FindByIdIsFirst | src/app/dashboard/page.tsx:40 | the property `find` returns is the first with the id: no property before it has that id |
| Dashboard.PropertyIds | src/app/dashboard/page.tsx:31 | every row's non-empty property id is batched, and every batched id is non-empty and is some row's property id; there are no more ids than rows |
| Dashboard.KeyTexts | src/app/dashboard/page.tsx:31 | `rows.map(r => r.property_id)`: one entry per row, in row order, null read as the empty text |
| Dashboard.PropertyIdsInRowOrder | src/app/dashboard/page.tsx:31 | the batched ids are exactly the mapped ids filtered for non-empty ones, so they keep the rows' order |
| Dashboard.Batch | src/app/dashboard/page.tsx:33-36 | the batch holds exactly the properties whose id was asked for |
| Dashboard.BatchLookup | src/app/dashboard/page.tsx:33-41 | looking an id up in the batch finds what looking it up in the whole table finds |
| Dashboard.BatchMisses | src/app/dashboard/page.tsx:31-40 | an id that was not asked for is not found |
| Dashboard.Attach | src/app/dashboard/page.tsx:38-41 | the joined list has the rows' length and order |
| Dashboard.AttachMatchesIds | src/app/dashboard/page.tsx:38-41 | each row is joined to the property with its id, or to nothing when that property is missing, its id is null, or the fetch failed |
| Dashboard.AttachProperties | src/app/dashboard/page.tsx:29-45 | the branching join (no rows, no ids, batch) gives the join described above |
| Dashboard.DisplayName | src/app/dashboard/page.tsx:122 | the greeting uses the Arabic name when non-empty, else the name |
| Dashboard.Load | src/app/dashboard/page.tsx:11-112 | a visitor who is not signed in is sent to login with `redirectTo=/dashboard`; a user without a profile, or whose profile lookup fails, is sent back to `/dashboard` after an insert of the default profile, which changes the table only when no profile existed and the insert succeeds; otherwise the page shows the profile and the joined favourites and inquiries |
| InquiriesList.Filtered | src/components/dashboard/InquiriesList.tsx:34-38 | an inquiry is shown exactly when each selection is "all" or equals its field, and the shown list keeps the original order |
| InquiriesList.NoSelectionShowsAll | src/components/dashboard/InquiriesList.tsx:15-38 | with both selections "all" every inquiry is shown |
| InquiriesList.ClearFilters | src/components/dashboard/InquiriesList.tsx:268-271 | "remove all filters" sets both selections to "all" |
| InquiriesList.ClearingEndsNoMatches | src/components/dashboard/InquiriesList.tsx:263-271 | after "remove all filters" the no-matches notice is gone |
| InquiriesList.StatusCount | src/components/dashboard/InquiriesList.tsx:20-23 | a status count never exceeds the number of inquiries |
| InquiriesList.OptionCount | src/components/dashboard/InquiriesList.tsx:18-24 | the "all" option counts every inquiry, and each status option counts what choosing it would show |
| InquiriesList.StatusCountIsFilterLength | src/components/dashboard/InquiriesList.tsx:20-38 | a status option's count is the length of the list that choosing it shows |
| InquiriesList.StatusCountsBounded | src/components/dashboard/InquiriesList.tsx:18-24 | the four status counts add up to at most the total, and to the total when every status is one of the four |
| InquiriesList.StatusText | src/components/dashboard/InquiriesList.tsx:55-63 | the four statuses get their Arabic labels and any other status is shown as is |
| InquiriesList.TypeText | src/components/dashboard/InquiriesList.tsx:65-73 | the four inquiry kinds get their Arabic labels and any other kind is shown as is |
| InquiriesList.LabelsDistinct | src/components/dashboard/InquiriesList.tsx:55-73 | different known statuses, and different known kinds, get different labels |
| InquiriesList.SubmittedCountsAsNew | src/components/dashboard/InquiriesList.tsx:20 | an inquiry as the intake endpoint stores it adds one to the "new" count and is labelled "جديد" |
| FavoritesList.Without | src/components/dashboard/FavoritesList.tsx:32 | the list after removal holds exactly the entries with another id |
| FavoritesList.WithoutKeepsOrder | src/components/dashboard/FavoritesList.tsx:32 | the removal keeps the remaining entries in order |
| FavoritesList.WithoutEmpty | src/components/dashboard/FavoritesList.tsx:32 | the filtered list is empty exactly when every entry carried the removed id |
| FavoritesList.LocalMatchesServer | src/components/dashboard/FavoritesList.tsx:31-32 | for a user's own list, the local removal leaves the same rows the endpoint's delete leaves |
| FavoritesList.DropLocally | src/components/dashboard/FavoritesList.tsx:32 | the filtering loop yields the list without the entry |
| FavoritesList.FavoritesView.constructor | src/components/dashboard/FavoritesList.tsx:16-17 | the view starts with the given favourites and nothing being removed |
| FavoritesList.FavoritesView.BeginRemove | src/components/dashboard/FavoritesList.tsx:20 | the entry is marked as being removed while the list is unchanged |
| FavoritesList.FavoritesView.FinishRemove | src/components/dashboard/FavoritesList.tsx:31-42 | a successful response drops the entry, a failure keeps the list, and either way nothing is marked as being removed |
| FavoritesList.FavoritesView.RemoveFavorite | src/components/dashboard/FavoritesList.tsx:19-45 | the whole handler leaves the list without the entry on success, unchanged on failure, and clears the mark; the empty-state panel (`ShowsEmptyState`) shows afterwards exactly when it showed before or a successful removal took the only id left |
| DashboardStats.ActivityScore | src/components/dashboard/DashboardStats.tsx:54 | the score lies in 0..100; below the cap it is `(10f+5i)/2` rounded half up; it reaches 100 exactly when `10f+5i >= 199` |
| DashboardStats.ActivityScoreMonotone | src/components/dashboard/DashboardStats.tsx:54 | more favourites or inquiries never lower the score |
| DashboardStats.ActivityScoreSaturates | src/components/dashboard/DashboardStats.tsx:54 | 20 favourites or 40 inquiries reach 100, one fewer does not, and one of each scores 8 |
| DashboardStats.Recent | src/components/dashboard/DashboardClient.tsx:84-85 | the overview shows a prefix of at most 3 entries, all of them when there are no more |
| DashboardStats.ShowAllWhenTruncated | src/components/dashboard/DashboardStats.tsx:131 | the "show all" link appears exactly when the overview leaves entries out |
| ProfileSettings.CheckPasswords | src/components/dashboard/ProfileSettings.tsx:58-67 | a mismatch is reported before a short password, and the check passes only for equal entries of at least 6 UTF-16 units |
| ProfileSettings.ClientCheckImpliesServerCheck | src/components/dashboard/ProfileSettings.tsx:58-78 | a request that passes the client check also passes the endpoint's body checks, unless the current password is empty |
| ProfileSettings.InitialForm | src/components/dashboard/ProfileSettings.tsx:18-22 | the form starts from the profile's name, Arabic name and phone, with "" for null |
| ProfileSettings.StoredFieldRoundTrip | src/components/dashboard/ProfileSettings.tsx:18-22 | a tidy stored optional field, shown in the form and sent back, is stored as it was |
| ProfileSettings.SavingUntouchedFormChangesNothing | src/components/dashboard/ProfileSettings.tsx:30-40 | saving the form unedited leaves a tidy profile as it was, apart from the timestamp |
| ProfileSettings.SettingsForm.constructor | src/components/dashboard/ProfileSettings.tsx:14-28 | the form opens filled from the profile, with empty password entries, not editing, not loading |
| ProfileSettings.SettingsForm.HandleChange | src/components/dashboard/ProfileSettings.tsx:101-107 | an edit changes only the named profile field |
| ProfileSettings.SettingsForm.HandlePasswordChange | src/components/dashboard/ProfileSettings.tsx:109-115 | an edit changes only the named password entry |
| ProfileSettings.SettingsForm.SaveProfile | src/components/dashboard/ProfileSettings.tsx:30-56 | the whole form is sent; success ends editing; loading is off afterwards; the fields are unchanged |
| ProfileSettings.SettingsForm.SubmitPassword | src/components/dashboard/ProfileSettings.tsx:58-99 | a failed client check shows its message and sends nothing; otherwise the entries are sent, and on success all three are cleared and the section closes; the profile fields are untouched |
| Registration.ErrorText | src/components/auth/RegisterForm.tsx:61-66 | "User already registered" is shown as the Arabic duplicate-address message; any other error verbatim, after the same prefix |
| Registration.RegisteredProfile | src/components/auth/RegisterForm.tsx:49-59 | the profile later created for a new account carries the form's name, Arabic name and phone |
| Registration.SameLengthRule | src/components/auth/RegisterForm.tsx:40-45 | a password the form accepts also passes the password endpoint's length rule |
| Registration.RegisterForm.constructor | src/components/auth/RegisterForm.tsx:12-22 | the form starts empty and not loading |
| Registration.RegisterForm.HandleChange | src/components/auth/RegisterForm.tsx:90-96 | an edit changes only the named field |
| Registration.RegisterForm.Submit | src/components/auth/RegisterForm.tsx:29-88 | a mismatch, then a short password, is reported with nothing sent; otherwise the form is sent and the outcome picks the toast and the next page (`/dashboard` when confirmed, login with a message when not); loading is off on every path |
| Gallery.NextIndex | src/components/property/PropertyGallery.tsx:27-29 | `(i+1) % n`: the next index wraps from the last image to the first and stays below n |
| Gallery.PrevIndex | src/components/property/PropertyGallery.tsx:31-33 | `(i-1+n) % n`: the previous index wraps from the first image to the last and stays below n |
| Gallery.StepsUndo | src/components/property/PropertyGallery.tsx:27-33 | previous after next, and next after previous, return to the same image |
| Gallery.AdvanceCompose | src/components/property/PropertyGallery.tsx:27-29 | a steps then b steps is a+b steps |
| Gallery.FullCircle | src/components/property/PropertyGallery.tsx:27-29 | n presses of next return to the starting image |
| Gallery.PhotoGallery.constructor | src/components/property/PropertyGallery.tsx:14-16 | the gallery starts on the first image with the lightbox closed |
| Gallery.PhotoGallery.ShowsPlaceholder | src/components/property/PropertyGallery.tsx:43-54 | the placeholder and the arrows never show together; without the placeholder both positions name an existing picture |
| Gallery.PhotoGallery.ShowsArrows | src/components/property/PropertyGallery.tsx:72-110 | the arrows and thumbnails show exactly when a step forward, or back, would change the picture |
| Gallery.PhotoGallery.NextImage | src/components/property/PropertyGallery.tsx:27-29 | the main image moves to the next index; the lightbox is untouched |
| Gallery.PhotoGallery.PrevImage | src/components/property/PropertyGallery.tsx:31-33 | the main image moves to the previous index; the lightbox is untouched |
| Gallery.PhotoGallery.NextLightboxImage | src/components/property/PropertyGallery.tsx:35-37 | the lightbox image moves to the next index; the main image is untouched |
| Gallery.PhotoGallery.PrevLightboxImage | src/components/property/PropertyGallery.tsx:39-41 | the lightbox image moves to the previous index; the main image is untouched |
| Gallery.PhotoGallery.SelectImage | src/components/property/PropertyGallery.tsx:116 | a thumbnail click selects that image and nothing else |
| Gallery.PhotoGallery.OpenLightbox | src/components/property/PropertyGallery.tsx:18-21 | opening shows the chosen image in the open lightbox and leaves the main image |
| Gallery.PhotoGallery.CloseLightbox | src/components/property/PropertyGallery.tsx:23-25 | closing only clears the open flag |

## Left out

- Hosted database and auth service: these are not modelled. Queries become functions over sequences, and inserts and updates become assignments to a class's map or sequence. `exchangeCodeForSession`, `signUp`, `updateUser` and the session lookup become parameters. Verifying a password with `signInWithPassword` becomes a lookup in a stored map. Cookies, client construction and request/response objects are left out.
- The sign-out route, the login form and the login and register pages are not modelled. They are thin wrappers around the auth service.
- The service's `ilike` and `or` filter syntax is not modelled. A term holding `%`, `_` or `,` changes the generated filter in the service. The model matches a plain substring.
- JsText.ToLower: folds only ASCII letters, the reason being that Arabic has no case; other scripts' case folding is not modelled.
- Floating point is left out: the price per square metre and the rating display. The activity score needs none, because `Math.round(n/2)` of a whole number is computed exactly.
- The clock and locale are left out: membership days, date formatting and the listing page's metadata text. `updated_at` is an opaque string parameter.
- Presentational and mock components are left out. These are the home-page sections, the navigation bar and footer, the property cards and list items, the related-properties strip, the specification panel, the listing client and the dashboard client. The one exception is the three-entry overview, `DashboardStats.Recent`.
- The pagination bar's quick-jump menu is not modelled.
- Unimplemented features are not modelled: "add to favourites" and the notification e-mails, which the source marks as to-do.
- Declaration-only type files have no behaviour. They shape the datatypes only. `property_type` is a string, so "duplex" is allowed.
- React scheduling is not modelled: effects, `useState` batching, and the lightbox's keyboard and animation. `router.push`, `redirect` and `window.location.reload` become returned routes or are dropped. Toasts are modelled only in the registration form; in the other forms only their texts are returned.
- JSON values that are neither strings, null nor absent are left out: numbers, booleans and objects in a request field. A body that is `null` or not valid JSON makes the handler throw; it is the `None` body and answers 500.
- Nullable `status`, `featured` and `created_at` columns are left out. The model gives each row a status string, a boolean and an integer timestamp.
- Ordering.Sort: ties between rows with equal keys are broken by a stable insertion sort, whereas the service's tie order is unspecified; every property proved says only "sorted by the key" and "a permutation", which holds of any tie order.
- PropertiesPage.SearchProperties: when more than 50 rows match, the contract does not say which 50 are kept. It states only that they are matching, available and ordered. It does not state that they are the first 50 in the service's order.
- JsText.ParseInt: integers are unbounded, so the loss of precision beyond 2^53 and `Infinity` are not modelled.
- ProfileSettings.SettingsForm.SubmitPassword: the toast after a failed request shows the server's error text; that text is not returned (`error` is `None` on that path).
- ProfileSettings.SettingsForm.SaveProfile: the success and failure toasts are not returned.
- FavoritesList.FavoritesView.RemoveFavorite: the success and failure toasts are not returned, and the request is the boolean `ok`.
- AuthCallback.Callback: URL parsing is not modelled; whether the origin followed by the signed-in target parses is the parameter `targetRejected`. The handler's own profile lookup has no failure flag: when it fails the handler inserts anyway, and the primary key then gives the outcome `EnsureProfile` gives, so the table result is the same.
- Ownership of favourites: the real service also enforces it with a row-level policy. That policy is not modelled beyond the two equality filters the route applies.

## Findings

| source | as written | input that shows it | evidently intended | confidence | as-written member | corrected member |
|---|---|---|---|---|---|---|
| src/app/auth/callback/route.ts:62-63 | `next` is appended to the origin unchecked, so a value that does not start with `/` becomes part of the host | `next=@evil.example` after origin `https://site` redirects a signed-in user to `https://site@evil.example`, the host `evil.example` | accept `next` only when it is a path starting with a single `/`, else `/dashboard` | not executed | AuthCallback.AsWrittenOpenRedirect | AuthCallback.SafeRedirectStaysOnOrigin |
| src/components/properties/Pagination.tsx:58-60 | the `indexOf` de-duplication compares every entry, the `'...'` markers included, so when there are gaps on both sides the second marker is dropped as a "duplicate" | current page 10 of 20: the strip becomes `1 ... 8 9 10 11 12 20`, and pages 13-19 vanish with no marker | de-duplicate page numbers only, keeping `1 ... 8 9 10 11 12 ... 20` | not executed | Pagination.AsWrittenHidesPages | Pagination.PageItemsWellFormed |
