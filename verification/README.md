# Mawjood admin dashboard: access gate, forms and list screens

This project models the decision logic of the Mawjood admin dashboard. The
dashboard is a Next.js application in which administrators sign in and then
manage the `businesses` and `categories` tables of a Supabase store.

Every handler is modelled as a pure function. Its inputs are what the user
typed and what the identity provider and the database replied. Its output is
an outcome (a redirect, a message, a new screen state) together with the
ordered list of calls it made (`Effects.Effect`): sign-in, sign-out, admin
lookup, inserts, updates, deletes, reads and router moves. Where the code
relies on JavaScript semantics, the model spells them out:

- `s || null` is `Base.OrNull` and `o ?? ''` is `Base.OrEmpty`;
- `String.prototype.trim` uses the ECMAScript white-space set (`Text.Trim`);
- `split(',')` always yields at least one piece (`Text.Split`);
- `password.length` counts UTF-16 code units (`Text.Utf16Length`);
- `!userId` rejects the empty string as well as a missing id.

Modules:

- `Base`: nullable values, optional properties, the two text idioms.
- `Schema`: the `Row`/`Insert`/`Update` shapes of `admins`, `businesses` and
  `categories`, and what an update does to a row.
- `Effects`: URLs, the read description (`Query`), the effects and the
  provider's `{ data, error }` reply.
- `AccessGate`: the edge check (`middleware`) and the server re-check
  (`requireAdmin`), and how they compare.
- `Text`, `CommaList`: trimming, splitting and joining, and the
  comma-separated list fields of the business form.
- `BusinessForm`, `CategoryForm`: initial text, payload and submit.
- `BusinessesTable`: paging, filters, embed normalisation, and the list
  screen as a state machine.
- `CategoriesPage`: loading and deleting categories, as a screen from its first render.
- `Dashboard`: the overview totals and the histogram of businesses by city.
- `Register`, `Login`: the two authentication screens.
- `Journeys`: how registration, login and the access gate fit together.

## Model

| member | source | states |
|---|---|---|
| Base.OrNull | admin/components/businesses/BusinessForm.tsx:45-49 | an optional text becomes null exactly when it is empty, and is otherwise kept untrimmed |
| Base.OrEmpty | admin/components/businesses/BusinessForm.tsx:24-29 | a null column is shown as empty text; a stored string, even an empty one, is shown as it is |
| Base.NullableTextRoundTrip | admin/components/categories/CategoryForm.tsx:19-21 | showing a nullable column and reading it back returns it exactly when it is not the empty string (a stored `''` comes back null) |
| Base.TextNullableRoundTrip | admin/components/categories/CategoryForm.tsx:33 | reading form text into a nullable column and showing it again returns the same text |
| Schema.ApplyBusinessUpdate | admin/types/supabase.ts:64-77 | every property of a business Update is optional: the row is unchanged exactly when each property is absent or repeats the stored value, and the all-absent update changes nothing |
| Schema.ApplyCategoryUpdate | admin/types/supabase.ts:92-97 | the same for a category Update |
| Schema.ApplyAdminUpdate | admin/types/supabase.ts:27-33 | the same for an admin Update |
| Schema.BusinessUpdateIdempotent | admin/types/supabase.ts:64-77 | applying the same business update twice equals applying it once |
| Effects.Param | admin/middleware.ts:17 | a redirect's query parameter is absent exactly when no pair has that key; a value that is found is the value of the first pair with that key (as `searchParams.get` returns) |
| AccessGate.Middleware | admin/middleware.ts:6-36 | outside `/dashboard` nothing is asked and the request passes; with no session user the redirect is to `/login` with `redirectedFrom` = the path, with no lookup and no sign-out; otherwise the admin row is looked up by the user's id; the request passes iff unprotected or the record is present, and a protected request that passes made exactly the session read and that lookup; sign-out happens iff the record is missing; such a denial makes exactly the session read, the lookup and the sign-out, and then the `error=access_denied` redirect; no redirect carries both parameters |
| AccessGate.MiddlewareIgnoresLookupError | admin/middleware.ts:21-27 | two lookup replies with the same record and different errors give the same edge decision |
| AccessGate.RequireAdmin | admin/lib/auth.ts:4-26 | with no session user: bare `/login`, no lookup, no sign-out; with one, the admin row is looked up by that user's id; a lookup error or a missing record: lookup, sign-out, then `/login?error=access_denied`; a normal return happens iff a user, no error and a record, and it carries that session and that record, after exactly the session read and the lookup |
| AccessGate.ServerStricterThanEdge | admin/lib/auth.ts:20-23 | on a protected path against the same table, the server layer denies whenever the edge layer does, with the same sign-out and target; they disagree iff the lookup found the record but also reported an error |
| AccessGate.NoSessionRedirectsDiffer | admin/lib/auth.ts:10-12 | without a session the edge redirect remembers the path and the server redirect does not |
| Text.LeadingSpaces | admin/components/businesses/BusinessForm.tsx:53 | counts the white-space prefix: every counted character is white space and the next one is not |
| Text.TrailingSpaces | admin/components/businesses/BusinessForm.tsx:53 | the same for the white-space suffix |
| Text.Trim | admin/components/businesses/BusinessForm.tsx:53 | the result has no white space at either end; it is the middle of the input, with only white space on each side; it is empty iff the input is blank; trimmed text is kept |
| Text.TrimAfterSpace | admin/components/businesses/BusinessForm.tsx:33 | a trimmed element after the space of `', '` trims back to itself |
| Text.Split | admin/components/businesses/BusinessForm.tsx:53 | there is at least one piece, no piece holds the separator, and joining the pieces with it gives the text back |
| Text.JoinShape | admin/components/businesses/BusinessForm.tsx:33-34 | `join` of no pieces is empty; otherwise the result starts with the first piece, ends with the last, and is as long as the pieces plus one separator per pair of neighbours |
| Text.SplitWithoutSeparator | admin/components/businesses/BusinessForm.tsx:53 | text without the separator splits into itself alone |
| Text.SplitFirstPiece | admin/components/businesses/BusinessForm.tsx:53 | splitting `a + sep + t` gives `a` followed by the split of `t` |
| Text.SplitJoin | admin/components/businesses/BusinessForm.tsx:33-34 | joining separator-free pieces and splitting again gives the pieces back (the inverse of `Split`'s join property) |
| Text.CodeUnits | admin/app/register/page.tsx:33 | a character takes two UTF-16 code units iff it lies above U+FFFF, and one otherwise |
| Text.Utf16Length | admin/app/register/page.tsx:33 | the empty string has length 0, a single character has its `CodeUnits`, and the length lies between the number of code points and twice that |
| Text.Utf16LengthAppend | admin/app/register/page.tsx:33 | the UTF-16 length of a concatenation is the sum of the lengths; with the single-character value this fixes the length of every string |
| Text.SplitConcat | admin/components/businesses/BusinessForm.tsx:53 | splitting `a + sep + b` gives the pieces of `a` followed by the pieces of `b` |
| CommaList.TrimAll | admin/components/businesses/BusinessForm.tsx:53 | each piece is replaced by its trimmed form, in place |
| CommaList.DropEmpty | admin/components/businesses/BusinessForm.tsx:53 | `.filter(Boolean)` keeps exactly the non-empty strings, each as often as it occurs (the multiset minus its empty strings); a list without empties is kept and an all-empty list becomes empty |
| CommaList.DropEmptyAppend | admin/components/businesses/BusinessForm.tsx:53 | filtering a concatenation filters each part and keeps their order, so the survivors keep their original order |
| CommaList.Parse | admin/components/businesses/BusinessForm.tsx:53-54 | empty text gives null, any other text gives a list; every element is non-empty, trimmed and comma-free; a string is an element iff it is the non-empty trim of some comma-separated piece, and the elements are the trimmed pieces with multiplicity, minus the empty ones |
| CommaList.ParsePiece | admin/components/businesses/BusinessForm.tsx:53-54 | non-empty text without a comma gives the one-element list of its trim, or the empty list when it is blank |
| CommaList.ParseJoin | admin/components/businesses/BusinessForm.tsx:53-54 | parsing `a,b` gives the elements of `a` followed by those of `b`, so elements come out in the order they were typed |
| CommaList.TrailingSeparatorDropped | admin/components/businesses/BusinessForm.tsx:53-54 | a trailing comma followed only by white space adds nothing to the list |
| CommaList.StoredListRoundTrip | admin/components/businesses/BusinessForm.tsx:33-34 | a stored list survives being shown with `', '` and read back iff it is null or a non-empty list of clean elements |
| CommaList.Show | admin/components/businesses/BusinessForm.tsx:33-34 | a null or empty list shows as empty text, one element as itself, and a longer list as its first element, `', '`, and the rest joined the same way |
| CommaList.CleanListRoundTrip | admin/components/businesses/BusinessForm.tsx:33-34 | a clean, non-empty list is shown and read back as itself |
| CommaList.EmptyListBecomesNull | admin/components/businesses/BusinessForm.tsx:33-34 | a stored null or empty list is submitted as null |
| CommaList.SeparatorsOnlyGiveEmptyList | admin/components/businesses/BusinessForm.tsx:53-54 | non-empty text made only of commas and white space gives an empty list, not null |
| BusinessForm.NumberToText | admin/components/businesses/BusinessForm.tsx:31-32 | a null coordinate shows as empty text, a stored one as the number's text |
| BusinessForm.TextToNumber | admin/components/businesses/BusinessForm.tsx:51-52 | a coordinate is null exactly when its text is empty, and otherwise is `Number(text)` |
| BusinessForm.NumberRoundTrip | admin/components/businesses/BusinessForm.tsx:31-32 | a coordinate whose text reads back as itself survives showing and reading |
| BusinessForm.InitialState | admin/components/businesses/BusinessForm.tsx:24-34 | creating starts with every input blank; editing starts from the name, category and rating as stored, each optional text shown with `?? ''` (blank iff null or empty), each coordinate as its text, and each list joined with `', '` (a null or empty list as empty text) |
| BusinessForm.BuildPayload | admin/components/businesses/BusinessForm.tsx:43-55 | the name and rating are sent as they are; each optional text is null iff empty and otherwise untrimmed; each coordinate is the number its text reads as (null iff empty); each list is the parse of its text (null iff empty, every element clean) |
| BusinessForm.Submit | admin/components/businesses/BusinessForm.tsx:57-77 | an update keyed by the business's id iff a business was given, otherwise an insert, both with the built payload; a write error shows its text, with nothing after the write; success shows the matching message, then goes to `/dashboard/businesses` and refreshes |
| BusinessForm.UntouchedEditWrites | admin/components/businesses/BusinessForm.tsx:24-67 | submitting an untouched edit issues an update keyed by the business's id, and that update leaves the row as it was iff the row is resubmittable (no `''` in an optional text, each list null or clean) |
| BusinessForm.ResubmitUnchanged | admin/components/businesses/BusinessForm.tsx:24-55 | opening a stored business and submitting it untouched leaves the row unchanged iff no optional text column holds `''` and each list is null or clean (for coordinates that survive the trip through text) |
| CategoryForm.InitialState | admin/components/categories/CategoryForm.tsx:19-21 | creating starts blank; editing keeps `name_ar`, and shows `name_en` and `icon` with `?? ''`, so each is blank iff it is null or empty |
| CategoryForm.BuildPayload | admin/components/categories/CategoryForm.tsx:33 | `name_ar` is sent unchanged; `name_en` and `icon` are null iff empty and otherwise unchanged |
| CategoryForm.Submit | admin/components/categories/CategoryForm.tsx:25-56 | an update keyed by the category's id iff a category was given, otherwise an insert; a write error shows its text with no navigation; success shows the matching status, then goes to `/dashboard/categories` and refreshes |
| CategoryForm.ResubmitUnchanged | admin/components/categories/CategoryForm.tsx:19-33 | an untouched edit leaves the category unchanged iff neither optional name holds `''` |
| CategoryForm.UntouchedEditWrites | admin/components/categories/CategoryForm.tsx:19-44 | submitting an untouched edit issues an update keyed by the category's id, and that update leaves the row as it was iff neither optional name holds `''` |
| BusinessesTable.PageRange | admin/app/dashboard/businesses/table.tsx:67-68 | the requested range always spans 20 indices, and for page >= 1 it starts at a non-negative multiple of 20 |
| BusinessesTable.PagesAdjacent | admin/app/dashboard/businesses/table.tsx:67-68 | each page starts right after the previous one ends |
| BusinessesTable.RowOnExactlyOnePage | admin/app/dashboard/businesses/table.tsx:67-68 | row index `i` lies in page `p`'s range iff `p = i div 20 + 1` |
| BusinessesTable.TotalPages | admin/app/dashboard/businesses/table.tsx:95 | always at least 1; 1 for a null or zero count; otherwise the least `n` with `20 n >= count` |
| BusinessesTable.PreviousPage | admin/app/dashboard/businesses/table.tsx:205 | never below 1; one less when above 1 |
| BusinessesTable.NextPage | admin/app/dashboard/businesses/table.tsx:213 | never above the page count; one more below it; the last page from any page at or beyond it |
| BusinessesTable.BuildConstraints | admin/app/dashboard/businesses/table.tsx:63-65 | one constraint per non-empty filter and none for an empty one: a city substring, a category equality, a name substring |
| BusinessesTable.FiltersAreConjunction | admin/app/dashboard/businesses/table.tsx:63-65 | a row passes the read's constraints iff it passes every non-empty filter |
| BusinessesTable.BusinessQuery | admin/app/dashboard/businesses/table.tsx:39-70 | every read is of `businesses`, ordered by `name` ascending, with no limit, under exactly the constraints of the filters, and for the range of the requested page, which spans exactly one page |
| BusinessesTable.NormaliseEmbed | admin/app/dashboard/businesses/table.tsx:79-81 | an array becomes its first element, or null when empty; one object becomes itself; a missing one becomes null |
| BusinessesTable.NormaliseEmbedSettles | admin/app/dashboard/businesses/table.tsx:79-81 | a category that is already one object, or missing, is kept as it is, so normalising a normalised row again changes nothing |
| BusinessesTable.Initial | admin/app/dashboard/businesses/table.tsx:26-93 | the screen starts on page 1 with no rows, no count and no error; the city, category and search filters are their query parameters with `|| ''` (each empty iff missing or empty); mounting issues exactly one read, of page 1 under those filters |
| BusinessesTable.ApplyFetch | admin/app/dashboard/businesses/table.tsx:72-84 | an error clears the rows, keeps the count and sets the message; a success replaces the rows (normalised) and the count, leaving any message; page and filters are untouched |
| BusinessesTable.Step | admin/app/dashboard/businesses/table.tsx:90-93 | each event sets only its own field: a filter change sets that filter and keeps the page, Previous and Next set the page from `PreviousPage`/`NextPage`, a fetch reply is `ApplyFetch` and issues nothing; the page stays >= 1; a read of the current page under the current filters is issued iff page or filters changed |
| BusinessesTable.LatestReadMatches | admin/app/dashboard/businesses/table.tsx:90-93 | after any events, the read issued last is the one for the page and filters the screen holds |
| BusinessesTable.MountedReadMatches | admin/app/dashboard/businesses/table.tsx:90-93 | from the mount-time read on, the latest read always matches the screen's page and filters |
| BusinessesTable.PageStaysPositive | admin/app/dashboard/businesses/table.tsx:205 | after any sequence of events the page is >= 1, so every range starts at a non-negative index |
| BusinessesTable.ErrorIsSticky | admin/app/dashboard/businesses/table.tsx:72-84 | once an error is shown, no later event clears it |
| CategoriesPage.ApplyLoad | admin/app/dashboard/categories/page.tsx:20-29 | a load error sets the message and keeps the listed categories; a success lists the rows (none for null) and leaves any message; a reply within the limit keeps the list within 50 |
| CategoriesPage.HandleDelete | admin/app/dashboard/categories/page.tsx:35-44 | an unconfirmed delete does nothing; a failed delete shows its error and does not reload; a successful delete reloads the 50 categories ordered by `name_ar` |
| CategoriesPage.Initial | admin/app/dashboard/categories/page.tsx:16-33 | the screen starts with no categories and no error, and mounting issues exactly the read of 50 categories ordered by `name_ar` |
| CategoriesPage.Step | admin/app/dashboard/categories/page.tsx:20-44 | a reply to the read is `ApplyLoad` and calls nothing; a press of Delete is `HandleDelete`, with its calls |
| CategoriesPage.ErrorIsSticky | admin/app/dashboard/categories/page.tsx:23-27 | once an error is shown, no later load or delete clears it |
| CategoriesPage.ListStaysWithinLimit | admin/app/dashboard/categories/page.tsx:10-22 | when every reply respects the read's limit, the screen never lists more than 50 categories |
| CategoriesPage.MountedListStaysWithinLimit | admin/app/dashboard/categories/page.tsx:10-33 | from the first render, when every reply respects the read's limit, the screen never lists more than 50 categories |
| CategoriesPage.ErrorIffFailure | admin/app/dashboard/categories/page.tsx:20-44 | after any events an error is shown iff one was shown before or some read, delete or reload failed |
| CategoriesPage.MountedErrorIffFailure | admin/app/dashboard/categories/page.tsx:16-44 | from the first render an error is shown iff some read, delete or reload failed |
| CategoriesPage.OnlyLoadQueryIsRead | admin/app/dashboard/categories/page.tsx:20-42 | every read the screen issues, on mount or after a delete, is the read of 50 categories ordered by `name_ar` |
| Dashboard.Bucket | admin/app/dashboard/page.tsx:16 | a null or empty city is counted under `Unknown`, any other under itself |
| Dashboard.CityCounts | admin/app/dashboard/page.tsx:15-19 | the histogram's keys are distinct and are exactly its buckets; each bucket counts the rows that fall in it, and at least one; the counts add up to the number of rows |
| Dashboard.Entries | admin/app/dashboard/page.tsx:37 | one entry per key, in key order, each pairing the key with its count, and the entries add up to the histogram's total |
| Dashboard.Summarise | admin/app/dashboard/page.tsx:9-43 | null totals show as 0; null city data gives no cities; the city cards name distinct cities, exactly the buckets the rows fall in, each with the number of rows in its bucket (at least one), and add up to the rows read; "Cities Tracked" is the number of buckets; "No data available." shows iff no row was read. Built on the intended histogram |
| Dashboard.Cards | admin/app/dashboard/page.tsx:15-37 | the cards are one per bucket, distinct, each counting its bucket's rows, summing to the number of rows, and empty iff there are no rows |
| Dashboard.CountedAreBuckets | admin/app/dashboard/page.tsx:15-19 | the histogram's keys are exactly the buckets the rows fall in |
| Dashboard.SummariseMatchesPage | admin/app/dashboard/page.tsx:15-43 | when no city is `__proto__` or an inherited name, "Cities Tracked" and "No data available." agree with the fold as written |
| Dashboard.AddAsWritten | admin/app/dashboard/page.tsx:17 | one step of the fold as written on a plain object: `__proto__` changes nothing; otherwise only that city's own property changes: a count goes up by one, a first sighting counts 1 unless the name is inherited, and an inherited name holds no count |
| Dashboard.ReduceAsWrittenByKey | admin/app/dashboard/page.tsx:15-19 | the fold as written, key by key: a name is an own property iff it is not `__proto__` and some row falls in it; an inherited name holds no count; every other name counts its rows |
| Dashboard.ProtoCityIsLost | admin/app/dashboard/page.tsx:15-19 | the fold as written drops a business whose city is `__proto__`, which the intended histogram counts |
| Dashboard.InheritedCityIsNotCounted | admin/app/dashboard/page.tsx:17 | the fold as written gives a city named `toString` a value that is not a count |
| Dashboard.AsWrittenAgreesElsewhere | admin/app/dashboard/page.tsx:15-19 | for every city that is not `__proto__` or an inherited `Object.prototype` name, the fold as written equals the intended histogram |
| Register.UsableId | admin/app/register/page.tsx:55-60 | an id is usable iff sign-up succeeded and returned a non-empty id |
| Register.Submit | admin/app/register/page.tsx:20-86 | a mismatch is reported first and a short password second, with no provider call; sign-up comes next, with the `/login` redirect; the admin insert (user id, email, role `admin`) happens iff sign-up returned a usable id, and it is the last call, so nothing is rolled back; a sign-up error is shown verbatim, a thrown sign-up shows `An unexpected error occurred`, and a sign-up without a usable id shows `Failed to create user account`; an insert failure is prefixed `Failed to create admin record: ` and a thrown insert is unexpected; success iff both steps succeed iff there is no error |
| Register.EightCharactersAccepted | admin/app/register/page.tsx:33-37 | a matching password of exactly 8 Basic Multilingual Plane characters passes the local checks |
| Register.Utf16LengthOfBmp | admin/app/register/page.tsx:33 | for Basic Multilingual Plane text the UTF-16 length is the number of characters |
| Login.NoticeFor | admin/app/login/page.tsx:18-23 | `error=access_denied` sets the access-denied notice; any other value, or none, leaves the message as it was |
| Login.Submit | admin/app/login/page.tsx:25-58 | sign-in comes first; an authentication error is shown verbatim with no lookup; a missing or empty user id gives `No user returned from Supabase.`; the admin table is consulted iff a user id came back; the lookup is keyed by that user id; a lookup error or missing record gives exactly sign-in, lookup, sign-out and the access-denied notice; otherwise exactly sign-in, lookup and the move to `/dashboard`, with no message |
| Journeys.LoginAgreesWithGate | admin/app/login/page.tsx:44-57 | for a signed-in user the login screen and `requireAdmin` look up the same admin row; given the same answer, the login screen opens `/dashboard` iff `requireAdmin` admits, and then the edge gate lets `/dashboard` through |
| Journeys.GateRedirectSetsNotice | admin/app/login/page.tsx:18-23 | every redirect of either gate layer lands on `/login`, and the login screen shows the access-denied notice exactly for the denials that signed the user out; a no-session redirect leaves the message as it was |
| Journeys.RegisteredAdminIsLookedUp | admin/app/register/page.tsx:55-70 | a successful registration inserts an `admin` row with the new user's id and email, and that row's id is the one the login screen and `requireAdmin` look up |

## Left out

- The client factories (`lib/supabaseClient.ts`, `lib/supabaseServer.ts`, `lib/supabaseServiceRole.ts`) are not part of this model. They only wrap the Supabase library and read environment variables.
- The database and identity provider are not modelled: their replies are inputs to every handler. This includes what `.single()` returns, the ordering collation (only recorded in `Effects.Query`), and the fact that deleting a category does not cascade.
- `ilike` matching, including case folding and unescaped `%`/`_` in the filter text, is the `like` parameter of `BusinessesTable.Satisfies`.
- `Number(...)` and `toString` on rating, latitude and longitude are the `NumberText` parameter, with `real` standing in for a JavaScript number. No floating point is modelled.
- The 0–5 rating bound is a property of the HTML input widget, not of the code, so it is not modelled.
- BusinessForm.InitialState: a null or empty list is shown as empty text, but not conversely, because a stored `['']` is also shown as `''`; the list fields are stated as `CommaList.Show` of the stored list.
- Dashboard.Summarise: built on the intended histogram (`CityCounts`), so it differs from the fold as written for a city named `__proto__` or an inherited `Object.prototype` name (see Findings; `Dashboard.SummariseMatchesPage` shows they agree otherwise).
- BusinessForm.UntouchedEditWrites: its iff holds only when the number conversions read back what they show (`ShowsFaithfully` on latitude and longitude), because floating-point formatting is out of scope.
- BusinessForm.ResubmitUnchanged: assumes the number conversions read back what they show (`ShowsFaithfully`), because floating-point formatting is out of scope.
- Only the outcome of asynchronous sequencing is modelled. A stale fetch reply overtaking a newer one, the loading flags, React re-rendering and the 2-second `setTimeout` that moves the registration screen to `/login` after success are left out.
- The `config.matcher` routing of `middleware.ts` is not modelled: `AccessGate.Middleware` decides for any path, and non-dashboard paths pass through unchanged.
- `signInWithPassword` throwing on the login screen is not modelled. The login handler has no `catch`, so a throw leaves the page without an outcome. The registration screen's `catch` is modelled.
- Object.keys ordering: `Dashboard.CityCounts` lists keys in first-seen order. JavaScript lists integer-like keys (a city named `"7"`) first, in numeric order, and that reordering is not modelled.
- `Text.Utf16Length` counts every code point above U+FFFF as two units. Lone surrogates cannot be represented in a Dafny `string` and are not modelled.
- The presentational and layout files are not part of this model: `components/ui/*`, `Sidebar.tsx`, `Topbar.tsx` (a sign-out and a push), the layouts, and the page wrappers that only fetch and render.
- CategoriesPage.ListStaysWithinLimit: assumes the store honours `.limit(50)`. The bound is only as good as the store's reply.
- CategoriesPage.MountedListStaysWithinLimit: makes the same assumption about `.limit(50)`.

## Findings

| source | as written | input that shows it | evidently intended | confidence | as-written member | corrected member |
|---|---|---|---|---|---|---|
| admin/app/dashboard/page.tsx:15-19 | `cityCounts` is folded into a plain `{}`. Assigning `acc['__proto__']` a number is ignored by the prototype setter, and a city such as `toString` finds an inherited function, so `+ 1` yields a string | one business whose city is `__proto__`: the page shows "No data available." and "Cities Tracked" 0 | a dictionary from city to count (e.g. `Object.create(null)` or a `Map`), counting every row | not executed | Dashboard.ProtoCityIsLost | Dashboard.CityCounts |
