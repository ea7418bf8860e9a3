# Ancient CMS, modelled in Dafny

Ancient CMS is a small content-management system. An Express server keeps
three kinds of content (posts, projects and stories), user accounts and
uploaded media in a relational database. A React admin client edits them. This
project models the server's handlers over an in-memory store, and the admin
client's editor, dashboard formatters and session gate.

Modules, one per part of the program:

- `Base`: optional values, handler replies (`Outcome`), and the role, kind and status
  enumerations. It also models JavaScript truthiness of optional body fields and the
  `x || default` idiom.
- `Text`: decimal printing, case-insensitive containment, and Node's POSIX `path.extname`.
- `Order`: ordering rows by a key descending (`orderBy: … 'desc'`), and taking the
  first n rows (`take`, `slice`).
- `Tables`: database tables as sequences with a string key column. Ids are issued by a
  counter and stored as decimal strings, standing in for generated keys. It proves
  that keys stay unique under insert, update and delete.
- `Policy`: the route tables of `contentRoutes.ts`, `authRoutes.ts` and `mediaRoutes.ts`,
  as one function from caller and operation to a verdict.
- `Server`: each state-changing route, with the gate run before the handler.
- `Content`: class `ContentStore`, with one table per kind. It models create, update and
  delete, plus the pure reads: lookup by id or slug, filtered listing, the
  recent-activity merge and the dashboard counts.
- `Chart`: `getActivityChartData`. The dated `Map` is an insertion-ordered entry
  sequence; it is filled by methods with loops, which are proved against a reference
  fold.
- `Users`: class `UserStore` with register, role change and delete, and the pure
  `login`, `getMe` and `getAllUsers`. Password hashing and comparison are parameters.
- `Seed`: `seedAdmin` as a method on the user store.
- `Media`: class `MediaStore`, covering upload and delete, the stored-filename rule,
  the media list and the usage search.
- `Editor`: class `ContentEditor`, covering the editor page's form, selection,
  toolbar, image picker and save. The markdown splice is a pure function.
- `Dashboard`: `timeAgo` and `formatUptime`.
- `Session`: class `AuthProvider`, covering the admin client's token, user, loading
  flag and storage, and the `ProtectedRoute` decision.

The code is followed where the written description of the system says otherwise:

- `getMe` for an account that no longer exists replies 200 with a null body, not 404.
- A status filter outside the enumeration makes the content listing fail with 500.

Clocks, random numbers and the answers of calls the model cannot see are
parameters:

- `now`, `rand` and `today`.
- The answer to `/auth/me` (`MeAnswer`).
- Whether a login password matches (`matches`) and the hash function (`hash`).
- Whether a content row's author exists (`authorExists`), and the message of the
  database error that rejects a new row (`dbMessage`).
- Whether content rows still reference an account (`referenced`).

## Model

| member | source | states |
|---|---|---|
| Base.ParseRole | server/src/controllers/authController.ts:88-92 | a role is accepted exactly under one of its four spellings, and reads back as that spelling |
| Base.ParseStatus | server/src/controllers/contentController.ts:19 | a status is accepted exactly under one of its four spellings, and reads back as that spelling |
| Base.NamesRoundTrip | server/src/controllers/contentController.ts:19 | every role and status parses back from its own name |
| Base.KindTag | server/src/controllers/contentController.ts:131-133 | the type tag of a merged row is "post", "project" or "story" |
| Base.OrElse | server/src/controllers/contentController.ts:17-19 | `x \|\| d` keeps a non-empty string and falls back to d for a missing or empty one |
| Text.NatToString | server/src/controllers/mediaController.ts:12-13 | a number prints as a non-empty run of decimal digits without a leading zero |
| Text.NatToStringRoundTrip | server/src/controllers/mediaController.ts:12-13 | reading a printed number gives the number back |
| Text.NatToStringInjective | server/src/controllers/mediaController.ts:12-13 | different numbers print differently |
| Text.IntToString | admin/src/pages/Dashboard.tsx:11-20 | an integer in a string concatenation prints as its digits, with a '-' when negative |
| Text.ContainsIffOccurs | server/src/controllers/mediaController.ts:81-86 | a text contains a needle exactly when the needle occurs at some position |
| Text.Contains | server/src/controllers/mediaController.ts:84-86 | a needle at the start of the text is contained, and a contained needle is no longer than the text |
| Text.ExactMatchIsCaseInsensitiveMatch | server/src/controllers/mediaController.ts:84-86 | an exact occurrence is also a case-insensitive one |
| Text.CaseOfEitherSideIrrelevant | server/src/controllers/mediaController.ts:84-86 | the ILIKE match is unchanged by lower-casing either the text or the pattern |
| Text.ExtnameShape | server/src/controllers/mediaController.ts:13 | `path.extname` is empty, or one '.' followed by dot-free, slash-free text that ends the last path segment |
| Text.Extname | server/src/controllers/mediaController.ts:13 | the extension is empty or starts with '.' |
| Text.ExtnameExamples | server/src/controllers/mediaController.ts:13 | "x.c" gives ".c", "a.b.c" gives ".c", and a dot-file or ".." gives "" |
| Order.SortDesc | server/src/controllers/contentController.ts:66 | the result is ordered by the key descending and is a permutation of the input |
| Order.Take | server/src/controllers/contentController.ts:113 | the first min(n, length) rows, as a prefix |
| Order.TakeKeepsLargest | server/src/controllers/contentController.ts:135-136 | on sorted input, every row kept has a key at least that of every row cut |
| Order.TakeOfSortedIsTop | server/src/controllers/contentController.ts:112-114 | a row cut from the first n of the sorted rows is never newer than a row kept |
| Tables.IndexOf | server/src/controllers/contentController.ts:83-84 | `where: { id }` finds a row with that key, or reports that no row has it |
| Tables.NextIdIsFresh | server/src/controllers/contentController.ts:24 | the next issued id differs from every stored key |
| Tables.AppendKeepsGood | server/src/controllers/contentController.ts:24 | inserting a row under the next id keeps keys unique and issued |
| Tables.ReplaceKeepsGood | server/src/controllers/contentController.ts:83-86 | replacing a row with one of the same key keeps the table's keys unique and issued |
| Tables.RemoveAtRemovesOnlyThatKey | server/src/controllers/contentController.ts:99 | deleting by key removes exactly the row with that key and keeps every other row |
| Tables.RemoveKeepsGood | server/src/controllers/contentController.ts:99 | deleting a row keeps keys unique and issued |
| Policy.CreateContentAdmits | server/src/routes/contentRoutes.ts:13 | create is permitted exactly for ADMIN, EDITOR and AUTHOR; USER is refused |
| Policy.UpdateContentAdmits | server/src/routes/contentRoutes.ts:16 | update is permitted exactly for ADMIN and EDITOR; AUTHOR and USER are refused |
| Policy.DeleteContentAdmits | server/src/routes/contentRoutes.ts:17 | delete is permitted exactly for ADMIN |
| Policy.ContentReadsArePublic | server/src/routes/contentRoutes.ts:14-15 | listing and single reads are permitted with or without a token |
| Policy.DashboardViewsNeedOnlyAToken | server/src/routes/contentRoutes.ts:8-10 | stats, chart and activity are permitted exactly when there is a token, for every role |
| Policy.SameTableForEveryKind | server/src/routes/contentRoutes.ts:13-31 | every content verdict is the same for posts, projects and stories |
| Policy.ContentPermissionsNest | server/src/routes/contentRoutes.ts:13-17 | whoever may delete may update, and whoever may update may create |
| Policy.VerdictDependsOnlyOnRole | server/src/routes/contentRoutes.ts:16 | two callers with the same role get the same verdict on every operation, so no item's author is consulted |
| Policy.UsersCannotChangeContent | server/src/routes/contentRoutes.ts:13-17 | a USER is refused create, update and delete of every kind |
| Policy.RegisterAndLoginArePublic | server/src/routes/authRoutes.ts:7-8 | register and login are permitted for every caller |
| Policy.ReadSelfNeedsOnlyAToken | server/src/routes/authRoutes.ts:9 | `/me` is permitted exactly when there is a token |
| Policy.UserManagementIsForAdmins | server/src/routes/authRoutes.ts:12-14 | listing users, changing a role and deleting a user are permitted exactly for ADMIN |
| Policy.AuthenticationPrecedesAuthorization | server/src/routes/authRoutes.ts:9-14 | on every guarded route a missing token is refused as unauthenticated; a role refusal needs a token and a role list |
| Policy.MediaRoutes | server/src/routes/mediaRoutes.ts:7-10 | upload and usage need exactly a token, the list is public, and delete is for ADMIN only |
| Policy.OnlyAdminsDestroy | server/src/routes/authRoutes.ts:13-14 | deleting content, media or users, and changing a role, are permitted exactly for ADMIN |
| Server.Refusal | server/src/routes/contentRoutes.ts:13-17 | a stopped request gets 401 when unauthenticated and 403 when its role is not listed |
| Server.CreateRoute | server/src/routes/contentRoutes.ts:13 | a refused caller changes nothing. For a permitted caller: an empty id gives 401 and a rejected row gives 400 with the database message, both changing nothing; otherwise the reply is 201 with the new row (the caller as author, under the next id), appended to that kind's table only. Success implies ADMIN, EDITOR or AUTHOR |
| Server.UpdateRoute | server/src/routes/contentRoutes.ts:16 | a refused caller changes nothing. For an ADMIN or EDITOR, whoever wrote the row: an unknown id or an invalid status gives 400 "Update failed" and changes nothing; otherwise the row is patched in place and returned, and the other tables are kept |
| Server.DeleteRoute | server/src/routes/contentRoutes.ts:17 | a refused caller changes nothing. For an ADMIN: an unknown id gives 400 "Delete failed" and changes nothing; otherwise exactly that row is removed and the other tables are kept. Success implies ADMIN |
| Server.ChangeRoleRoute | server/src/routes/authRoutes.ts:13 | a refused caller changes nothing. For an ADMIN: an unknown id or an invalid role gives 400 and changes nothing; otherwise only that account's role changes (an absent role keeps it), and the reply is 200 with its id and role |
| Server.UploadRoute | server/src/routes/mediaRoutes.ts:7 | without a token the reply is 401 and nothing changes. For a signed-in caller: no file gives 400 and another field gives 500, both changing nothing; otherwise 201 with the new record, which is appended, and its file is added |
| Server.RemoveMediaRoute | server/src/routes/mediaRoutes.ts:9 | a refused caller changes nothing. For an ADMIN: an unknown id gives 404 and changes nothing; otherwise the record is removed (200) and its file is gone. The usage check plays no part |
| Content.NewItem | server/src/controllers/contentController.ts:13-21 | the new row keeps the given title, slug, content and translation group, and names the actor as author. A falsy language becomes "en" and a falsy status DRAFT; both timestamps are the clock |
| Content.ContentStore.Create | server/src/controllers/contentController.ts:8-28 | no actor id gives 401 and a rejected row gives 400 with the database's message, or "Failed to create content" when that message is empty; neither changes anything. Otherwise 201 with the new row appended to that kind's table only, and the id counter advances only then; key invariants kept |
| Content.Patch | server/src/controllers/contentController.ts:80-86 | only title, slug, content, status and language change, each only when supplied; id, author, translation group and creation time are kept |
| Content.ContentStore.Update | server/src/controllers/contentController.ts:79-90 | an unknown id or an invalid status gives 400 and changes nothing; otherwise the row with that id is replaced by its patch and returned, and no other table changes |
| Content.ContentStore.Delete | server/src/controllers/contentController.ts:97-103 | an unknown id gives 400 and changes nothing; otherwise exactly that row is removed from that kind's table |
| Content.FirstMatch | server/src/controllers/contentController.ts:37-45 | the first row, in stored order, whose id or slug equals the key, or none when no row matches |
| Content.GetContent | server/src/controllers/contentController.ts:36-53 | a found row is in the table and matches the key by id or slug, with status 200; otherwise 404 "Content not found" |
| Content.GetContentMeaning | server/src/controllers/contentController.ts:37-48 | a found row is in the table and matches the key; 404 exactly when no row's id or slug equals the key |
| Content.LookupByIdAndBySlug | server/src/controllers/contentController.ts:39-42 | when no other row shares them, an item is found both by its id and by its slug |
| Content.Filter | server/src/controllers/contentController.ts:59-61 | each row passing every truthy filter is kept as often as it occurs; no other row is kept |
| Content.ListContentMeaning | server/src/controllers/contentController.ts:58-71 | 500 exactly for a status filter outside the enum; otherwise exactly the rows passing the truthy filters, newest created first |
| Content.ListContent | server/src/controllers/contentController.ts:56-74 | a failure is the 500 of the listing; a success is 200 with the rows ordered newest created first |
| Content.UnfilteredListIsWholeTable | server/src/controllers/contentController.ts:59-68 | without filters the listing is a reordering of the whole table |
| Content.Tag | server/src/controllers/contentController.ts:131-133 | each row of one kind is tagged with that kind, in order |
| Content.Latest | server/src/controllers/contentController.ts:112-114 | five rows, or the whole table when it has fewer |
| Content.Candidates | server/src/controllers/contentController.ts:129-134 | the merge holds at most fifteen rows, the five latest of each of three tables |
| Content.RecentActivity | server/src/controllers/contentController.ts:109-136 | the feed has at most ten rows |
| Content.TaggedOfKind | server/src/controllers/contentController.ts:130-134 | picking one kind out of the three tagged lists gives that kind's list back, tagged |
| Content.CandidatesOfKind | server/src/controllers/contentController.ts:130-134 | the merged rows of one kind are exactly that kind's five latest, tagged |
| Content.RecentActivityMeaning | server/src/controllers/contentController.ts:109-136 | the feed has min(10, sum of min(5, table size)) rows, newest update first, at most five per kind. Each row is among its own table's five latest |
| Content.RecentActivityKeepsNewest | server/src/controllers/contentController.ts:135-136 | no candidate cut from the ten is newer than a row kept |
| Content.LatestKeepsNewest | server/src/controllers/contentController.ts:112-114 | no row left out of a table's five latest is newer than one kept |
| Content.DashboardStats | server/src/controllers/contentController.ts:146-158 | each content count is the size of its kind's table, and the user count is the number of accounts |
| Content.CountsAfterCreate | server/src/controllers/contentController.ts:8-28 | a successful create raises its kind's count by one and no other count; a refused one moves no count |
| Content.CountsAfterDelete | server/src/controllers/contentController.ts:94-107 | a successful delete lowers its kind's count by one and no other count; a refused one moves no count |
| Content.CountsAfterRegister | server/src/controllers/authController.ts:9-33 | a successful registration raises the user count by one; a refused one moves no count; content counts never move |
| Content.CountsAfterDeleteUser | server/src/controllers/authController.ts:99-107 | a successful account deletion lowers the user count by one; a refused one moves no count; content counts never move |
| Chart.Seed | server/src/controllers/contentController.ts:191-195 | after n rounds the map holds today, the day before, …, n-1 days back, each with 0 |
| Chart.IndexOfDate | server/src/controllers/contentController.ts:201 | the map position of a date, or none when no entry has it |
| Chart.Put | server/src/controllers/contentController.ts:202 | `Map.set` overwrites an existing key in its place and appends a new one |
| Chart.Step | server/src/controllers/contentController.ts:200-202 | one row leaves the number of entries or adds one |
| Chart.Accumulate | server/src/controllers/contentController.ts:197-204 | processing rows adds at most one entry per row and removes none |
| Chart.ChartSpec | server/src/controllers/contentController.ts:188-216 | the chart has at least the seven seeded points and at most one more per row |
| Chart.Reverse | server/src/controllers/contentController.ts:211-216 | the points are the entries in reverse insertion order |
| Chart.Process | server/src/controllers/contentController.ts:197-204 | the loop leaves the map equal to the fold of one row at a time over the rows |
| Chart.ActivityChart | server/src/controllers/contentController.ts:188-216 | the handler's loops (seed, three passes, reverse) compute the reference chart |
| Chart.StepMeaning | server/src/controllers/contentController.ts:200-202 | one row adds its count to its date, appending the date when new, and leaves other dates and earlier positions alone |
| Chart.AccumulateMeaning | server/src/controllers/contentController.ts:197-204 | processing rows keeps dates distinct and earlier entries in place. A date is present iff it was already there or a row names it; its value grows by the sum of its rows |
| Chart.SeedLookup | server/src/controllers/contentController.ts:191-195 | the seeded map holds exactly the seven days up to today, all at zero |
| Chart.EntriesMeaning | server/src/controllers/contentController.ts:188-208 | after the three passes each date holds the sum of the three tables' counts; the seven seeded days stay first |
| Chart.ChartMeaning | server/src/controllers/contentController.ts:188-216 | dates are distinct and the last seven points are the seeded days, oldest first. A date is charted iff seeded or named by a row, with the sum of the three tables' counts |
| Chart.ChartOfAWeek | server/src/controllers/contentController.ts:191-216 | when every row is within the seeded week, there are exactly seven points, oldest first, each with its summed count |
| Chart.EighthDayIsPrepended | server/src/controllers/contentController.ts:167-168 | a row dated seven days back, which the query window admits, becomes an eighth point placed first |
| Chart.InWeek | server/src/controllers/contentController.ts:176 | only rows dated on one of the seven seeded days are kept |
| Chart.InWeekSum | server/src/controllers/contentController.ts:191-204 | dropping the rows outside the week keeps every seeded day's total |
| Chart.WeekChart | server/src/controllers/contentController.ts:188-216 | with rows outside the week left out, the chart has exactly seven points, oldest first, each with all three tables' rows for its day |
| Users.TokenFor | server/src/controllers/authController.ts:27 | a token carries exactly the user's id and role |
| Users.NewAccountRole | server/src/controllers/authController.ts:15-16 | a new account is ADMIN or USER |
| Users.NewAccountRoleMeaning | server/src/controllers/authController.ts:15-16 | a new account is ADMIN iff the table is empty, and USER otherwise |
| Users.NewUser | server/src/controllers/authController.ts:13-25 | the stored row holds the hash of the password, never the plaintext, with the role chosen by the account count |
| Users.UserStore.Register | server/src/controllers/authController.ts:9-33 | a missing password or email, or a taken email, gives one fixed 400 and changes nothing. Otherwise one account is appended, and the reply is 201 with its id, email and role and its token |
| Users.Login | server/src/controllers/authController.ts:35-57 | success iff the email is known, the stored password non-empty and it matches. The reply is 200 with id, email, role, name and the token; every failure is that 500 or that 401 |
| Users.WrongCredentialsLookAlike | server/src/controllers/authController.ts:41-49 | an unknown email, an account without a password and a wrong password all give the identical 401, and nothing else gives it |
| Users.GetMe | server/src/controllers/authController.ts:59-69 | the profile (without the password) of the account the token names, or null exactly when no account has that id |
| Users.Summaries | server/src/controllers/authController.ts:73-74 | one summary per account with id, name, email, role and creation time, and no password |
| Users.GetAllUsers | server/src/controllers/authController.ts:71-81 | the summaries of all accounts, newest first, each as often as its account |
| Users.UserStore.UpdateUserRole | server/src/controllers/authController.ts:83-97 | an unknown id or an invalid role gives 400 and changes nothing; otherwise only that account's role changes, and the reply is its id and role |
| Users.UserStore.DeleteUser | server/src/controllers/authController.ts:99-107 | an unknown or still-referenced account gives 400 and changes nothing; otherwise exactly that account is removed |
| Users.LoginAfterRegister | server/src/controllers/authController.ts:18-27 | a just-registered account logs in with its password and gets a token for itself |
| Users.MeAfterRegister | server/src/controllers/authController.ts:59-65 | `/me` with a new account's token shows that account |
| Users.DeletedAccountIsGone | server/src/controllers/authController.ts:102 | after deletion, login with that email gives the unknown-email 401, and the old token's `/me` gives null |
| Seed.AdminUser | server/src/utils/seed.ts:7 | the seeded account is an ADMIN with the hashed password, and its name defaults to "Admin" |
| Seed.SeedAdmin | server/src/utils/seed.ts:4-36 | the table after the method is the reference seeded table, and the id counter moves only when an account is created |
| Seed.SeededMeaning | server/src/utils/seed.ts:9-31 | with a variable unset or the email taken, nothing changes; otherwise exactly one ADMIN with a hashed password is appended |
| Seed.SeededEmailExists | server/src/utils/seed.ts:15-31 | with both variables set, an account with that email exists afterwards |
| Seed.SeedIdempotent | server/src/utils/seed.ts:15-31 | seeding again, at any later time, leaves the table as the first run left it |
| Seed.RegistrationAfterSeedIsUser | server/src/utils/seed.ts:21-28 | after seeding with both variables set, a registration gets the USER role |
| Media.StoredFilename | server/src/controllers/mediaController.ts:12-13 | the name is longer than the field name and its '-' |
| Media.StoredFilenameShape | server/src/controllers/mediaController.ts:11-14 | the stored name starts with the field name and '-', and ends with the original file's extension |
| Media.DifferentClocksDifferentNames | server/src/controllers/mediaController.ts:12-13 | with the same random part, uploads at different milliseconds get different names |
| Media.NewRecord | server/src/controllers/mediaController.ts:25-31 | the url is "/uploads/" + filename; mimetype and size are the file's |
| Media.GetAllMedia | server/src/controllers/mediaController.ts:40-47 | every record, newest first |
| Media.MediaStore.Upload | server/src/controllers/mediaController.ts:19-38 | no file gives 400, and a file under another field gives the error handler's 500; neither changes anything. Otherwise 201, with one record appended and its file stored |
| Media.MediaStore.Delete | server/src/controllers/mediaController.ts:49-70 | an unknown id gives 404 and changes nothing; otherwise the record is removed and its file is no longer present |
| Media.Mentions | server/src/controllers/mediaController.ts:84-86 | a row mentions the url only when it has content at least as long as the url |
| Media.Mentioning | server/src/controllers/mediaController.ts:84-86 | no more rows than the table, each a row of it that mentions the url |
| Media.MentioningMultiset | server/src/controllers/mediaController.ts:84-86 | each row whose content mentions the url is kept as often as it occurs; no other row is |
| Media.MentioningConcat | server/src/controllers/mediaController.ts:84-86 | the search keeps stored order: filtering a concatenation filters each part |
| Media.UsageRows | server/src/controllers/mediaController.ts:84-86 | each usage row is the item's id and title with its kind's tag |
| Media.GetMediaUsage | server/src/controllers/mediaController.ts:72-96 | 404 exactly when the id is unknown |
| Media.GetMediaUsageMeaning | server/src/controllers/mediaController.ts:81-90 | for a known id: the mentioning posts, then projects, then stories. Each part is exactly its table's rows whose content contains the url ignoring case |
| Media.UsageIgnoresCase | server/src/controllers/mediaController.ts:84-86 | a url referenced with different letter case is still reported, and an exact reference always is |
| Editor.InitialForm | admin/src/pages/ContentEditor.tsx:70-76 | the form starts empty, as a DRAFT in "en" |
| Editor.FormOf | admin/src/pages/ContentEditor.tsx:83-89 | a loaded item fills every field; string content is kept and other content becomes its JSON text |
| Editor.SubstringMeaning | admin/src/pages/ContentEditor.tsx:105-107 | `substring` is the slice inside the text, clamps outside it, and ignores the order of its ends |
| Editor.SpliceMeaning | admin/src/pages/ContentEditor.tsx:102-113 | the new text is prefix, before, selection, after, suffix, and grows by both lengths. The restored selection covers exactly the old selected text |
| Editor.SpliceNothing | admin/src/pages/ContentEditor.tsx:107 | inserting two empty strings gives the text back |
| Editor.SpliceBeyondEnd | admin/src/pages/ContentEditor.tsx:105-107 | a selection past the end of the text appends the inserted text |
| Editor.ToolbarResults | admin/src/pages/ContentEditor.tsx:229-235 | bold wraps in "**", italic in "*" and link in "[" … "](url)"; an image goes in front of the selection |
| Editor.ImageInText | admin/src/pages/ContentEditor.tsx:117-118 | text inserted with nothing after goes in front of the selection, which stays in place |
| Editor.ImageWrap | admin/src/pages/ContentEditor.tsx:118 | the image markdown is "![Image](url)" with nothing after |
| Editor.SaveRequestFor | admin/src/pages/ContentEditor.tsx:127-133 | with an id the form is PUT to /content/{kind}/{id}, otherwise POSTed to /content/{kind}; the body is the whole form |
| Editor.ContentEditor.constructor | admin/src/pages/ContentEditor.tsx:65-76 | a new page has the initial form, with nothing loading, previewed or open, and the caret at 0 |
| Editor.ContentEditor.Loaded | admin/src/pages/ContentEditor.tsx:83-89 | the fetched item replaces the whole form, and the caret moves to the end of the loaded text; every method keeps the selection inside the text |
| Editor.ContentEditor.Select | admin/src/pages/ContentEditor.tsx:102-103 | the selection is clamped to the text and ordered, and nothing else changes |
| Editor.ContentEditor.TogglePreview | admin/src/pages/ContentEditor.tsx:167 | only the preview flag flips |
| Editor.ContentEditor.InsertText | admin/src/pages/ContentEditor.tsx:98-115 | in preview, with no text area, nothing changes; otherwise only the content changes, by the splice, and the selection shifts by the prefix length |
| Editor.ContentEditor.OpenMediaModal | admin/src/pages/ContentEditor.tsx:239 | only the picker opens |
| Editor.ContentEditor.HandleImageSelect | admin/src/pages/ContentEditor.tsx:117-120 | the image markdown is inserted (outside preview) and the picker closes |
| Editor.ContentEditor.Bold | admin/src/pages/ContentEditor.tsx:229 | the selection is wrapped in "**" and moves with the text it holds |
| Editor.ContentEditor.Italic | admin/src/pages/ContentEditor.tsx:232 | the selection is wrapped in "*" and moves with the text it holds |
| Editor.ContentEditor.Link | admin/src/pages/ContentEditor.tsx:235 | the selection is wrapped in "[" and "](url)" and moves with the text it holds |
| Editor.ContentEditor.BeginSubmit | admin/src/pages/ContentEditor.tsx:122-133 | loading is set and the save request for the current form is issued; nothing else changes |
| Editor.ContentEditor.FinishSubmit | admin/src/pages/ContentEditor.tsx:134-139 | loading clears whatever the outcome; a saved item navigates to its kind's list, a failure stays |
| Editor.LoadThenBold | admin/src/pages/ContentEditor.tsx:83-115 | opening an item and pressing Bold appends "****" to the loaded text, with the caret between the two pairs |
| Dashboard.UnitFor | admin/src/pages/Dashboard.tsx:10-19 | the first unit, in the order year, month, day, hour, minute, whose length the elapsed time strictly exceeds, or seconds |
| Dashboard.IntervalAboveOne | admin/src/pages/Dashboard.tsx:10-19 | a unit's interval is above 1 exactly when the seconds exceed the unit's length |
| Dashboard.IntervalFloor | admin/src/pages/Dashboard.tsx:11-19 | `Math.floor(interval)` is the whole number of units elapsed |
| Dashboard.AgoLabelMeaning | admin/src/pages/Dashboard.tsx:8-21 | the label is the whole count of the unit UnitFor picks, then that unit's name and " ago" |
| Dashboard.CountIsWholeUnits | admin/src/pages/Dashboard.tsx:11-19 | the count lies between the elapsed time over the unit's length and that plus one unit, and is at least 1 for every unit but seconds |
| Dashboard.ShortTimesInSeconds | admin/src/pages/Dashboard.tsx:18-20 | up to a minute the label counts seconds |
| Dashboard.AroundAMinute | admin/src/pages/Dashboard.tsx:18-20 | exactly 60 s reads "60 seconds ago", 61 s "1 mins ago" |
| Dashboard.UptimeParts | admin/src/pages/Dashboard.tsx:88-91 | the hours are below 24 and the minutes below 60 |
| Dashboard.UptimePartsBound | admin/src/pages/Dashboard.tsx:89-91 | days·86400 + hours·3600 + minutes·60 ≤ uptime < that + 60 |
| Dashboard.PartsOfMinutes | admin/src/pages/Dashboard.tsx:89-91 | the parts depend only on the whole minutes of uptime |
| Dashboard.UptimeLabelReadsBack | admin/src/pages/Dashboard.tsx:92 | the "{d}d {h}h {m}m" text determines the days, hours and minutes |
| Dashboard.UptimeShowsTheMinute | admin/src/pages/Dashboard.tsx:88-93 | two uptimes render alike exactly when they fall in the same minute |
| Dashboard.UptimeLabel | admin/src/pages/Dashboard.tsx:281 | an absent or zero uptime shows as "-", any other as its formatted text |
| Session.AuthProvider.constructor | admin/src/context/AuthContext.tsx:22-24 | the token is read from the "ancient_token" key, with no user and loading set |
| Session.AuthProvider.Login | admin/src/context/AuthContext.tsx:41-45 | the token is stored under the key, and token and user are set to the values given |
| Session.AuthProvider.Logout | admin/src/context/AuthContext.tsx:47-51 | the key is removed and token and user are cleared |
| Session.AuthProvider.InitAuth | admin/src/context/AuthContext.tsx:27-37 | without a token nothing but loading changes. With one, an answer sets the user (null included) and a failure logs out; loading ends in every case |
| Session.LoginThenLogout | admin/src/context/AuthContext.tsx:41-51 | signing in then out leaves no token, no user and no stored key, keeping other storage entries |
| Session.StartWithoutToken | admin/src/context/AuthContext.tsx:22-37 | with no stored token the client ends loading and redirects to /login |
| Session.StartWithRejectedToken | admin/src/context/AuthContext.tsx:28-34 | a stored token that `/auth/me` rejects is removed, and the guard redirects |
| Session.Guard | admin/src/components/ProtectedRoute.tsx:6-11 | the loading screen while loading, whatever the token; otherwise a redirect to /login without a token, and the page with one |
| Session.GuardShowsChildren | admin/src/components/ProtectedRoute.tsx:6-11 | the page shows exactly when loading is over and a non-empty token is held; the user record is not consulted |

## Left out

- The `authenticate` and `authorize` middleware are not part of this model. Their meaning is assumed: a request without a valid token is refused with 401 "Unauthorized"; a role outside the route's list is refused with 403 "Forbidden".
- The database schema is not part of this model. Assumed: a content row needs a title, a slug and an existing author; status and role must be enum values; emails are unique; an account named as an author cannot be deleted; `createdAt` defaults to the clock and `updatedAt` is set to the clock on every write, which is why `NewItem` and `Patch` take `now`. Constraints the model cannot see are the parameters `authorExists` and `referenced`.
- The database is a set of in-memory sequences, and generated ids are decimal strings of a counter. Query planning, transactions, and the concurrency of `Promise.all` are not modelled; reads are sequential.
- Timestamps are integers. Two rows with equal sort keys keep their table order (a stable sort); the database guarantees no order for ties.
- bcrypt and jsonwebtoken are foreign cryptography. The hash is a function parameter and the match result is another. A token is the claims it signs, and its one-day expiry is not modelled.
- Users.UserStore.Register: a failure to hash or any other database error besides the cases named is not distinguished; all give the same 400, as in the code.
- Media.MediaStore.Upload: disk storage is a set of file names. The upload middleware's other checks and errors are not modelled. The `uploadMedia` 500 "Media upload failed" (a database error) cannot happen in the model.
- Media.MediaStore.Delete: the directory path and `fs.existsSync`/`unlinkSync` are a set difference on the file names. Removing a file that is absent is a no-op, as the code's existence test makes it.
- Media.Mentions: `content::text ILIKE '%url%'` is case-insensitive containment in the stored content text. Only ASCII letters are folded. `%` and `_` inside a url, which ILIKE treats as wildcards, are matched literally. The JSON escaping the `::text` cast adds is not modelled.
- Content.ListContent: only status and language filters with string values are modelled; array-valued query parameters are not.
- Content.GetContent: the reply is the bare row. The code's `include` of the author is not modelled; it adds the author's name and email, on a route anyone may call.
- Content.ListContent: the rows come without the author's name that the code's `include` adds.
- Content.RecentActivity: the rows come without the author's name that the code's `include` adds.
- Content.FirstMatch: `findFirst` has no `orderBy`, so the database may return any matching row. The model returns the first in stored order.
- Media.Mentioning: the raw usage query has no ORDER BY, so the database may return the rows in any order. The model keeps stored order.
- Chart: calendar dates are integer day numbers. The windowing `WHERE "updatedAt" >= sevenDaysAgo` is left to the caller, which passes the grouped rows. Local-time `setDate` against UTC `toISOString`, and the `toLocaleDateString` labels, are not modelled: the chart is given as (day number, count) pairs.
- Dashboard.AgoLabel: the divisions use exact reals where the page uses doubles. For elapsed times far beyond any real clock, rounding could make the two differ.
- Dashboard: `formatBytes` (logarithms and `toFixed`) is floating-point formatting and is not modelled. Neither is the dashboard's loading placeholder for the stat cards.
- The system controller (OS metrics, a random CPU fallback) is not modelled; its uptime enters only as the `Option<nat>` given to `UptimeLabel`.
- Session.AuthProvider.InitAuth: the effect re-runs whenever the token changes, including right after `Login`. Each run is one call of this method with the answer of that run's `/auth/me` request; the ordering of overlapping runs is not modelled.
- Editor: the text area's selection is state of the page, and the browser's focus handling and delayed `setSelectionRange` are the end state of `InsertText`. The save failure's alert, the markdown preview and every other rendering are not modelled.
- The editor's errors while fetching an item, which only log, are not modelled: the form is then unchanged.
- Editor.FormOf: `JSON.stringify(content, null, 2)` is not computed. The JSON text of non-string content is part of the input (`Structured`); for a null content it is "null".
- Editor.ContentEditor.TogglePreview: leaving preview mounts a new text area. The model keeps the earlier selection, which a new text area does not promise.
- Express wiring, static file serving, the one-off scripts and the UI-only pages are not part of this model.

## Findings

| source | as written | input that shows it | evidently intended | confidence | as-written member | corrected member |
|---|---|---|---|---|---|---|
| server/src/controllers/contentController.ts:167-176 | the query keeps rows updated since this moment seven days ago, but the map is seeded only with today and the six days before; a row dated seven days back is appended as a new entry | one post updated seven days ago at a later time of day than now: the chart has eight points, with that day first | the chart under "Activity Trends (Last 7 Days)" has exactly the seven seeded days | not executed | Chart.EighthDayIsPrepended | Chart.WeekChart |
