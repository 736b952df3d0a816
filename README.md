# GigSpace portfolio site: the local table engine and the site's store, in Dafny

GigSpace is a studio portfolio site. Its public pages list projects and take contact
messages and job applications. Its admin dashboard edits projects, page copy,
automation switches and the team. Without remote credentials the site runs on a local
fallback table client that keeps every table as an array of records in browser storage.

This project models the logic underneath the pages, one Dafny module per part of the
program:

- `MockClient`: the local table client.
  - `Storage` is a class whose one field maps a table name to what is stored for it.
    A table that was never stored, or whose text does not parse, reads as empty.
  - `MockBuilder` is a class whose `filters` and `ordering` fields are extended by
    `Eq` and `Order`. Over the storage it implements:
    - the query (`then`): loose `==` filters, then a stable sort;
    - `single`, which as written never yields a row (see Findings) and is corrected to
      yield the first match;
    - `insert`, with a generated id unless the data has one;
    - `update`: strict `!==` test, shallow merge, matched-row count;
    - `upsert`: first loosely equal id;
    - `delete`: a row goes when ANY filter strictly matches.
  - The owner admin seeded at start-up.
- `JsValues`: the values stored in the tables and the three comparisons the engine uses:
  - `==` (`LooseEq`, with its string/number coercion);
  - `===` (`StrictEq`);
  - `<` (`Less`).
- `RowSort`: `Array.prototype.sort` with the query's comparator, as a stable insertion sort.
- `Entities`: the site's records (projects, messages, applications, team members, page
  copy, automation switches), with their row encodings and read-back.
- `AppStore`: the top-level component's state as the class `Store`. Its methods are the
  actions:
  - fetching;
  - login: as written only the recovery credential works, and the corrected login also
    looks the credential up in the admins table;
  - the seed step: as written it appends both rows on every run, and the corrected one is
    idempotent;
  - logout;
  - the settings writes: as written they store the in-memory other half of the settings
    row, and the corrected ones keep the stored half;
  - project, message and application actions.

  Alongside them are the pure list transforms, the public-project filter and the
  maintenance gate.
- `Dashboard`: the admin dashboard:
  - the role predicates and the guards on team and approval controls;
  - the status filter and the overview counters;
  - the content editor and the automation toggle;
  - the dashboard's form state, as the class `Session`.
- `ProjectForm`: the project editor:
  - tag parsing and its round trip with `join(', ')`;
  - link edits and link filtering;
  - the project `handleSubmit` builds;
  - the enhancement guards.
- `ProjectsPage`: the tag bar (`All` and at most five distinct tags) and the tag filter.
- `ProjectDetail`: the small markdown renderer and the project lookup with its view request:
  - the block classifier, first match wins;
  - the `**bold**` splitter, modelled on the regular-expression split loop.
  - the view effect, which as written runs again after every increment (see Findings)
    and is corrected to record one view per visit.
- `Footer`: the nine-tap hidden entrance to the admin page, as the class `SecretTap`.
- `JoinPage`: the application page:
  - the `applicationsEnabled ?? true` gate;
  - the form's fields and its status, as the class `JoinForm`.
- `Text`, `Lists`, `Wrappers`: the string operations the program calls, namely:
  - `trim`, `split`, `join`;
  - the first-occurrence `replace` and `/\n/g` replacement;
  - `Date.now().toString()`, numeric string conversion and lexicographic `<`.

  Also generic `filter`/`map`/count helpers, and `Option`.

Each `await` is an ordinary sequential call. The current time is a parameter: `now` in
milliseconds for generated ids, `nowIso` for dates. Outgoing email is an outbox that the
store appends to. The AI helpers' answers are parameters. The calls a page makes to its
parent are recorded in a field (`applied`, `navigations`).

## Model

| member | source | states |
|---|---|---|
| `MockClient.ReadAfterWrite` | supabaseClient.ts:50-58 | Writing a table and reading it back gives the rows written. Every other table reads as before. |
| `MockClient.Storage.Set` | supabaseClient.ts:56-58 | Only the one table's slot is replaced, and it then reads as the rows written. |
| `MockClient.SeedDefaultAdmin` | supabaseClient.ts:62-71 | An empty admins table gets exactly the one default owner record. A non-empty one, and every other table, is left unchanged. Afterwards the admins table is non-empty. |
| `MockClient.SeededAdminIsOwner` | supabaseClient.ts:64-70 | The seeded record has email `admin@gigspace.com`, access code `admin123` and role `owner`. |
| `MockClient.Where` | supabaseClient.ts:159-163 | The filtered rows are exactly the stored rows that loosely equal every filter, and there are no more of them than stored rows. |
| `MockClient.WhereAppend` | supabaseClient.ts:159-163 | Filtering distributes over concatenation, so stored order is kept. |
| `MockClient.WhereNoFilters` | supabaseClient.ts:156-163 | With no filters a query returns the whole table. |
| `MockClient.WhereRefine` | supabaseClient.ts:159-162 | Filtering by one more filter, as each round of the loop does, equals filtering by the extended filter list. |
| `MockClient.QueryRows` | supabaseClient.ts:155-176 | A query returns exactly the matching rows with their multiplicities, sorted or not. |
| `MockClient.QueryStable` | supabaseClient.ts:166-173 | In a sorted result, the rows with equal sort keys keep their stored order. |
| `MockClient.QuerySorted` | supabaseClient.ts:166-173 | When all sort keys are strings, or all are numbers, the result is ordered by the column, ascending or descending as requested. |
| `MockClient.MockBuilder.constructor` | supabaseClient.ts:73-80 | A new builder is over the given table, with no filters and no ordering. |
| `MockClient.MockBuilder.Eq` | supabaseClient.ts:84-87 | `eq` appends exactly one equality filter and keeps the ordering. |
| `MockClient.MockBuilder.Order` | supabaseClient.ts:89-92 | `order` sets the column and direction and keeps the filters. |
| `MockClient.MockBuilder.Execute` | supabaseClient.ts:155-176 | Applying the filters one at a time in a loop and then sorting gives the query of the stored table. |
| `MockClient.MockBuilder.Single` | supabaseClient.ts:94-98 | Corrected, with the callback given the rows: `single` gives the first row of the query, or null when there is none. Its error is always null, for no match and for many. |
| `MockClient.MockBuilder.SingleAsWritten` | supabaseClient.ts:94-98 | As written, the callback is handed to the builder's own `then`, which calls it with the whole `{ data, error }` result. That is no array, so `single` always gives null data and a null error, whatever the table holds. |
| `MockClient.SingleCallbackOnRows` | supabaseClient.ts:96 | The callback, given the rows themselves, picks the first row, or null when there are none. |
| `MockClient.SingleAsWrittenCounterexample` | supabaseClient.ts:94-98 | A table holding one row with id 1: the query by id finds it and the callback given the rows returns it, but the callback given the result `then` builds at line 176 returns null. |
| `MockClient.WithGeneratedId` | supabaseClient.ts:102 | The new row's id is the data's own when it has one, and otherwise the decimal time. Every other field is the data's. |
| `MockClient.MockBuilder.Insert` | supabaseClient.ts:100-106 | Exactly one row is appended at the end of the table, and it is the row returned. |
| `MockClient.PatchedRows` | supabaseClient.ts:112-122 | `update` keeps the table's length and order. A row that strictly matches every filter takes the patch's fields and keeps its other fields. Every other row is untouched. |
| `MockClient.CountStrictExtremes` | supabaseClient.ts:110-118 | The update count is zero exactly when no row matches, and equals the table length exactly when every row matches. |
| `MockClient.CountStrictAppend` | supabaseClient.ts:110-118 | The update count adds up over consecutive parts of the table. |
| `MockClient.PatchAll` | supabaseClient.ts:110-122 | The map-and-count loop produces the patched table, and its counter is the number of strictly matching rows. |
| `MockClient.MatchesEvery` | supabaseClient.ts:113-116 | The inner loop leaves `match` true exactly when every filter strictly holds. |
| `MockClient.MockBuilder.Update` | supabaseClient.ts:108-126 | Only the builder's table changes, to the patched rows. The returned count is the number of strictly matching rows. |
| `MockClient.FirstIdMatch` | supabaseClient.ts:130 | `findIndex` gives the first index whose id loosely equals the data's id, or none when no row matches. |
| `MockClient.FirstIdMatchUnique` | supabaseClient.ts:130 | An index that matches, with no match before it, is the index `findIndex` gives. |
| `MockClient.UpsertedRows` | supabaseClient.ts:128-140 | When an id matches, only that row changes: it takes the data's fields and keeps its own others. When none matches, the data is appended. |
| `MockClient.UpsertIdempotent` | supabaseClient.ts:128-140 | Upserting the same data twice leaves the table as upserting it once, for any id that is not an array or object. |
| `MockClient.MockBuilder.Upsert` | supabaseClient.ts:128-140 | The search loop and the write give the upserted table, and the data is returned. |
| `MockClient.IdQueryFindsUpsertTarget` | supabaseClient.ts:130 | A query by `eq('id', v)` finds first the very row that an upsert with id `v` merges into, and finds nothing when the upsert would append. |
| `MockClient.Remaining` | supabaseClient.ts:144-149 | `delete` keeps exactly the rows that strictly equal no filter, and never adds any. |
| `MockClient.RemainingAppend` | supabaseClient.ts:144-149 | `delete` distributes over concatenation, so the kept rows stay in order. |
| `MockClient.RemainingNoFilters` | supabaseClient.ts:144-149 | With no filters `delete` removes nothing. |
| `MockClient.RemainingSuccessive` | supabaseClient.ts:145-147 | Several filters act as alternatives: deleting with `fs + gs` equals deleting with `fs` and then with `gs`. |
| `MockClient.SingleFilterDelete` | supabaseClient.ts:145-147 | With one filter, the any and all readings agree, so `delete().eq(c, v)` removes exactly the rows whose `c` strictly equals `v`. |
| `MockClient.KeepAll` | supabaseClient.ts:143-149 | The filtering loop keeps exactly the remaining rows, in order. |
| `MockClient.MatchesSome` | supabaseClient.ts:145-147 | The callback drops a row exactly when some filter strictly matches it. |
| `MockClient.MockBuilder.Delete` | supabaseClient.ts:142-152 | Only the builder's table changes, to the remaining rows. |
| `MockClient.MockBuilder.InsertThenSelect` | supabaseClient.ts:100-106 | Chaining `.select()` on `insert`'s promise stores the row and then throws. |
| `MockClient.MockBuilder.UpdateThenEq` | supabaseClient.ts:108-126 | Chaining `.eq` on `update`'s promise patches the table with the filters present before the call, then throws. |
| `MockClient.MockBuilder.DeleteThenEq` | supabaseClient.ts:142-152 | Chaining `.eq` on `delete`'s promise deletes with the filters present before the call, then throws. |
| `MockClient.UnfilteredUpdatePatchesAll` | supabaseClient.ts:112-122 | With no filters `update` merges the patch into every row. |
| `MockClient.UpdateBeforeFilterCounterexample` | supabaseClient.ts:108-126 | Two projects: a view count meant for one ends up on both when the filter comes after the update, and on one when it comes before. |
| `MockClient.DeleteBeforeFilterCounterexample` | supabaseClient.ts:142-152 | Two projects: deleting one removes nothing when the filter comes after the delete, and removes just that one when it comes before. |
| `JsValues.Merge` | supabaseClient.ts:119 | In `{ ...a, ...b }` every key of `b` wins, and every other key reads as in `a`. |
| `JsValues.LooseEqSymmetric` | supabaseClient.ts:161 | `==` is symmetric. |
| `JsValues.StrictEqImpliesLooseEq` | supabaseClient.ts:115 | Strictly equal values are loosely equal, so the update test is at least as narrow as the query test. |
| `JsValues.LooseEqReflexive` | supabaseClient.ts:130 | Every primitive value loosely equals itself. |
| `JsValues.LooseEqOnStrings` | supabaseClient.ts:161 | On two strings `==` is plain string equality. |
| `JsValues.NumericIdMatchesStringId` | supabaseClient.ts:161 | A numeric id loosely equals its decimal string but does not strictly equal it. |
| `JsValues.MissingFieldLooselyNull` | supabaseClient.ts:161 | A missing field loosely equals `null` but does not strictly equal it. |
| `JsValues.LessIrreflexive` | supabaseClient.ts:170-171 | No value is `<` itself. |
| `JsValues.LessAsymmetric` | supabaseClient.ts:170-171 | `<` never holds both ways. |
| `JsValues.LessTransitive` | supabaseClient.ts:170-171 | On strings alone, and on numbers alone, `<` is transitive. |
| `JsValues.LessTotal` | supabaseClient.ts:170-171 | On strings alone, and on numbers alone, two different values compare one way or the other. |
| `RowSort.Insert` | supabaseClient.ts:167-173 | Inserting a row into a sorted prefix adds exactly that row. |
| `RowSort.SortPermutation` | supabaseClient.ts:166-173 | Sorting is a permutation of the rows. |
| `RowSort.WithKeyAppend` | supabaseClient.ts:166-173 | Selecting the rows with one key distributes over concatenation. |
| `RowSort.InsertWithKey` | supabaseClient.ts:166-173 | Inserting a row puts it behind every row with its own key, so rows with one key stay in arrival order. |
| `RowSort.SortStable` | supabaseClient.ts:166-173 | Sorting keeps the relative order of rows with equal keys. |
| `RowSort.BeforeOrder` | supabaseClient.ts:170-171 | For keys of one kind, if `a` sorts before `c`, any `b` sorts after `a` or before `c`. |
| `RowSort.InsertSorted` | supabaseClient.ts:166-173 | Inserting into a sorted list keeps it sorted when the keys are of one kind. |
| `RowSort.SortSorted` | supabaseClient.ts:166-173 | With keys of one kind the result is sorted by the comparator. |
| `Text.TrimStart` | ProjectModal.tsx:93 | The result is a suffix of the input, only whitespace is cut, and it starts with a non-space. |
| `Text.TrimEnd` | ProjectModal.tsx:93 | The result is a prefix of the input, only whitespace is cut, and it ends with a non-space. |
| `Text.TrimSpec` | ProjectModal.tsx:93 | `trim` gives a trimmed slice of its input. |
| `Text.TrimPadded` | ProjectModal.tsx:93 | A trimmed string with whitespace on either side trims back to itself. |
| `Text.Split` | ProjectModal.tsx:93 | `split` gives at least one piece, and no piece holds the separator. |
| `Text.SplitAtSeparator` | ProjectModal.tsx:93 | Text before the first separator is the first piece, and the rest splits on its own. |
| `Text.SplitJoinPadded` | ProjectModal.tsx:33 | Splitting tags joined with `", "` on the comma gives the first tag, then every later tag behind one space. |
| `Text.JoinSplit` | src/pages/ProjectDetailPage.tsx:15 | The pieces of `split('\n')`, joined with newlines, give the text back. |
| `Text.IndexOfFrom` | src/pages/ProjectDetailPage.tsx:22 | The search finds the first occurrence at or after the start, or reports there is none. |
| `Text.RemoveLeadingMarker` | src/pages/ProjectDetailPage.tsx:22 | Replacing a marker the string starts with cuts exactly that prefix. |
| `Text.ReplaceNewlinesAppend` | src/App.tsx:483 | The global newline replacement distributes over concatenation. |
| `Text.ReplaceNewlinesRemovesAll` | src/App.tsx:483 | After replacing newlines with a replacement that has none, no newline is left. |
| `Text.ReplaceNewlinesNoNewline` | src/App.tsx:483 | Text without newlines is unchanged. |
| `Text.DecimalString` | supabaseClient.ts:102 | `Date.now().toString()` is a non-empty string of digits. |
| `Text.DecimalStringValue` | supabaseClient.ts:102 | The digits read back as the number. |
| `Text.DecimalStringInjective` | supabaseClient.ts:102 | Different times give different generated ids. |
| `Text.StringToNumberOfDecimal` | supabaseClient.ts:161 | A generated id converts back to its number under `==`. |
| `Text.LexLessIrreflexive` | supabaseClient.ts:170 | String `<` is irreflexive. |
| `Text.LexLessTransitive` | supabaseClient.ts:170 | String `<` is transitive. |
| `Text.LexLessTotal` | supabaseClient.ts:170 | Two different strings compare one way or the other. |
| `Entities.OptValue` | src/App.tsx:347-353 | An optional field written as a column reads back as the same optional value. |
| `Entities.StringsRoundTrip` | src/App.tsx:351 | A tag array written to a row reads back as the same tags. |
| `Entities.LinksRoundTrip` | src/App.tsx:352 | A link array written to a row reads back as the same links. |
| `Entities.ParseStatus` | types.ts:2 | Any stored status, read and written again, is the same text. |
| `Entities.StatusRoundTrip` | types.ts:2 | Writing and reading a status gives it back. |
| `Entities.ProjectRow` | src/App.tsx:344-357 | The row written for a project carries no id of its own, so the table generates one. |
| `Entities.ProjectRoundTrip` | src/App.tsx:362-367 | A project written with an id and a view count reads back, with its snake_case columns renamed, as itself with that id and count. |
| `Entities.MessageRow` | src/App.tsx:415-422 | The message row carries no id of its own. |
| `Entities.MessageRoundTrip` | src/App.tsx:415-425 | A stored message reads back with the form's fields, the date, the generated id and `read` false. |
| `Entities.ParseApplicationStatus` | types.ts:49 | Any stored application status, read and written again, is the same text. |
| `Entities.ApplicationStatusRoundTrip` | types.ts:49 | Writing an application status and reading it back gives it back. |
| `Entities.ApplicationRow` | src/App.tsx:447-455 | The application row carries no id of its own. |
| `Entities.ApplicationRoundTrip` | src/App.tsx:447-455 | A submitted application reads back as pending, with the form's fields and date. |
| `Entities.ParseRole` | types.ts:52 | Any stored role, read and written again, is the same text. |
| `Entities.AdminRow` | src/App.tsx:326-331 | The team-member row carries no id of its own. |
| `Entities.AdminRoundTrip` | src/App.tsx:213-216 | A team member written with `access_code` reads back with `accessCode` restored and the generated id. |
| `Entities.SectionOf` | src/App.tsx:181-187 | A stored copy section reads as exactly its string-valued fields. |
| `Entities.ContentOf` | src/App.tsx:181-187 | Stored copy reads as exactly its object-valued sections, and non-objects read as no copy. |
| `Entities.SectionRoundTrip` | src/App.tsx:181-187 | A copy section written to the row reads back unchanged. |
| `Entities.ContentRoundTrip` | src/App.tsx:304-308 | Copy written to the settings row reads back unchanged. |
| `Entities.MergeContent` | src/App.tsx:181-188 | Empty or missing stored copy is ignored. Otherwise stored sections replace in-memory ones and sections the store lacks are kept. `owner` is merged field by field, stored fields winning and missing ones kept. |
| `Entities.AutomationSettings.Set` | AdminDashboard.tsx:153-156 | Setting one switch gives it the value and leaves every other switch as it was. |
| `Entities.SettingsExtensional` | types.ts:62-68 | Two settings that agree on every switch are equal. |
| `Entities.MergeAutomations` | src/App.tsx:189-192 | Empty or missing stored switches are ignored. Otherwise each stored switch wins by truthiness and the others keep their value. |
| `Entities.AutomationsRoundTrip` | src/App.tsx:189-192 | Switches written to the settings row read back as themselves, whatever was in memory. |
| `AppStore.SelectAll` | src/App.tsx:163 | `select('*')` with its optional `order` returns the query over the whole table. |
| `AppStore.SelectFirst` | src/App.tsx:179 | Corrected, with `single()` returning the first matching row: a chain of `eq` filters ending in `single` gives the first stored row matching them all. |
| `AppStore.SelectFirstAsWritten` | src/App.tsx:179 | As written, every chain ending in `single()` gives no row, whichever rows match. |
| `AppStore.InsertInto` | src/App.tsx:226-230 | An awaited insert appends the row with its generated id and changes no other table. |
| `AppStore.UpdateWhere` | src/App.tsx:393 | With the filter in place before the update, only rows whose column strictly equals the value are patched. |
| `AppStore.DeleteWhere` | src/App.tsx:410 | With the filter in place before the delete, exactly the rows whose column strictly equals the value are removed. |
| `AppStore.UpdateWhereAsWritten` | src/App.tsx:393 | The chain as written patches every row of the table and then throws. |
| `AppStore.DeleteWhereAsWritten` | src/App.tsx:338 | The chain as written leaves the table as it was and then throws. |
| `AppStore.InsertSelectAsWritten` | src/App.tsx:359 | The chain as written stores the row and then throws before any data comes back. |
| `AppStore.UpsertInto` | src/App.tsx:304-308 | The settings upsert changes only the settings table. |
| `AppStore.SettingsReadBack` | src/App.tsx:303-308 | After a settings upsert, reading the row with id 1 gives the content and automations just written. |
| `AppStore.ContentWriteKeepsAutomations` | src/App.tsx:300-309 | Corrected, with `single()` returning the first matching row: a content write stores the new content and keeps the stored automations. The in-memory automations are used only when none truthy are stored. |
| `AppStore.AutomationsWriteKeepsContent` | src/App.tsx:312-321 | Corrected, with `single()` returning the first matching row: the mirror image, where the new switches are stored and the stored content is kept. |
| `AppStore.ContentWriteAsWrittenOverwrites` | src/App.tsx:303-308 | As written, `current` is null, so the row holds the new content and the in-memory automations. Stored automations that differ from them are lost. |
| `AppStore.AutomationsWriteAsWrittenOverwrites` | src/App.tsx:315-320 | As written, the row holds the new switches and the in-memory copy. Stored copy that differs from it is lost. |
| `AppStore.SettingsAfterInsert` | src/App.tsx:225-231 | After the settings row is inserted, the query by id 1 finds it. |
| `AppStore.AdminAfterInsert` | src/App.tsx:235-241 | After the recovery admin is inserted, the query by its email finds it. |
| `AppStore.SeedEstablishes` | src/App.tsx:221-246 | Corrected, with `single()` returning the first matching row: after the seed step both the settings row and the recovery admin are present. |
| `AppStore.SeedIdempotent` | src/App.tsx:221-246 | Corrected, with `single()` returning the first matching row: repeating the seed step changes nothing, whatever copy, switches and time the second run sees. |
| `AppStore.SeedAsWrittenAppends` | src/App.tsx:224-241 | As written, both look-ups come back empty. Each seed keeps every row already stored, and adds exactly one more settings row with id 1 and one more recovery admin. |
| `AppStore.SeedAsWrittenNotIdempotent` | src/App.tsx:221-246 | As written, a second seed leaves the settings table one row longer than the first did, so the seed step is not idempotent. |
| `AppStore.LookupAdminSpec` | src/App.tsx:270-288 | Corrected, with `single()` returning the first matching row: a database login succeeds exactly when some stored admin loosely matches both email and access code, and then yields such a row, with `accessCode` copied from `access_code`. |
| `AppStore.LoginAsWrittenIgnoresTable` | src/App.tsx:272-283 | As written, any credential other than the recovery one is refused. That includes credentials for which the lookup would find a matching stored admin, which happens exactly when one exists. |
| `AppStore.PublicProjectsSpec` | src/App.tsx:494 | The public list holds exactly the published projects. |
| `AppStore.PublicProjectsOrder` | src/App.tsx:494 | The public filter keeps the original order, distributing over concatenation. |
| `AppStore.ReplaceProject` | src/App.tsx:376 | The list keeps its length and ids. Every project with the edited id becomes the updated project, and every other project is unchanged. |
| `AppStore.WithoutProjectSpec` | src/App.tsx:409 | No project with the id is left, and every other project is kept. A list without the id is returned unchanged. |
| `AppStore.IncrementViews` | src/App.tsx:397-400 | Length and ids are kept and other projects are untouched. A matching project gains exactly one view and nothing else changes. |
| `AppStore.FindById` | src/App.tsx:402 | Something is found exactly when some element has the id, and it is the first such element. This is the `find` by id used for projects here, for applications at line 481 and on the project page. |
| `AppStore.SetApplicationStatus` | src/App.tsx:471-476 | Length and ids are kept and other applications are untouched. A matching one takes the new status and nothing else changes. |
| `AppStore.ApprovalEmailSpec` | src/App.tsx:480-489 | The approval email goes to the applicant and holds no raw newline. A one-line template is sent unchanged inside the paragraph. |
| `AppStore.NotificationEmails` | src/App.tsx:457-466 | One notification goes to each team member, in list order, with subject `New Application: ` and the role. |
| `AppStore.AddedProject` | src/App.tsx:342-368 | A new project reads back from its stored row as itself, with the generated id and no views. |
| `AppStore.ProjectsOfRoundTrip` | src/App.tsx:166-171 | Fetching the rows a project list is stored as gives the list back. |
| `AppStore.MessagesOfRoundTrip` | src/App.tsx:205-206 | Fetching stored messages gives each back unread, as it was written. A list of unread messages comes back unchanged. |
| `AppStore.ApplicationsOfRoundTrip` | src/App.tsx:208-209 | Fetching the rows applications are submitted and re-statused as gives them back, statuses included. |
| `AppStore.AdminsOfRoundTrip` | src/App.tsx:211-217 | Fetching the stored team gives it back, with `accessCode` restored from `access_code`. |
| `AppStore.ScreenFor` | src/App.tsx:497-534 | The spinner shows exactly while loading. Once loaded, `/admin` always reaches the dashboard. The maintenance notice shows exactly when maintenance is on, the visitor is not an admin and the route is not `/admin`. A public page never shows under maintenance. |
| `AppStore.Store.constructor` | src/App.tsx:137-146 | The store starts loading, not an admin, with empty lists, the default copy and the default switches. |
| `AppStore.Store.FetchPublicData` | src/App.tsx:160-201 | Corrected, with `single()` returning the first matching row: projects are loaded newest first, or the demo projects when there are none. The stored settings are merged into copy and switches, loading ends, and nothing else changes. |
| `AppStore.Store.FetchAdminData` | src/App.tsx:203-219 | Messages and applications are loaded newest first and the team in stored order. Nothing else changes. |
| `AppStore.Store.Seed` | src/App.tsx:221-246 | Corrected, with `single()` returning the first matching row: the tables become the seeded tables, where the settings row and the recovery admin are each written only when absent. |
| `AppStore.Store.Login` | src/App.tsx:250-289 | Corrected, with `single()` returning the first matching row: the recovery credential always signs in as the recovery owner and seeds the tables. Any other credential signs in only as a matching stored admin and writes nothing. On failure nothing changes. |
| `AppStore.Store.Logout` | src/App.tsx:291-297 | Logout clears the admin flag, the user, messages, applications and team, and leaves the rest. |
| `AppStore.Store.UpdateContent` | src/App.tsx:300-309 | Corrected, with `single()` returning the first matching row: the new copy is in memory and in the settings row, and the stored automations are kept. |
| `AppStore.Store.UpdateAutomations` | src/App.tsx:312-321 | Corrected, with `single()` returning the first matching row: the new switches are in memory and in the settings row, and the stored copy is kept. |
| `AppStore.Store.AddAdmin` | src/App.tsx:324-334 | The member is appended to the admins table, and the admin lists are reloaded. |
| `AppStore.Store.DeleteAdmin` | src/App.tsx:336-339 | Corrected, with the `eq` filter in place before the write: the member with the id leaves the list and the table. Nothing else changes. |
| `AppStore.Store.AddProject` | src/App.tsx:342-373 | Corrected, with insert returning its row: the project is stored with no views and its stored copy is put first in the list. |
| `AppStore.Store.UpdateProject` | src/App.tsx:375-394 | Corrected, with the `eq` filter in place before the write: the list entry with the id is replaced, and only the table row with that id takes the columns. |
| `AppStore.Store.IncrementProjectView` | src/App.tsx:396-406 | Corrected, with the `eq` filter in place before the write: the list gains one view for the id. The table row is raised only when the project is in the list. |
| `AppStore.Store.DeleteProject` | src/App.tsx:408-411 | Corrected, with the `eq` filter in place before the write: the project leaves the list and the table. |
| `AppStore.Store.AddMessage` | src/App.tsx:414-443 | Corrected, with insert returning its row: the message is stored unread and put first. The auto-reply is sent exactly when that switch is on. |
| `AppStore.Store.AddApplication` | src/App.tsx:446-468 | The application is stored as pending. When the switch is on, every team member is notified. |
| `AppStore.Store.UpdateApplicationStatus` | src/App.tsx:470-491 | Corrected, with the `eq` filter in place before the write: the status changes in the list and the table. On approval the applicant found before the change gets exactly one email built from the template. |
| `AppStore.Store.FetchPublicDataAsWritten` | src/App.tsx:160-201 | As written, projects load as before, but the settings look-up yields nothing. Copy and switches keep their in-memory values, and loading ends. |
| `AppStore.Store.SeedAsWritten` | src/App.tsx:221-246 | As written, the tables become the as-written seeded tables, with both rows appended on every run. |
| `AppStore.Store.LoginAsWritten` | src/App.tsx:250-289 | As written, only the recovery credential signs in, and it seeds the tables as written. Any other credential is refused, and the store and tables stay as they were. |
| `AppStore.Store.UpdateContentAsWritten` | src/App.tsx:300-309 | As written, the new copy is in memory, and the settings row holds it with the in-memory switches. |
| `AppStore.Store.UpdateAutomationsAsWritten` | src/App.tsx:312-321 | As written, the new switches are in memory, and the settings row holds them with the in-memory copy. |
| `AppStore.Store.AddMessageAsWritten` | src/App.tsx:415-422 | As written, the message is stored but the chain throws, so the list and the outbox are untouched. |
| `AppStore.Store.AddProjectAsWritten` | src/App.tsx:359 | As written, the project is stored but the chain throws before it is listed. |
| `AppStore.Store.DeleteProjectAsWritten` | src/App.tsx:408-411 | As written, the project leaves the list but stays in the table. |
| `AppStore.Store.UpdateApplicationStatusAsWritten` | src/App.tsx:470-478 | As written, every stored application takes the status and the chain throws before any approval email. |
| `Dashboard.RoleLadder` | AdminDashboard.tsx:107-109 | Team management implies delete, which implies edit. Each step up drops exactly one role. With no user, or an unrecognised role, nothing is granted. |
| `Dashboard.RecoveryUserIsOwner` | src/App.tsx:254-260 | The recovery login holds every permission. |
| `Dashboard.DeleteAdminKeepsSomeone` | AdminDashboard.tsx:642-646 | A delete through the offered control removes someone, never empties the team and never removes the signed-in member. |
| `Dashboard.ApprovalGuard` | AdminDashboard.tsx:411-437 | Approve and Decline are offered exactly for a pending application to a member who can edit, and they are the only choices. An approved or declined one has no active control and shows Processed. |
| `Dashboard.DecisionIsFinal` | AdminDashboard.tsx:411-437 | Once an offered decision is applied, nothing further is offered for that application. |
| `Dashboard.FilteredProjectsSpec` | AdminDashboard.tsx:160-162 | Under `all` every project is shown. Under a status, exactly the projects with it are shown. |
| `Dashboard.PublishedFilterIsPublicList` | AdminDashboard.tsx:160-162 | Filtering on `published` gives the public site's list. |
| `Dashboard.TotalViewsAppend` | AdminDashboard.tsx:165 | The view total adds up over parts of the list. |
| `Dashboard.IncrementViewsTotal` | AdminDashboard.tsx:165 | Recording a view raises the total by the number of projects with that id. |
| `Dashboard.PendingAfterDecision` | AdminDashboard.tsx:166 | Deciding a pending application lowers the pending counter by exactly one. |
| `Dashboard.NewMessageUnread` | AdminDashboard.tsx:167 | A new unread message raises the unread counter by one. |
| `Dashboard.ContentChanged` | AdminDashboard.tsx:111-114 | Only `section[key]` changes. Other keys of the section and other sections are untouched, and the section is created if missing. |
| `Dashboard.EditsCommute` | AdminDashboard.tsx:111-114 | Edits to different fields can be made in either order. |
| `Dashboard.LastEditWins` | AdminDashboard.tsx:111-114 | Of two edits to one field, the last wins. |
| `Dashboard.ToggleSpec` | AdminDashboard.tsx:152-157 | Toggling negates one switch, leaves the others, and toggling twice restores the settings. |
| `Dashboard.NewAdmin` | AdminDashboard.tsx:138-144 | A new member's name is never empty: the typed name, or `Admin`. |
| `Dashboard.AddedAdminReadsBack` | AdminDashboard.tsx:135-149 | The member added reads back from the table as the one submitted. |
| `Dashboard.Session.constructor` | AdminDashboard.tsx:61-73 | The dashboard starts with no user, empty forms, the store's copy in the editor and new members as editors. |
| `Dashboard.Session.HandleLogin` | AdminDashboard.tsx:78-96 | Over the corrected store login: on success the user is set and the editor is loaded with the store's copy, and the store records the admin. On failure only the error message is set. The tables are seeded exactly on the recovery credential, and are otherwise unchanged. |
| `Dashboard.Session.HandleLoginAsWritten` | AdminDashboard.tsx:78-96 | Over the store login as written: the recovery credential sets the user, loads the editor and seeds as written. Any other credential shows the error, and the store and tables stay as they were. |
| `Dashboard.Session.HandleLogout` | AdminDashboard.tsx:98-103 | The store's logout runs and the typed credentials and user are cleared. |
| `Dashboard.Session.HandleContentChange` | AdminDashboard.tsx:111-114 | Only the edited field of the editor's copy changes. |
| `Dashboard.Session.SaveContent` | AdminDashboard.tsx:127-133 | Over the corrected store write: a member who cannot edit changes nothing anywhere. Otherwise the edited copy is written through the store, keeping the stored switches. |
| `Dashboard.Session.SaveContentAsWritten` | AdminDashboard.tsx:127-133 | Over the store write as written: a member who cannot edit changes nothing. Otherwise the row holds the edited copy with the in-memory switches. |
| `Dashboard.Session.HandleAddAdmin` | AdminDashboard.tsx:135-149 | A member is added only with an email and a code typed and an owner signed in, and only then are the typed fields cleared. The store then holds the reloaded team, messages and applications, and nothing else in it changes. Otherwise nothing changes. |
| `Dashboard.Session.ToggleAutomationAction` | AdminDashboard.tsx:152-157 | Over the corrected store write: the store's switches become the toggled ones, in memory and in the settings row, keeping the stored copy. |
| `Dashboard.Session.ToggleAutomationActionAsWritten` | AdminDashboard.tsx:152-157 | Over the store write as written: the switches become the toggled ones, and the row holds them with the in-memory copy. |
| `ProjectForm.TrimKeepsCommaFree` | ProjectModal.tsx:93 | Trimming a comma-free piece gives a trimmed, comma-free tag. |
| `ProjectForm.ParsedTagsWellFormed` | ProjectModal.tsx:93 | No parsed tag is empty, has outer whitespace or holds a comma. |
| `ProjectForm.ParseTagsConcat` | ProjectModal.tsx:93 | Parsing keeps order: the tags of two comma-joined fields are the first's followed by the second's. |
| `ProjectForm.TagsRoundTrip` | ProjectModal.tsx:93 | Tags shown joined with `", "`, as the editor fills the field, parse back to the same tags when each is trimmed, non-empty and comma-free. |
| `ProjectForm.SavedLinksSpec` | ProjectModal.tsx:94 | The saved links are exactly the entries with a non-empty label and a non-empty url, and a list of complete links is kept whole. |
| `ProjectForm.RemoveLink` | ProjectModal.tsx:79-81 | Exactly entry `i` is removed and the others stay in order. An index out of range changes nothing. |
| `ProjectForm.UpdateLink` | ProjectModal.tsx:73-77 | Only field `f` of entry `i` changes. |
| `ProjectForm.AddLinkUndone` | ProjectModal.tsx:69-81 | Removing the link just added restores the list, and an added empty link is never saved. |
| `ProjectForm.BuildProject` | ProjectModal.tsx:83-98 | An edited project keeps its id, date and views, and a new one gets the time as id and date and no views. The cover is never empty. Tags are parsed, only complete links are kept, and `link` is not carried over. |
| `ProjectForm.EditUntouched` | ProjectModal.tsx:25-98 | Opening a project and saving it untouched gives it back, except that absent optional texts become empty strings and `link` is dropped. |
| `ProjectForm.Enhance` | ProjectModal.tsx:50-67 | A description shorter than five characters changes nothing. Otherwise the description is replaced, tags are generated only into an empty field, and no other field changes. |
| `ProjectForm.EnhancedTagsSaved` | ProjectModal.tsx:58-61 | Generated tags land in the field so that saving parses them back unchanged. |
| `ProjectsPage.FlatTags` | src/pages/ProjectsPage.tsx:18 | Every tag of every project is among the flattened tags. |
| `ProjectsPage.FlatTagsFrom` | src/pages/ProjectsPage.tsx:18 | Every flattened tag is a tag of some project. |
| `ProjectsPage.FirstIndex` | src/pages/ProjectsPage.tsx:18 | A tag's first occurrence is where it occurs, with no earlier occurrence. |
| `ProjectsPage.Dedup` | src/pages/ProjectsPage.tsx:18 | `new Set` keeps exactly the elements of the input, each once. |
| `ProjectsPage.DedupOrder` | src/pages/ProjectsPage.tsx:18 | The distinct elements come in first-occurrence order. |
| `ProjectsPage.AllTags` | src/pages/ProjectsPage.tsx:18 | The tag bar has between one and six tabs, and the first is `All`. |
| `ProjectsPage.AllTagsSpec` | src/pages/ProjectsPage.tsx:18 | The tabs after `All` are the first distinct tags: each a tag of some project, pairwise distinct, in first-occurrence order across projects and tags. When there are at most five distinct tags, every tag gets a tab. |
| `ProjectsPage.FilterByTag` | src/pages/ProjectsPage.tsx:20-22 | Under `All` the list is unchanged. Under any other tab the projects shown are exactly those carrying the tag. |
| `ProjectsPage.FilterByTagOrder` | src/pages/ProjectsPage.tsx:22 | Tag filtering keeps the projects' order. |
| `ProjectsPage.NoEmptyTab` | src/pages/ProjectsPage.tsx:18-22 | Every tab shows at least one project, and `All` shows them all. |
| `ProjectDetail.CloseFrom` | src/pages/ProjectDetailPage.tsx:37 | The lazy `.*?\*\*` ends at the first closing `**`, with no line terminator and no `**` before it. |
| `ProjectDetail.MatchIsBoldRun` | src/pages/ProjectDetailPage.tsx:37 | Every match of the pattern is a bold run. |
| `ProjectDetail.SplitFromSpec` | src/pages/ProjectDetailPage.tsx:37 | The split loop's pieces between matches alternate with the matches and spell out the rest of the line. |
| `ProjectDetail.SplitBoldSpec` | src/pages/ProjectDetailPage.tsx:37-45 | Concatenating a paragraph's parts gives the line back. The parts alternate between plain text and bold runs, starting and ending with plain text. |
| `ProjectDetail.RenderPart` | src/pages/ProjectDetailPage.tsx:41-44 | A part renders bold exactly when it starts and ends with `**`. Any other part renders as itself. |
| `ProjectDetail.BoldRunRendersStrong` | src/pages/ProjectDetailPage.tsx:41-42 | A bold run renders as its inner text, and framing that text with `**` gives the run back. |
| `ProjectDetail.Classify` | src/pages/ProjectDetailPage.tsx:20-47 | Classification goes first match wins on the trimmed line: `## ` gives h2; otherwise `# ` gives h1; otherwise `- ` gives a list item; a blank line gives a break; any other line gives a paragraph of its rendered parts. |
| `ProjectDetail.Indent` | src/pages/ProjectDetailPage.tsx:21 | The indentation is the whitespace that `trim` cuts at the start of the line. |
| `ProjectDetail.MarkerAfterIndent` | src/pages/ProjectDetailPage.tsx:22 | A marker found at the start of the trimmed line sits right after the indentation, and `replace` cuts it out there. |
| `ProjectDetail.MarkerRemoved` | src/pages/ProjectDetailPage.tsx:21-30 | Heading and list text is the original line with the first occurrence of its marker removed, right after the indentation, and everything else kept. |
| `ProjectDetail.RenderSpec` | src/pages/ProjectDetailPage.tsx:12-19 | Empty text renders nothing. Other text renders exactly one block per line, in order, and the lines joined with newlines give the text back. |
| `ProjectDetail.ViewRequests` | src/pages/ProjectDetailPage.tsx:58-62 | One run of the effect asks for at most one view increment, exactly when the route id is non-empty and names a project. |
| `ProjectDetail.RaiseViewsCounts` | src/App.tsx:396-400 | Repeated increments on one id raise each project with that id by the number of increments. |
| `ProjectDetail.ViewsRaisedEveryRun` | src/pages/ProjectDetailPage.tsx:58-62 | As written, each increment makes an effect dependency new, so the effect runs again. After any number of runs the viewed project's count has risen by that number. |
| `ProjectDetail.IncrementKeepsRequest` | src/App.tsx:396-400 | A recorded view keeps the project in the list, so the effect's next run asks for another. |
| `ProjectDetail.ViewedOnce` | src/pages/ProjectDetailPage.tsx:57-62 | Corrected, as a once-per-visit effect: the viewed project gains exactly one view and nothing else changes. An empty route id changes nothing. |
| `ProjectDetail.ViewedAsWrittenCounterexample` | src/pages/ProjectDetailPage.tsx:58-62 | A project with no views shows two after two runs as written, and one after the visit as corrected. The first run alone agrees with the corrected page. |
| `Footer.TapStep` | Footer.tsx:11-17 | A tap below the threshold adds exactly one and does not navigate. Reaching nine resets to zero and navigates. The count stays below nine. |
| `Footer.AfterTapsSpec` | Footer.tsx:9-18 | From a fresh start, after `n` taps the counter is `n mod 9` and the admin page was opened `n div 9` times. |
| `Footer.SecretTap.constructor` | Footer.tsx:6 | The counter starts at zero with no navigation. |
| `Footer.SecretTap.Tap` | Footer.tsx:9-18 | One tap keeps the counter in 0..8 and moves it as `TapStep` says. `/admin` is recorded exactly when the tap reaches nine. |
| `JoinPage.ApplicationsEnabledSpec` | JoinPage.tsx:22 | Missing settings, or settings without the flag, leave applications open. The store's settings give exactly their own flag. |
| `JoinPage.WithField` | JoinPage.tsx:34-36 | The named field holds the new value and every other field keeps its own. |
| `JoinPage.WithFieldSpec` | JoinPage.tsx:34-36 | Writing back a field's own value changes nothing, and of two writes the last wins. |
| `JoinPage.ScreenFor` | JoinPage.tsx:39-73 | The closed notice shows exactly when applications are off, whatever the status. The confirmation shows exactly when they are on and the status is success. |
| `JoinPage.JoinForm.constructor` | JoinPage.tsx:12-19 | The form starts with empty fields, role `Frontend Developer`, status idle and nothing submitted. |
| `JoinPage.JoinForm.HandleChange` | JoinPage.tsx:34-36 | Only the named field of the form changes. |
| `JoinPage.JoinForm.HandleSubmit` | JoinPage.tsx:24-32 | The current form is handed on exactly once, the form is reset to the empty fields with the default role, and the status becomes success. |
| `JoinPage.JoinForm.SubmitAnother` | JoinPage.tsx:65 | From the confirmation the status returns to idle, and the form is untouched. |

## Left out

- The remote backend client and the environment probing are foreign library calls and configuration reads. Only the local fallback client is modelled.
- The JSON serialisation into localStorage is not modelled. A stored table is kept as parsed rows, and text that fails to parse is the `Unreadable` slot.
- `select(columns)` is left out: the fallback ignores its column list, so it selects nothing away.
- JSX rendering, styling, animation and the router's mechanics are left out. Routes are strings, and navigation is recorded in a field.
- `setTimeout` delays are collapsed or dropped: the dashboard's saved/idle status after 500 ms and 2 s, and the join page's 1.5 s delay before submitting. Promise scheduling is dropped too, and each action runs as one sequential call.
- The cross-session race on view counts is left out, because it is concurrency between browser sessions.
- `Date.now()` and `toISOString()` become parameters, and date formatting is left out.
- The image and avatar uploads through `FileReader` are browser I/O and are left out.
- The AI helpers are foreign API calls. `Enhance` takes their answers as parameters, and their failure path (the `catch`) is left out.
- `sendEmail` is a network call. It is an outbox the store appends to, and its result is ignored, as the program ignores it.
- The `useEffect` hooks are left out: the one that starts the public fetch on mount, the one that fetches admin data when the admin flag turns on, and the one that reloads the editor when the copy changes. The project page's view effect is modelled by its runs (`ProjectDetail.ViewedAsWritten`), not by React's scheduling. A caller runs `FetchPublicData`/`FetchAdminData` when the program would.
- `AppStore.Store.FetchPublicData`: the `try`/`catch` fallback to the demo projects on an exception is left out, because no local call can throw here.
- `AppStore.Store.AddProject`: the fallback branch for a missing stored row is left out, because the corrected insert always returns its row.
- `AppStore.Store.AddMessage`: likewise, the fallback message with a `Date.now()` id is left out.
- `AppStore.Store.UpdateApplicationStatus`: a copy without an approval template (`emailTemplates.applicationApproved`) sends no email, where the program would throw on the missing property.
- `ProjectForm.UpdateLink` requires an index within the list. The program only calls it from a rendered row, and past the end it would grow the array with a one-field object.
- `ProjectForm.Enhance` treats "shorter than 5" as a count of characters. JavaScript counts UTF-16 code units, which differ only outside the Basic Multilingual Plane.
- `JsValues.Value`: numbers are integers. Fractions, exponents, hexadecimal strings under `==` and the object-to-primitive coercion are left out. Arrays and objects never compare equal, because stored ones are always freshly parsed.
- `RowSort.Sort` is proved sorted only when all keys are strings or all are numbers. With mixed keys the comparator is inconsistent, and the order `Array.prototype.sort` gives is then implementation-defined.
- `Entities.MergeAutomations` reads each stored switch by truthiness, where the program spreads the raw stored value into the switches. A stored `null` would stay `null` there, and the join page's `?? true` would then treat the form as open, where the model treats it as closed.
- `Text.LexLess` compares characters by code point. JavaScript's `<` on strings compares UTF-16 code units, which order differently only outside the Basic Multilingual Plane.
- Type-level shapes use the names in the types file. The stored role and statuses outside the declared names are kept as `OtherRole`, `OtherStatus` and `OtherApplicationStatus`. The error status of the loading state is named `Failed`.
- `Dashboard.Session.HandleLoginAsWritten`, `SaveContentAsWritten` and `ToggleAutomationActionAsWritten` are the dashboard's handlers over the store as written. The other handlers are stated over the corrected store.
- `Dashboard.Session.HandleLogin`: the `catch` branch ("An error occurred during login") is left out, because the modelled login cannot throw.
- The presentation-only pages are out of scope: the contact page's form, the home page, the navigation bar, the project card. So is the build configuration.
- Authorisation inside the store actions is absent in the program (role checks exist only as dashboard guards), so none is modelled.

## Findings

| source | as written | input that shows it | evidently intended | confidence | as-written member | corrected member |
|---|---|---|---|---|---|---|
| supabaseClient.ts:95-96 | `single()` hands its callback to the builder's own `then`, which calls it with the `{ data, error }` result object rather than the rows. That object is no array, so the callback always yields `data: null` | a table holding one row with id 1, queried with `eq('id', 1).single()`: the data is null | the first matching row is the data | not executed | `MockClient.MockBuilder.SingleAsWritten` | `MockClient.MockBuilder.Single` |
| src/App.tsx:179 | the settings look-up in `fetchPublicData` goes through `single()`, so stored page copy and switches are never loaded | a stored settings row with edited copy: the pages show the built-in copy | the stored settings are merged into the state | not executed | `AppStore.Store.FetchPublicDataAsWritten` | `AppStore.Store.FetchPublicData` |
| src/App.tsx:224 | the seed's settings check goes through `single()`, so a settings row is inserted on every seed | seeding twice: the settings table holds two rows with id 1 | the row is inserted only when absent | not executed | `AppStore.SeedAsWrittenNotIdempotent` | `AppStore.SeedIdempotent` |
| src/App.tsx:234 | the seed's admin check goes through `single()`, so the recovery admin is inserted on every recovery login | two recovery logins: the admins table holds two recovery owners | the admin is inserted only when absent | not executed | `AppStore.Store.SeedAsWritten` | `AppStore.Store.Seed` |
| src/App.tsx:272-280 | the database login goes through `single()`, so no stored admin can sign in | an added team member with email "a@b.c" and code "x" signing in: refused | a matching stored admin signs in | not executed | `AppStore.Store.LoginAsWritten` | `AppStore.Store.Login` |
| src/App.tsx:303-307 | `current` in `updateContent` is always null, so the row is written with the in-memory switches, not the stored ones | switches stored from another session, then a copy edit here: the stored switches are overwritten | the stored switches are kept | not executed | `AppStore.ContentWriteAsWrittenOverwrites` | `AppStore.ContentWriteKeepsAutomations` |
| src/App.tsx:315-319 | `current` in `updateAutomations` is always null, so the row is written with the in-memory copy | copy stored from another session, then a switch toggled here: the stored copy is overwritten | the stored copy is kept | not executed | `AppStore.AutomationsWriteAsWrittenOverwrites` | `AppStore.AutomationsWriteKeepsContent` |
| src/pages/ProjectDetailPage.tsx:62 | the view effect depends on `project` and `onViewProject`. Each increment puts a new project object in the list and re-renders the app with a new callback, so the effect runs again and raises the count again, without end | opening a project with no views: after two runs it shows two views | one view per visit ("on mount") | not executed | `ProjectDetail.ViewsRaisedEveryRun` | `ProjectDetail.ViewedOnce` |
| src/App.tsx:393 | `update` is an `async` method, so `update(p).eq('id', id)` runs the update at once with no filter, patching every row, and then calls `eq` on a promise, which throws | two stored projects with ids "1" and "2", and `updateProject` on "1": both rows take the columns | only the row with that id is patched | not executed | `AppStore.UpdateWhereAsWritten` | `AppStore.UpdateWhere` |
| src/App.tsx:404 | the same chain in `incrementProjectView` writes the new count into every project row | projects with views 5 and 7, and one view recorded for the first: both rows show 6 | only the viewed project's count is raised | not executed | `MockClient.UpdateBeforeFilterCounterexample` | `AppStore.Store.IncrementProjectView` |
| src/App.tsx:478 | the same chain in `updateApplicationStatus` gives every stored application the status, and the throw skips the approval email | two pending applications, one approved: both are stored as approved, and no email is sent | only that application changes, and its applicant is emailed | not executed | `AppStore.Store.UpdateApplicationStatusAsWritten` | `AppStore.Store.UpdateApplicationStatus` |
| src/App.tsx:410 | `delete().eq('id', id)` runs the delete with no filter, which removes nothing, and then throws | stored projects "1" and "2", and `deleteProject("1")`: the table still holds both | the row with that id is removed | not executed | `AppStore.Store.DeleteProjectAsWritten` | `AppStore.Store.DeleteProject` |
| src/App.tsx:338 | the same chain in `deleteAdmin` leaves the admins table unchanged | any stored team member deleted from the dashboard stays in the table | the member is removed from the table | not executed | `AppStore.DeleteWhereAsWritten` | `AppStore.Store.DeleteAdmin` |
| src/App.tsx:359 | `insert(d).select().single()` calls `select` on the promise `insert` returns, which throws after the row is stored, so the new project is never listed | adding any project with the local client | the stored project is put first in the list | not executed | `AppStore.Store.AddProjectAsWritten` | `AppStore.Store.AddProject` |
| src/App.tsx:415-422 | the same chain in `addMessage` stores the message but throws before listing it and before the auto-reply | any contact message with auto-reply on | the message is listed and the auto-reply sent | not executed | `AppStore.Store.AddMessageAsWritten` | `AppStore.Store.AddMessage` |

The rest of the model uses the corrected members: the filter is in place before the
write runs, insert returns its row, `single()` yields the first matching row, and a visit to a project page records one view.
