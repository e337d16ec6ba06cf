# Coding-stats roster dashboard: a Dafny model

The system lets a faculty user upload a spreadsheet of students. Each row has a
name, a roll number, a LeetCode profile URL and a HackerRank profile URL, and
belongs to a category (`2nd_year` or `3rd_year`). The backend scrapes each
student's LeetCode solved count and HackerRank per-skill stars. The browser shows
the roster in a filterable, sortable table, refreshes it one student at a time,
exports it as a spreadsheet and deletes it.

This project models the parts of that system that decide what data is shown,
stored and sent, and proves what they promise:

- `common.dfy` (module `Text`): string helpers with their own specifications.
  These cover ASCII lower-casing, substring search, split/join, Python's `strip`
  and decimal numerals.
- `student.dfy` (module `Records`): the student record the browser receives.
- `roster_view.dfy` (module `RosterView`): the table of `DataTable.jsx`.
  - The search and threshold filter, including JavaScript `parseInt` and the
    NaN it can yield.
  - The comparator and the stable sort it drives.
  - The header toggle, Reset Filters and the filter object handed to export.
  - The state is a class `TableState`. What it renders is the function `View`,
    with the property lemma `ViewCorrect`: filtered, a permutation of the kept
    records, sorted and stable.
- `roster_page.dfy` (module `RosterPage`): the page store of
  `CategoryDetail.jsx`. It is a class `CategoryPage` with these operations:
  - the roster listing;
  - the sequential bulk refresh, specified against a reference function of the
    answers (`Applied`, `StopIndex`, `BulkTrace`);
  - the single refresh;
  - the export URL, with a query round trip;
  - delete-all.
- `session.dfy` (module `Session`): the session store of `AuthContext.jsx`. It is
  a class `AuthSession` with token, user, `loading` and the stored token, and it
  keeps the invariant `Valid`: the stored token mirrors the token, and a user
  exists only with a token.
- `scraper.dfy` (module `Scraper`): `scraper.py`.
  - User-name extraction from profile URLs.
  - The LeetCode "All" count search.
  - The HackerRank badge classification and the per-skill maximum.
  - The assembled scrape result.
- `api.dfy` (module `Api`): the handlers of `main.py`.
  - The bearer check.
  - The category and file-name checks.
  - The header classification and row extraction of an upload.
  - The per-user upload flags, delete-all and the export sheet.
  - A proof that an exported sheet, uploaded again, yields exactly the exported
    students (`ExportReimport`).

HTTP responses, the confirmation dialog, the parsed workbook, token decoding and
the user lookup are inputs to the operations. Every HTTP exchange is an *outcome*
value: the answer, a non-OK status or a thrown error. The database tables are
sequences of rows held by classes (`StudentTable`, `Account`).

Three behaviours of the code a reader may not expect are stated as lemmas:

- **A NaN threshold.** A non-empty threshold that `parseInt` reads as NaN (for
  example `"abc"`) excludes every record, because a comparison with NaN is false
  (`RosterView.NaNThresholdExcludesAll`). It is not ignored.
- **A whitespace-only name.** A name cell holding only spaces is truthy. The
  upload therefore keeps that row, with an empty name
  (`Api.BlankNameKept`).
- **Export ignores the filters.** The export URL carries the filter parameters.
  `export_category_data` never reads them and always exports the whole category
  (`Api.ExportCategoryData`).

## Model

| member | source | states |
|---|---|---|
| Text.Lower | frontend/src/components/DataTable.jsx:31-32 | lower-casing keeps the length and maps every character by the ASCII case map |
| Text.LowerIdempotent | backend/main.py:176 | lower-casing twice is lower-casing once |
| Text.StripIsInfix | backend/main.py:212-215 | the stripped text is a contiguous part of the input with only whitespace before and after it |
| Text.StripIdempotent | backend/main.py:212-215 | stripping twice is stripping once |
| Text.JoinSplit | backend/main.py:55 | joining the pieces of a split with the separator restores the text |
| Text.SplitAround | backend/main.py:55 | splitting `a + sep + b` gives the pieces of `a` followed by the pieces of `b` |
| Records.IdsAppend | frontend/src/pages/CategoryDetail.jsx:49-56 | the ids of a concatenation are the concatenated ids |
| RosterView.ParseIntDecimal | frontend/src/components/DataTable.jsx:34-38 | `parseInt` of a numeral followed by a non-digit is the numeral's value |
| RosterView.ParseIntLeadingDigit | frontend/src/components/DataTable.jsx:34-38 | a text that starts with a digit parses to the value of its leading run of digits |
| RosterView.ParseIntNegative | frontend/src/components/DataTable.jsx:34-38 | a leading minus sign negates the parsed value |
| RosterView.ParseIntNaN | frontend/src/components/DataTable.jsx:34-38 | text that does not start (after whitespace) with a sign or digit parses to NaN |
| RosterView.FilterStudents | frontend/src/components/DataTable.jsx:30-41 | the filtered list is a subsequence of the roster, and holds each record as many times as the roster does if it passes all six tests, else not at all |
| RosterView.FilterMembership | frontend/src/components/DataTable.jsx:30-41 | a record is shown exactly when it is in the roster and passes the search and all five thresholds |
| RosterView.EmptySearchMatchesAll | frontend/src/components/DataTable.jsx:31-32 | the empty search matches every record |
| RosterView.NoThresholdIsSearchOnly | frontend/src/components/DataTable.jsx:34-40 | with every threshold empty, a record is kept exactly when it matches the search, even with `null` metrics |
| RosterView.DecimalThreshold | frontend/src/components/DataTable.jsx:34-38 | a numeric threshold `n` keeps exactly the records whose metric, read as 0 when `null`, is at least `n` |
| RosterView.NaNThresholdExcludesAll | frontend/src/components/DataTable.jsx:34-38 | a non-empty threshold that parses to NaN rejects every record |
| RosterView.LexTransitive | frontend/src/components/DataTable.jsx:50-51 | JavaScript string `<` is transitive |
| RosterView.LexTotal | frontend/src/components/DataTable.jsx:50-51 | of two different strings, one is `<` the other |
| RosterView.CompareSwap | frontend/src/components/DataTable.jsx:43-53 | the comparator is antisymmetric: swapping the arguments negates it |
| RosterView.CompareDescIsSwappedAsc | frontend/src/components/DataTable.jsx:50-51 | descending compares as ascending with the arguments swapped |
| RosterView.CompareZeroIffEqualKeys | frontend/src/components/DataTable.jsx:44-52 | the comparator returns 0 exactly for records with equal (lower-cased) keys |
| RosterView.CompareTransitive | frontend/src/components/DataTable.jsx:43-53 | "not after" is transitive, so the comparator is a consistent ordering |
| RosterView.SortPermutes | frontend/src/components/DataTable.jsx:43 | the sorted list is a permutation of the filtered list |
| RosterView.SortOrders | frontend/src/components/DataTable.jsx:43-53 | no later row compares before an earlier one |
| RosterView.SortIsStable | frontend/src/components/DataTable.jsx:43-53 | rows with equal keys keep their roster order |
| RosterView.ViewCorrect | frontend/src/components/DataTable.jsx:30-53 | the rendered rows are exactly the kept records with their multiplicities, sorted by the comparator, stable on equal keys |
| RosterView.NextSort | frontend/src/components/DataTable.jsx:55-62 | after a header click the clicked column is the sort key; the same column flips the direction, another one sorts ascending |
| RosterView.SortTwiceRestores | frontend/src/components/DataTable.jsx:55-62 | clicking the same header twice restores the sort state |
| RosterView.SortNewKeyAscending | frontend/src/components/DataTable.jsx:55-62 | after clicking two different headers the second sorts ascending, whatever the start state |
| RosterView.TableState.constructor | frontend/src/components/DataTable.jsx:16-27 | the table starts with no search, sorted by roll number ascending, and no thresholds |
| RosterView.TableState.SetSearch | frontend/src/components/DataTable.jsx:93 | the search box sets the search text and nothing else |
| RosterView.TableState.SetMinLC | frontend/src/components/DataTable.jsx:137 | the LeetCode input sets its threshold and nothing else |
| RosterView.TableState.SetMinStar | frontend/src/components/DataTable.jsx:148-181 | each star input sets its own skill's threshold and keeps the other three, the search, the sort and the LeetCode threshold |
| RosterView.TableState.HandleSort | frontend/src/components/DataTable.jsx:55-62 | the sort state becomes `NextSort` of the old one; search and thresholds unchanged |
| RosterView.TableState.ResetFilters | frontend/src/components/DataTable.jsx:185-188 | the five thresholds are cleared, the search and sort are kept, and the rendered rows become the search-only view |
| RosterView.TableState.HandleExportFiltered | frontend/src/components/DataTable.jsx:69-78 | the export filters are the five raw threshold texts, without the search text |
| RosterView.ResetViewIsSearchOnly | frontend/src/components/DataTable.jsx:185-188 | after Reset Filters a record is shown exactly when it is in the roster and matches the search |
| Session.RefusalMessage | frontend/src/context/AuthContext.jsx:48-51 | a refused login's message is the response detail when it is non-empty, else a fixed non-empty text |
| Session.AuthSession.constructor | frontend/src/context/AuthContext.jsx:11-13 | the session starts from the stored token, with no user and `loading` true, and satisfies the invariant |
| Session.AuthSession.Init | frontend/src/context/AuthContext.jsx:15-21 | with a token the profile is fetched once; without one no request is sent, and `loading` ends false |
| Session.AuthSession.FetchProfile | frontend/src/context/AuthContext.jsx:23-39 | an OK answer sets the user and keeps the token; not-OK or a throw logs out; `loading` ends false; the invariant is kept |
| Session.AuthSession.Login | frontend/src/context/AuthContext.jsx:41-58 | OK sets token, user and stored token from the response; a refusal or throw yields its error message and changes nothing |
| Session.AuthSession.Logout | frontend/src/context/AuthContext.jsx:60-64 | token, user and stored token are cleared |
| Session.AuthSession.RefreshProfile | frontend/src/context/AuthContext.jsx:66-68 | a profile fetch when a token is present, no request and no change otherwise |
| RosterPage.StopIndex | frontend/src/pages/CategoryDetail.jsx:49-69 | the bulk loop stops at the first thrown request, or runs through all of them |
| RosterPage.BulkTraceMonotone | frontend/src/pages/CategoryDetail.jsx:44-64 | the progress record's total stays the roster size, and its `current` never decreases and never exceeds the total |
| RosterPage.BulkRunsToCompletion | frontend/src/pages/CategoryDetail.jsx:49-65 | with no thrown request every student is requested, and the run ends with `Completed!` at `n / n` |
| RosterPage.NoAnswerNoChange | frontend/src/pages/CategoryDetail.jsx:58-62 | when no answer is OK the roster is left as it was |
| RosterPage.Issued | frontend/src/pages/CategoryDetail.jsx:49-69 | a run sends one request past the last one that did not throw, or all of them |
| RosterPage.ReplaceUnknownId | frontend/src/pages/CategoryDetail.jsx:81 | refreshing an id that is not in the roster leaves it unchanged |
| RosterPage.ReplaceUniqueId | frontend/src/pages/CategoryDetail.jsx:81 | with unique ids, replacing by id replaces exactly the one entry with that id |
| RosterPage.ExportParams | frontend/src/pages/CategoryDetail.jsx:92-96 | at most five parameters, each with a non-empty value |
| RosterPage.ExportQueryRoundTrip | frontend/src/pages/CategoryDetail.jsx:91-96 | reading the export query back gives exactly the truthy filters in their fixed order, for values without `&` or `=` |
| RosterPage.ExportUrlUnfiltered | frontend/src/pages/CategoryDetail.jsx:91 | with every filter empty the URL ends at `?` |
| RosterPage.ExportUrlPieces | frontend/src/pages/CategoryDetail.jsx:91-96 | the export URL is the base followed by the five conditional pieces in order |
| RosterPage.QueryConcat | frontend/src/pages/CategoryDetail.jsx:92-96 | the query of concatenated parameter lists is the concatenated query |
| RosterPage.CategoryPage.constructor | frontend/src/pages/CategoryDetail.jsx:11-15 | the page starts with an empty roster, `loading` true, no refresh, an empty progress record and no error |
| RosterPage.CategoryPage.FetchStudents | frontend/src/pages/CategoryDetail.jsx:23-37 | a listing replaces the roster; a non-OK answer or a throw keeps it and sets the error message; `loading` ends false |
| RosterPage.CategoryPage.RefreshAll | frontend/src/pages/CategoryDetail.jsx:39-70 | nothing happens for an empty roster or an unconfirmed dialog; otherwise the run's requests, roster and progress records are those of the reference functions |
| RosterPage.CategoryPage.RunRefresh | frontend/src/pages/CategoryDetail.jsx:43-69 | the snapshot's ids are requested in order up to the first throw; entry i is replaced on an OK answer; the progress log is `BulkTrace`; `fetchLoading` ends false on a throw, else the settle timer is pending |
| RosterPage.CategoryPage.RequestStudent | frontend/src/pages/CategoryDetail.jsx:50-62 | one loop pass publishes the progress record, requests the student and applies the answer |
| RosterPage.CategoryPage.SettleElapsed | frontend/src/pages/CategoryDetail.jsx:65 | the settle timer clears `fetchLoading` and nothing else |
| RosterPage.CategoryPage.RefreshSingle | frontend/src/pages/CategoryDetail.jsx:72-87 | an OK answer replaces the records with that id; otherwise the roster is kept; `fetchLoading` ends false |
| RosterPage.CategoryPage.AppendParam | frontend/src/pages/CategoryDetail.jsx:92-96 | one conditional append adds exactly its piece |
| RosterPage.CategoryPage.HandleExport | frontend/src/pages/CategoryDetail.jsx:89-97 | the URL requested is `ExportUrl` of the base, the category and the filters |
| RosterPage.CategoryPage.HandleDeleteAll | frontend/src/pages/CategoryDetail.jsx:117-131 | nothing without confirmation; a successful delete empties the roster and refreshes the profile (a session without a token is left unchanged, one with a token fetches the profile once); a failure keeps the roster |
| Scraper.NonEmpty | backend/scraper.py:21 | the kept path parts are exactly the non-empty parts of the input, in their order, each as often as it occurs |
| Scraper.SegmentsCons | backend/scraper.py:21 | a path `/n` followed by a slash-started rest has `n` as its first segment and the rest's segments after it |
| Scraper.SegmentsTrailingSlash | backend/scraper.py:19-21 | a trailing slash adds no path segment |
| Scraper.SegmentsDoubleSlash | backend/scraper.py:21 | a doubled slash adds no path segment |
| Scraper.ExtractUsername | backend/scraper.py:15-59 | no URL or no segment gives no name; any name found is a non-empty text without `/` and one of the path's segments |
| Scraper.ExtractIgnoresSlashes | backend/scraper.py:19-21 | the name ignores trailing and doubled slashes |
| Scraper.ExtractPrefixForm | backend/scraper.py:27-28 | `/u/{name}` (LeetCode) or `/profile/{name}` (HackerRank) gives `name`, whatever follows |
| Scraper.ExtractFirstSegment | backend/scraper.py:30-36 | outside the prefix form the first segment is the name exactly when it is not a reserved site path, whatever segments follow |
| Scraper.ExtractReserved | backend/scraper.py:32-36 | a reserved first segment outside the prefix form gives no name |
| Scraper.FirstAllCountSpec | backend/scraper.py:99-102 | a count is found exactly when an `"All"` entry exists, and it is the first such entry's count |
| Scraper.FindAllCount | backend/scraper.py:99-101 | the search loop returns the first `"All"` entry's count |
| Scraper.FetchLeetcodeSolved | backend/scraper.py:62-106 | no name gives 0 without a request; a 200 with a matched user gives the `"All"` count; anything else gives `None` |
| Scraper.Classify | backend/scraper.py:130-140 | a badge is Java exactly when its lower-cased name contains "java" but not "javascript" |
| Scraper.ClassifyIgnoresCase | backend/scraper.py:130 | classification ignores letter case |
| Scraper.JavascriptIsNotJava | backend/scraper.py:133 | a "javascript" badge never counts as Java |
| Scraper.AddBadgeSkill | backend/scraper.py:133-140 | a badge raises only its own skill, to the maximum of the old value and its stars |
| Scraper.TallyIsMax | backend/scraper.py:112-140 | each skill's stars are the maximum of 0 and the stars of the badges classified under it |
| Scraper.TallyMonotone | backend/scraper.py:129-140 | a skill's stars never decrease as badges are folded in |
| Scraper.FoldBadge | backend/scraper.py:129-140 | one loop pass raises for a `null` name, or for `null` stars on a classified badge; otherwise it folds the badge in with `AddBadge` |
| Scraper.AggregateBadges | backend/scraper.py:112-142 | the badge loop computes the per-skill maximum `Tally` when no badge raises, and `None` (the caught exception) when one does |
| Scraper.FetchHackerrankBadges | backend/scraper.py:109-147 | no name gives all zeros without a request; a 200 gives the tally of its badges, or `None` when `models` is `null` or a badge raises; any other status gives `None` |
| Scraper.Assemble | backend/scraper.py:189-195 | the four star fields are all `None` exactly when the badge result is `None`, and otherwise its four values |
| Scraper.ScrapeStudentData | backend/scraper.py:182-195 | the LeetCode count is 0 without a name, the `"All"` count of a 200 with a matched user, else `None`; the four star fields are zeros without a HackerRank name, all `None` for another status, a `null` `models` or a raising badge, and the badge tally otherwise |
| Api.BearerToken | backend/main.py:53-55 | 401 exactly when the header is missing or does not start with `Bearer `, else the second space-separated field |
| Api.BearerRoundTrip | backend/main.py:53-55 | a token without spaces comes back from its `Bearer` header unchanged |
| Api.BearerIgnoresTrailingFields | backend/main.py:55 | only the first field after `Bearer ` is the token |
| Api.CurrentUser | backend/main.py:52-62 | a 401 "Not authenticated" for a bad header, "Invalid or expired token" for an undecodable token, "User not found" for a missing subject or user; the user exactly when the token decodes to a subject that names an existing user |
| Api.UpperCaseExtensionRefused | backend/main.py:164-165 | the extension test is case-sensitive: `.XLSX` and `.XLS` are refused |
| Api.LowerCaseExtensionAccepted | backend/main.py:164-165 | `.xlsx` and `.xls` are accepted |
| Api.LastColumnSpec | backend/main.py:174-184 | the column found for a field is its last column, and none is found exactly when no column names it |
| Api.HeaderMapLastColumn | backend/main.py:173-184 | the header map holds, for each field, its last column, and no other field |
| Api.ClassifyHeaders | backend/main.py:173-184 | the header loop maps each named field to its last column, and nothing else |
| Api.NamedRows | backend/main.py:202-205 | the named rows are just the rows whose name cell is not empty |
| Api.ExtractedIsNamedRows | backend/main.py:202-220 | the extracted students are the named rows, in order, each mapped to its student |
| Api.BlankNameKept | backend/main.py:203-212 | a name cell of spaces is not skipped: its student gets the empty name |
| Api.ExtractRows | backend/main.py:201-220 | the row loop yields the extracted students and counts them |
| Api.Without | backend/main.py:195-198 | the delete leaves exactly the rows not owned by the user in the category |
| Api.OwnedCount | backend/main.py:363-367 | the deleted count and the remaining rows add up to the old table |
| Api.WithoutIdempotent | backend/main.py:363-367 | deleting twice is deleting once |
| Api.Stored | backend/main.py:211-219 | one stored row per new student, in order, owned by the user in the category, with the student's name, roll number and both URLs, and all five metrics `None` |
| Api.UploadThenDelete | backend/main.py:194-220 | an upload followed by a delete of the same category leaves exactly the other users' and other categories' rows |
| Api.Account.SetUploaded | backend/main.py:222-226 | sets the category's flag and keeps the other three |
| Api.StudentTable.DeleteOwned | backend/main.py:195-198 | removes the owned rows and returns how many there were |
| Api.StudentTable.AddAll | backend/main.py:211-219 | appends the stored rows of the new students |
| Api.SheetPlan | backend/main.py:173-220 | a 400 names the first missing required column; the sheet succeeds exactly when both columns exist, with the students of its named data rows |
| Api.UploadPlan | backend/main.py:154-234 | the checks run in order: category (400), extension (400), unreadable file (500), then the sheet |
| Api.UploadExcel | backend/main.py:154-234 | a refused upload changes neither table nor flags; a complete one replaces the user's rows of the category, sets its flag and counts the students |
| Api.StoreUpload | backend/main.py:194-229 | the delete, the row inserts and the flag update, returning the student count |
| Api.GetStudents | backend/main.py:238-252 | 400 exactly for another category, else the user's rows of it |
| Api.DeleteCategoryData | backend/main.py:354-375 | 400 for another category with no change, else the owned rows are removed, counted, and the flag cleared |
| Api.ExportRow | backend/main.py:418-430 | every exported data row is as wide as the header |
| Api.ExportCategoryData | backend/main.py:378-430 | 400 for another category, 404 for no rows, else the export sheet |
| Api.ExportSheetShape | backend/main.py:403-430 | the header row comes first, and row `i` is the `i`-th student numbered `i` |
| Api.ExportHeaderColumns | backend/main.py:173-184 | the export header classifies to name 2, roll number 3, LeetCode 9 and HackerRank 10 |
| Api.ExportRowReimport | backend/main.py:201-220 | a re-uploaded export row yields its student's four text fields |
| Api.ExportRowsReimport | backend/main.py:201-220 | the re-uploaded export rows yield all the exported students, in order |
| Api.ExportReimport | backend/main.py:154-220 | uploading an export of students with non-empty, unpadded text fields succeeds with exactly those students |

## Left out

- URL parsing: `urlparse` is not modelled. The path component of the stripped URL
  is an input to `Scraper.ExtractUsername`, next to the URL itself.
- `Scraper.ExtractUsername`: the `strip().rstrip("/")` step comes before
  `urlparse` in the code. The model assumes the path given is that of the
  stripped URL.
- Character classes: upper and lower case are ASCII only. `strip` removes only the
  whitespace characters below U+0080. JavaScript's `toLowerCase` and Python's `lower`/`strip`
  handle all of Unicode; the model does not.
- `parseInt` is modelled for decimal text only. The hex prefix `0x` is not
  modelled. The leading whitespace it skips is the ECMAScript WhiteSpace and
  LineTerminator set (ECMA-262, sections 12.2 and 12.3).
- JavaScript strings: these are UTF-16 code units, and the model compares
  characters as code points.
- `RosterView.StableSort`: the engine's sort algorithm is replaced by a stable
  insertion sort. Its result is proved sorted, a permutation of its input and
  stable. With the comparator proved consistent, these three facts fix the
  order that any stable sort produces.
- React: render batching and the `useEffect` dependency on `category` are not
  modelled. A state update takes effect when its call returns.
- Timers, dialogs and alerts: the 1500 ms timer is the separate step
  `SettleElapsed`. `window.confirm` is a boolean input. `alert` is not modelled.
- Refresh lock: nothing stops a second refresh while one runs, and the model does
  not interleave two of them.
- The progress bar's percentage and all rendering are not modelled.
- HackerRank fallback: the profile request in `backend/scraper.py:149-179` is
  unreachable. Every path of the `try` above it returns, so it is not modelled.
- `time.sleep`, the request headers and the logging in `scraper.py` are not
  modelled.
- `fetch_student_data` (`backend/main.py:275-316`), the endpoint that calls the
  scraper and stores its result, is not part of this model. Its effect in the
  browser is the outcome record of `RefreshSingle` and `RunRefresh`.
- Authentication: JWT decoding and the user lookup are parameters of
  `Api.CurrentUser`. Password handling and the auth routes are not modelled.
- Spreadsheets and the database: `openpyxl` is not modelled. A workbook is a
  sequence of rows of cells, and a file that fails to load is `None`. The
  database is a sequence of rows. The streaming response and static file serving
  are not modelled.
- Cell values are blank, text or whole numbers. Float, boolean and date cells are
  not modelled.
- JSON values in the scraper: a `badge_name`, `stars` or `models` is absent,
  `null` or present. A `null` `badge_name`, a `null` `stars` on a classified
  badge and a `null` `models` raise in Python; the model gives the caught
  `None`. A name that is not a string and stars that are not whole numbers are
  not modelled. A `null` LeetCode `count` is not modelled; the count is a
  whole number.
- JSON values elsewhere: `null` and an absent key are one case (`None`).
- `FileUpload.jsx` is context, and its client-side checks are not modelled.
- Query order: the database's `order_by(roll_number)` is taken as given. The
  query result is an input to `GetStudents` and `ExportCategoryData`.
- Database ids live only in the browser's `Student` record. `StudentRow` has no
  id.
- `Api.UploadExcel`: a database exception after the delete has committed is not
  modelled. The model treats the upload as all-or-nothing past the column
  checks.
- `Api.UploadPlan`: the 500's detail is shortened to `"Error processing file"`.
  The code appends the exception text.
- `Api.ExportCategoryData`: the sheet title and the download file name (with its
  timestamp) are not modelled.
