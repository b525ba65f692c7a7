# capstone backend core, in Dafny

A model of three pieces of the Flask backend of the capstone calendar and
file-scanner application, with proofs about them:

- **The event store** (`backend/routes/event_routes.py`): the module-level
  list `events_db` and the five handlers that read it, append to it, patch an
  entry in place, filter it by start date and rebind it without an id. It is
  modelled as the class `EventRoutes.EventStore` with one field
  `events: seq<Event>`. Each handler is a method returning a payload and a
  status code. The `'%Y-%m-%d'` parse that `get_events` applies is a partial
  function (`Dates.ParseYmd`) written after CPython's `_strptime`: the same
  regular-expression alternatives and the leftover-text check, then the
  `datetime` range checks.
- **The directory scan** (`backend/utils/file_scanner.py`): the generator
  `scan_directory`. Its walk is an input, namely the listings `os.walk` would
  produce in top-down order. Each file entry carries its size, integer
  timestamps and formatted date texts, or the reason its `stat` failed.
  Removing `venv` from `dirs` becomes "listings below a `venv` component are
  never reached". The per-file `continue` chain is a predicate. The generator
  loop is a method (`FileScanner.ScanDirectory`) proved equal to a
  specification function (`FileScanner.Scan`). Lemmas then state what that
  function yields.
- **The scan route** (`backend/routes/file_routes.py`, `scan_files`): the
  request defaults, the call to `scan_directory`, and the `if`/`elif` sort
  dispatch. The sort is an in-place stable insertion sort on an array
  (`ListSort.SortInPlace`), proved equal to `ListSort.StableSort`. It is
  permuting, ordered and stable, which pins down the one result Python's
  stable `list.sort` can give. The model also covers the catch-all `except`
  that answers 400.

The model follows the code wherever the code behaves differently from what
its design suggests:

- `file_routes.py` never imports `datetime`. Any truthy date range therefore
  raises `NameError` at one of lines 71-73 (the line of the first truthy
  range), inside the `try`, and the route answers 400
  with "name 'datetime' is not defined". The timestamp filters of
  `scan_directory` are still modelled and proved, but the route never
  reaches them.
- The scanner's records have no `file_name` key. So the default sort (by
  name) compares `""` with `""` and returns the records in walk order.
- The three date columns hold `'%m/%d/%Y %H:%M:%S'` text and are sorted as
  text, which is not chronological order.
- `backend/routes/event_routes.py` has no duplicate or overlap detection, no
  validation of dates or times on creation, no pagination and no
  group/visibility fields: `add_event` appends once a title and a start date
  are present, and `update_event` patches without any check.

Modules: `Wrappers` (Option, Result, subsequences), `PyStrings`, `Dates`,
`EventRoutes`, `FileScanner`, `ListSort` and `FileRoutes`.

## Model

| member | source | states |
|---|---|---|
| EventRoutes.Get | backend/routes/event_routes.py:44-52 | a stored event is a dict with exactly the seven keys id, title, description, start_date, end_date, time, location |
| EventRoutes.FirstIndex | backend/routes/event_routes.py:11-15 | None exactly when no event has the id; otherwise the index of an event with that id, with no match before it |
| EventRoutes.FirstIndexUnique | backend/routes/event_routes.py:11-15 | the first-match index is the only index with a match and no earlier match |
| EventRoutes.EventStore.FindEvent | backend/routes/event_routes.py:11-15 | the early-return loop finds the first event in list order with the id, or None when there is none |
| EventRoutes.Supplied | backend/routes/event_routes.py:23 | a query argument counts only when present and non-empty |
| EventRoutes.InRange | backend/routes/event_routes.py:29 | the chained comparison `start <= d <= end`, both ends inclusive |
| EventRoutes.StartsInRange | backend/routes/event_routes.py:29 | the comprehension's condition: the event's start date parses and lies in the inclusive range |
| EventRoutes.FilterByStartDate | backend/routes/event_routes.py:27-30 | the comprehension's result is a subsequence of the store, in store order (it is defined from the last event back, which yields the same list or the same failure) |
| EventRoutes.FilterByStartDateSnoc | backend/routes/event_routes.py:27-30 | one event more: the comprehension succeeds exactly when it succeeds on the shorter store and the new start date parses, and then appends the new event exactly when it is in range |
| EventRoutes.FilterByStartDateFails | backend/routes/event_routes.py:27-33 | the comprehension raises exactly when some stored start date does not parse |
| EventRoutes.FilterByStartDateCounts | backend/routes/event_routes.py:27-30 | a successful comprehension holds each in-range event exactly as often as the store does, and no other event |
| EventRoutes.FilterByStartDateMeans | backend/routes/event_routes.py:24-33 | the comprehension raises exactly when some stored start date does not parse; otherwise it keeps exactly the in-range events, each as often as it is stored |
| EventRoutes.EventStore.GetEvents | backend/routes/event_routes.py:19-35 | without both arguments, the whole list and 200; with both, 400 "Invalid date format" exactly when a bound or a stored start date does not parse, otherwise 200 with exactly the in-range events, each as often as it is stored, in store order; the store is unchanged |
| EventRoutes.BodyGet | backend/routes/event_routes.py:47-51 | `data.get(key, default)`: the body's value when the key is present, the default otherwise |
| EventRoutes.Creatable | backend/routes/event_routes.py:41 | a body is accepted when it is present and non-empty and has a non-empty title and start date |
| EventRoutes.NewEvent | backend/routes/event_routes.py:44-52 | the new event has the given id, the body's title and start date, end_date defaulting to start_date, and description, time and location defaulting to "" |
| EventRoutes.EventStore.AddEvent | backend/routes/event_routes.py:39-54 | a missing or empty body, or an empty or absent title or start date, gives 400 and no change; otherwise exactly one new event is appended, 201 is returned, and a fresh id finds it |
| EventRoutes.Patch | backend/routes/event_routes.py:64-71 | each of the six updatable keys takes the body's value when supplied and keeps its value otherwise; id is never changed |
| EventRoutes.EventStore.UpdateEvent | backend/routes/event_routes.py:58-72 | unknown id gives 404 and no change; a null body raises, which Flask turns into 500 with no change; otherwise the first matching event is patched in place, all other entries and the length unchanged, and 200 |
| EventRoutes.WithoutId | backend/routes/event_routes.py:82 | the rebound list is a subsequence of the old one holding each event with another id exactly as often as before and no event with the id, and is shorter when the id occurred |
| EventRoutes.EventStore.DeleteEvent | backend/routes/event_routes.py:76-83 | unknown id gives 404 and no change; otherwise every event with that id is removed, the rest keep their order, and 200 |
| EventRoutes.EventStore.constructor | backend/routes/event_routes.py:8 | the store starts empty |
| Dates.IsLeapYear | backend/routes/event_routes.py:25-26 | definition: the Gregorian leap-year rule `datetime` applies (divisible by 4, and not by 100 unless by 400) |
| Dates.DaysInMonth | backend/routes/event_routes.py:25-26 | the length of a month is between 28 and 31 days: 29 in February of a leap year, 28 in other Februaries, 30 in April, June, September and November, 31 otherwise |
| Dates.ValidDate | backend/routes/event_routes.py:25-29 | definition: the dates `datetime` accepts, with year 1..9999, month 1..12 and a day within its month; any other field values make strptime raise ValueError |
| Dates.MonthField | backend/routes/event_routes.py:25-26 | the `%m` alternative that can be followed by '-' yields a month 1..12 of one or two characters |
| Dates.DayField | backend/routes/event_routes.py:25-26 | the first `%d` alternative that matches yields a day 1..31 of one or two characters |
| Dates.ParseYmd | backend/routes/event_routes.py:25-29 | a successful parse is a valid calendar date (year 1..9999, day within its month) of text starting with four digits and '-' |
| Dates.FormatYmd | backend/routes/event_routes.py:48 | the canonical form is ten characters with '-' at positions 4 and 7 |
| Dates.DateLe | backend/routes/event_routes.py:29 | `datetime` comparison of two parsed dates: by year, then month, then day |
| Dates.ParseFormatRoundTrip | backend/routes/event_routes.py:25-29 | every valid date in canonical `YYYY-MM-DD` form parses back to itself |
| Dates.ParseAcceptsShortFields | backend/routes/event_routes.py:25-29 | strptime also accepts one-digit months and days and a day with a leading space |
| Dates.ParseRejects | backend/routes/event_routes.py:25-33 | February 29 of a common year, year 0, a three-digit day and trailing text are rejected |
| PyStrings.StartsWith | backend/utils/file_scanner.py:17 | `str.startswith`: the prefix is no longer than the string and equals its first characters |
| PyStrings.EndsWith | backend/utils/file_scanner.py:19 | `str.endswith`: the suffix is no longer than the string and equals its last characters |
| PyStrings.Lower | backend/utils/file_scanner.py:26 | lower-casing keeps the length, turns each upper-case letter 'A'-'Z' into its lower-case counterpart 'a'-'z', and changes no other character |
| PyStrings.LowerNeverUpper | backend/utils/file_scanner.py:26-27 | a string holding an upper-case letter is never a lower-cased string |
| PyStrings.LastDot | backend/utils/file_scanner.py:26 | None exactly when there is no '.'; otherwise the index of a '.' with none after it |
| PyStrings.Ext | backend/utils/file_scanner.py:26 | the extension is empty or a suffix of the name starting with '.' |
| PyStrings.ExtMeans | backend/utils/file_scanner.py:26 | no extension exactly when every '.' has only dots before it; otherwise the extension is the suffix from the last '.', holding no other '.', and not everything before it is dots |
| PyStrings.ExtDotFile | backend/utils/file_scanner.py:26 | a leading-dot name with no other dot has no extension |
| PyStrings.ExtFromLastDot | backend/utils/file_scanner.py:26 | only the part from the last dot is the extension ("a.tar.gz" gives ".gz") |
| PyStrings.Join | backend/utils/file_scanner.py:30 | the joined path ends with the file name and, for a relative name and a non-empty root, starts with the root |
| PyStrings.StrLt | backend/routes/file_routes.py:79-83 | definition: Python's `<` on `str`, where the first differing code point decides and a proper prefix sorts first; the sort applies it to the name and date-text keys |
| PyStrings.StrLtIrreflexive | backend/routes/file_routes.py:83 | no string sorts before itself |
| PyStrings.StrLtTransitive | backend/routes/file_routes.py:83 | string order is transitive |
| PyStrings.StrLtTotal | backend/routes/file_routes.py:83 | any two distinct strings are ordered |
| FileScanner.Pruned | backend/utils/file_scanner.py:12-13 | a listing is never reached when one of the directories on its path below the scanned directory is named `venv` |
| FileScanner.Visited | backend/utils/file_scanner.py:11-15 | the files of the listings the pruned walk reaches, listing by listing, in walk order |
| FileScanner.NameKept | backend/utils/file_scanner.py:17-28 | the name filters: hidden, .pyc and `__init__.py` excluded only when their flag is set, and the lower-cased extension listed when the list is non-empty |
| FileScanner.SizeKept | backend/utils/file_scanner.py:34-37 | the size bounds, inclusive, each applied only when present and non-zero |
| FileScanner.TimesKept | backend/utils/file_scanner.py:46-51 | the three timestamp ranges, inclusive at both ends, each applied only when supplied |
| FileScanner.Passes | backend/utils/file_scanner.py:17-51 | a file passes when its name passes, its metadata can be read, and its size and times pass |
| FileScanner.RecordOf | backend/utils/file_scanner.py:30-59 | the record's path is the root joined with the file name and its size is the file's size |
| FileScanner.StepOf | backend/utils/file_scanner.py:15-59 | a file yields a record exactly when it passes every filter; it raises exactly when it passes the name filters and cannot be stat'ed, with the reason of that failure |
| FileScanner.PassesMeans | backend/utils/file_scanner.py:17-51 | a file passes exactly when its metadata can be read and every active filter holds: hidden, .pyc and `__init__.py` are excluded only when flagged, the lower-cased extension must be listed only when the list is non-empty, a size bound applies only when present and non-zero, a time range only when supplied, all bounds inclusive |
| FileScanner.UpperCaseExtensionsMatchNothing | backend/utils/file_scanner.py:25-28 | a non-empty extension list whose entries all hold an upper-case letter lets no file through |
| FileScanner.Passing | backend/utils/file_scanner.py:15-51 | the files that pass are a subsequence of the visited files, and a file is among them exactly when it is visited and passes every filter |
| FileScanner.PassingCounts | backend/utils/file_scanner.py:15-51 | every file that passes is kept as often as it occurs, and no other file is kept |
| FileScanner.Records | backend/utils/file_scanner.py:53-59 | definition: one record per passing file, position by position |
| FileScanner.ScanError | backend/utils/file_scanner.py:60-61 | the re-raised message: "Error scanning directory ", the path, ": " and the original message |
| FileScanner.Advance | backend/utils/file_scanner.py:15-61 | one more file of the generator: nothing more once it has raised; otherwise skip, append the record, or raise the wrapped exception |
| FileScanner.Drain | backend/utils/file_scanner.py:15-61 | draining the generator over a sequence of files, one after another |
| FileScanner.Scan | backend/utils/file_scanner.py:10-61 | `list(scan_directory(...))`: the drain over the files the pruned walk reaches |
| FileScanner.ScanListing | backend/utils/file_scanner.py:15-59 | the file loop of one listing extends the records produced so far, or ends the whole scan with the wrapped exception of the first unreadable file |
| FileScanner.ScanDirectory | backend/utils/file_scanner.py:10-61 | the generator loop drains to exactly the specification `Scan` of the walk |
| FileScanner.VisitedExactly | backend/utils/file_scanner.py:11-13 | the files reached are exactly the files of the listings with no `venv` component |
| FileScanner.VisitedReaches | backend/utils/file_scanner.py:11-13 | every file of a listing outside `venv` is reached |
| FileScanner.VisitedOrigin | backend/utils/file_scanner.py:11-13 | every reached file comes from a listing outside `venv` |
| FileScanner.VisitedInWalkOrder | backend/utils/file_scanner.py:11-15 | the reached files are a subsequence of the full walk, in walk order |
| FileScanner.DrainSucceeds | backend/utils/file_scanner.py:15-59 | draining succeeds exactly when no file that passes the name filters is unreadable, and then yields the records of the passing files in order |
| FileScanner.DrainFails | backend/utils/file_scanner.py:60-61 | a failed drain carries the wrapped reason of the first unreadable file that passes the name filters |
| FileScanner.DrainErrPersists | backend/utils/file_scanner.py:60-61 | once the generator has raised, later files change nothing |
| FileScanner.ScanStopsAt | backend/utils/file_scanner.py:10-61 | a listing whose file loop raises decides the result of the whole scan |
| FileScanner.ScanYields | backend/utils/file_scanner.py:11-59 | a successful scan yields the records of exactly the passing reached files, in walk order, a subsequence of the full walk |
| FileScanner.ScanSound | backend/utils/file_scanner.py:53-59 | every yielded record is the record of a reached file outside `venv` that passes every filter |
| FileScanner.ScanComplete | backend/utils/file_scanner.py:15-59 | every reached file that passes every filter is yielded |
| FileScanner.ScanFailure | backend/utils/file_scanner.py:60-61 | a failed scan raises once, for the first reached unreadable file that passes the name filters, with a message starting "Error scanning directory <path>: " |
| ListSort.KeyLt | backend/routes/file_routes.py:79-83 | definition: the comparison the sort applies to keys, `int` `<` for file_size and `str` `<` for file_name and the three date columns |
| ListSort.KeyLtIrreflexive | backend/routes/file_routes.py:79-83 | no key is smaller than itself |
| ListSort.KeyLtTransitive | backend/routes/file_routes.py:79-83 | key order is transitive |
| ListSort.KeyLtTotal | backend/routes/file_routes.py:79-83 | any two distinct keys are ordered |
| ListSort.Insert | backend/routes/file_routes.py:79-83 | inserting into a sorted list after every element the new one need not precede |
| ListSort.StableSort | backend/routes/file_routes.py:79-83 | `list.sort(key=..., reverse=...)`: inserting the elements one by one in list order |
| ListSort.StableSortPermutation | backend/routes/file_routes.py:79-83 | the sorted list is a permutation of its input |
| ListSort.StableSortSorted | backend/routes/file_routes.py:79-83 | the sorted list is in key order, descending when reversed |
| ListSort.StableSortStable | backend/routes/file_routes.py:79-83 | records with equal keys keep their relative order, in both directions |
| ListSort.StableSortSameKey | backend/routes/file_routes.py:79-83 | a list whose keys are all equal is returned unchanged |
| ListSort.InsertStep | backend/routes/file_routes.py:79-83 | one insertion step places the next element into the sorted prefix and leaves the rest of the array alone |
| ListSort.SortInPlace | backend/routes/file_routes.py:79-83 | the array is sorted in place to exactly the stable sort of its old contents |
| FileRoutes.OrDefault | backend/routes/file_routes.py:47-54 | definition: `data.get(key, default)` on the request, the value when present and the default otherwise |
| FileRoutes.RangeGiven | backend/routes/file_routes.py:71-73 | some date range is truthy, present and non-empty, so its conversion is evaluated |
| FileRoutes.ScanOptions | backend/routes/file_routes.py:47-70 | the exclusions default to true, size bounds and extensions are passed through, and an absent extension list switches that filter off |
| FileRoutes.ColumnOf | backend/routes/file_routes.py:78-83 | a column is chosen exactly when `sort_by` names one of the five columns |
| FileRoutes.Field | backend/utils/file_scanner.py:53-59 | a scanner record has exactly the keys file_path, file_size, date_created, date_modified and date_accessed |
| FileRoutes.KeyOf | backend/routes/file_routes.py:79-83 | the size column sorts by size, a date column by its stored text, and the name column by "" for every record |
| FileRoutes.NameSortKeepsOrder | backend/routes/file_routes.py:79 | sorting scanner records by name returns them in scan order, ascending or descending |
| FileRoutes.DateTextOrderNotChronological | backend/routes/file_routes.py:83 | a record dated 01/01/2024 sorts before one dated 12/31/2023 |
| FileRoutes.SortBy | backend/routes/file_routes.py:77-83 | a known column sorts the list stably by its key, descending exactly when the order is "desc"; any other `sort_by` leaves it unchanged |
| FileRoutes.Answer | backend/routes/file_routes.py:77-85 | the list answered after a successful scan: stably sorted by the named column, or unchanged for an unknown column |
| FileRoutes.ScanFiles | backend/routes/file_routes.py:44-87 | a truthy date range gives 400 with the NameError message; a failed scan gives 400 with its message; otherwise 200 with the sorted records, a permutation of the scanned ones |
| FileRoutes.DefaultRequest | backend/routes/file_routes.py:46-59 | a request with only a directory excludes hidden, .pyc and `__init__.py` files, filters nothing else, and answers in scan order |
| FileRoutes.AnswerSorted | backend/routes/file_routes.py:77-85 | for a known column, the answer is ordered by that column, a permutation of the scan, and stable |

## Left out

- Flask plumbing: blueprints, `request.json` and `jsonify`. A request is its
  inputs and a response is a payload with a status code.
- `uuid.uuid4()`: the new id is a parameter of `AddEvent`. Its freshness is a
  hypothesis of the one postcondition that needs it.
- The file system: `os.walk`, `os.stat`, `os.path.getsize`,
  `datetime.fromtimestamp` and `strftime` are replaced by the walk given as
  input, with integer timestamps and preformatted date texts. Local time,
  daylight-saving shifts and the race between `getsize` and `stat` are not
  modelled. A file whose metadata cannot be read fails at the `getsize` call.
- Errors that `os.walk` swallows: they show up as listings missing from the
  input walk.
- The `file_details` persistence: the JSON load at import, `atexit` saving,
  and the `/save_details` and `/details` routes. This is file I/O only.
- The frontend React code: it is UI state and network calls.
- Non-string JSON values in event bodies: a body is a map from key to
  string.
- PyStrings.Lower: only ASCII letters are lower-cased, not the full Unicode
  case mapping of `str.lower`.
- Dates.ParseYmd: only ASCII digits are accepted, while CPython's `\d` also
  matches other Unicode decimal digits.
- FileRoutes.ScanFiles: the directory is always a string, and the body
  always a JSON object. A missing directory (`None`, which `os.walk` rejects
  inside the generator) and a missing body (which raises outside the `try`)
  are not modelled.
- FileRoutes.ScanOptions: JSON `null` and mistyped option values are not modelled. An explicit
  `"exclude_hidden": null` reaches `scan_directory` as `None` and switches that
  exclusion off, while here an absent value takes the default. A string
  `min_size` raises `TypeError` inside the generator and gives 400.
- FileRoutes.KeyOf: keys of different types never meet, so comparing an
  `int` key with a `str` key (a `TypeError` in Python) is not modelled.
- Duplicate and overlap detection, pagination, visibility scopes and
  locking: they are absent from the code.
