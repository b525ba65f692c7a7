/** The `POST /scan` route (`scan_files`): read the request's options with
    their defaults, run `scan_directory`, sort the records by the requested
    column and answer with the list, or with status 400 and the message of
    whatever was raised.

    The sort itself is `ListSort`; this module supplies the key function of
    each column. */
module FileRoutes {

  import opened Wrappers
  import opened PyStrings
  import opened FileScanner
  import opened ListSort

  /** The JSON body of the request: None where a key is absent. */
  datatype ScanRequest = ScanRequest(
    directory: string,
    excludeHidden: Option<bool>,
    excludePyc: Option<bool>,
    excludeInit: Option<bool>,
    minSize: Option<int>,
    maxSize: Option<int>,
    extensions: Option<seq<string>>,
    sortBy: Option<string>,
    sortOrder: Option<string>,
    dateCreatedRange: Option<seq<string>>,
    dateModifiedRange: Option<seq<string>>,
    dateAccessedRange: Option<seq<string>>)

  /** `dict.get(key, default)`. */
  function OrDefault<T>(o: Option<T>, default: T): T {
    if o.Some? then o.value else default
  }

  const DefaultSortBy := "file_name"
  const DefaultSortOrder := "asc"
  const Descending := "desc"

  /** The keyword arguments handed to `scan_directory` when no date range is
      given: the three exclusions default to true, an absent or empty
      extension list switches that filter off. */
  function ScanOptions(req: ScanRequest): (opts: Options)
    ensures opts.excludeHidden == (req.excludeHidden != Some(false))
    ensures opts.excludePyc == (req.excludePyc != Some(false))
    ensures opts.excludeInit == (req.excludeInit != Some(false))
    ensures opts.minSize == req.minSize && opts.maxSize == req.maxSize
    ensures opts.extensions == (if req.extensions.Some? then req.extensions.value else [])
    ensures opts.createdRange.None? && opts.modifiedRange.None? && opts.accessedRange.None?
  {
    Options(
      OrDefault(req.excludeHidden, true),
      OrDefault(req.excludePyc, true),
      OrDefault(req.excludeInit, true),
      req.minSize,
      req.maxSize,
      OrDefault(req.extensions, []),
      None, None, None)
  }

  /** A date range is truthy: present and not an empty list. */
  predicate Truthy(range: Option<seq<string>>) {
    range.Some? && range.value != []
  }

  predicate RangeGiven(req: ScanRequest) {
    Truthy(req.dateCreatedRange) || Truthy(req.dateModifiedRange) || Truthy(req.dateAccessedRange)
  }

  /** `str(e)` for the NameError raised where a date range is converted:
      the module never imports `datetime`. */
  const DatetimeUndefined := "name 'datetime' is not defined"

  /** The columns `sort_by` can name. */
  datatype Column = ByName | BySize | ByCreated | ByModified | ByAccessed

  function ColumnName(c: Column): string {
    match c
    case ByName => "file_name"
    case BySize => "file_size"
    case ByCreated => "date_created"
    case ByModified => "date_modified"
    case ByAccessed => "date_accessed"
  }

  /** The branch of the `if`/`elif` chain taken for `sortBy`; None when no
      branch is, and the list is left in scan order. */
  function ColumnOf(sortBy: string): (c: Option<Column>)
    ensures c.Some? ==> ColumnName(c.value) == sortBy
    ensures c.None? ==> forall col :: ColumnName(col) != sortBy
  {
    if sortBy == "file_name" then Some(ByName)
    else if sortBy == "file_size" then Some(BySize)
    else if sortBy in ["date_created", "date_modified", "date_accessed"] then
      (if sortBy == "date_created" then Some(ByCreated)
       else if sortBy == "date_modified" then Some(ByModified)
       else Some(ByAccessed))
    else None
  }

  /** A value of a record's dict. */
  datatype Value = Str(s: string) | Int(n: int)

  /** The record as the dict `scan_directory` yields: exactly five keys. */
  function Field(r: FileRecord, key: string): (v: Option<Value>)
    ensures v.Some? <==> key in ["file_path", "file_size", "date_created", "date_modified", "date_accessed"]
  {
    if key == "file_path" then Some(Str(r.filePath))
    else if key == "file_size" then Some(Int(r.fileSize))
    else if key == "date_created" then Some(Str(r.dateCreated))
    else if key == "date_modified" then Some(Str(r.dateModified))
    else if key == "date_accessed" then Some(Str(r.dateAccessed))
    else None
  }

  function StrOr(v: Option<Value>, default: string): string {
    if v.Some? && v.value.Str? then v.value.s else default
  }

  function IntOr(v: Option<Value>, default: int): int {
    if v.Some? && v.value.Int? then v.value.n else default
  }

  /** The key function the route passes to `list.sort` for column `c`. */
  function KeyOf(r: FileRecord, c: Column): (k: Key)
    ensures c == BySize ==> k == Number(r.fileSize)
    ensures c == ByCreated ==> k == Text(r.dateCreated)
    ensures c == ByModified ==> k == Text(r.dateModified)
    ensures c == ByAccessed ==> k == Text(r.dateAccessed)
    ensures c == ByName ==> k == Text("")
  {
    match c
    case ByName => Text(Lower(StrOr(Field(r, "file_name"), "")))
    case BySize => Number(IntOr(Field(r, "file_size"), 0))
    case ByCreated => Text(StrOr(Field(r, "date_created"), ""))
    case ByModified => Text(StrOr(Field(r, "date_modified"), ""))
    case ByAccessed => Text(StrOr(Field(r, "date_accessed"), ""))
  }

  /** `KeyOf` for one column, as the function value handed to the sort. */
  function KeyFn(c: Column): FileRecord -> Key {
    r => KeyOf(r, c)
  }

  /** The records have no "file_name" key, so sorting by name compares ""
      with "" and leaves the scan order untouched, ascending or descending. */
  lemma NameSortKeepsOrder(s: seq<FileRecord>, desc: bool)
    ensures StableSort(s, KeyFn(ByName), desc) == s
  {
    StableSortSameKey(s, KeyFn(ByName), desc, Text(""));
  }

  /** The date columns hold `'%m/%d/%Y %H:%M:%S'` text and are compared as
      text: a December record sorts after a January record of the next year. */
  lemma DateTextOrderNotChronological(x: FileRecord, y: FileRecord)
    requires x.dateCreated == "12/31/2023 23:59:59" && y.dateCreated == "01/01/2024 00:00:00"
    ensures Before(y, x, KeyFn(ByCreated), false)
  {
  }

  /** The `if`/`elif` chain of lines 77-83: sort by the named column, in
      descending order exactly when `sortOrder` is "desc"; any other
      `sortBy` leaves the list alone. */
  method SortBy(a: array<FileRecord>, sortBy: string, sortOrder: string)
    modifies a
    ensures ColumnOf(sortBy).None? ==> a[..] == old(a[..])
    ensures ColumnOf(sortBy).Some? ==> a[..] == StableSort(old(a[..]), KeyFn(ColumnOf(sortBy).value), sortOrder == Descending)
  {
    var desc := sortOrder == Descending;
    var col := ColumnOf(sortBy);
    if col.Some? {
      SortInPlace(a, KeyFn(col.value), desc);
    }
  }

  datatype ScanPayload = Files(files: seq<FileRecord>) | Error(error: string)

  datatype ScanResponse = ScanResponse(payload: ScanPayload, status: int)

  /** The list the route answers with after a successful scan. */
  function Answer(records: seq<FileRecord>, req: ScanRequest): seq<FileRecord> {
    var col := ColumnOf(OrDefault(req.sortBy, DefaultSortBy));
    if col.None? then records
    else StableSort(records, KeyFn(col.value), OrDefault(req.sortOrder, DefaultSortOrder) == Descending)
  }

  /** `scan_files`. A truthy date range raises NameError before the scan
      starts; a scan that raises gives 400 with its message; otherwise the
      answer is the scanned records, rearranged by the requested sort. */
  method ScanFiles(req: ScanRequest, walk: seq<Listing>) returns (resp: ScanResponse)
    ensures RangeGiven(req) ==> resp == ScanResponse(Error(DatetimeUndefined), 400)
    ensures !RangeGiven(req) && Scan(req.directory, walk, ScanOptions(req)).Err? ==>
              resp == ScanResponse(Error(Scan(req.directory, walk, ScanOptions(req)).msg), 400)
    ensures !RangeGiven(req) && Scan(req.directory, walk, ScanOptions(req)).Ok? ==>
              resp == ScanResponse(Files(Answer(Scan(req.directory, walk, ScanOptions(req)).value, req)), 200)
    ensures resp.status == 200 ==>
              resp.payload.Files? && multiset(resp.payload.files) == multiset(Scan(req.directory, walk, ScanOptions(req)).value)
  {
    if RangeGiven(req) {
      return ScanResponse(Error(DatetimeUndefined), 400);
    }
    var scanned := ScanDirectory(req.directory, walk, ScanOptions(req));
    if scanned.Err? {
      return ScanResponse(Error(scanned.msg), 400);
    }
    var records := scanned.value;
    var a := new FileRecord[|records|](i requires 0 <= i < |records| => records[i]);
    assert a[..] == records;
    SortBy(a, OrDefault(req.sortBy, DefaultSortBy), OrDefault(req.sortOrder, DefaultSortOrder));
    var col := ColumnOf(OrDefault(req.sortBy, DefaultSortBy));
    if col.Some? {
      StableSortPermutation(records, KeyFn(col.value), OrDefault(req.sortOrder, DefaultSortOrder) == Descending);
    }
    resp := ScanResponse(Files(a[..]), 200);
  }

  /** A request with no keys but the directory: hidden files, `.pyc` files
      and `__init__.py` are excluded, nothing else is filtered, and the
      records keep their scan order. */
  lemma DefaultRequest(dir: string, walk: seq<Listing>, records: seq<FileRecord>)
    ensures var req := ScanRequest(dir, None, None, None, None, None, None, None, None, None, None, None);
      && !RangeGiven(req)
      && ScanOptions(req) == Options(true, true, true, None, None, [], None, None, None)
      && Answer(records, req) == records
  {
    NameSortKeepsOrder(records, false);
  }

  /** An answered scan is sorted by the requested column and keeps equal
      keys in scan order. */
  lemma AnswerSorted(records: seq<FileRecord>, req: ScanRequest)
    requires ColumnOf(OrDefault(req.sortBy, DefaultSortBy)).Some?
    ensures var c := KeyFn(ColumnOf(OrDefault(req.sortBy, DefaultSortBy)).value);
      var desc := OrDefault(req.sortOrder, DefaultSortOrder) == Descending;
      && Sorted(Answer(records, req), c, desc)
      && multiset(Answer(records, req)) == multiset(records)
      && forall k :: WithKey(Answer(records, req), c, k) == WithKey(records, c, k)
  {
    var c := KeyFn(ColumnOf(OrDefault(req.sortBy, DefaultSortBy)).value);
    var desc := OrDefault(req.sortOrder, DefaultSortOrder) == Descending;
    StableSortSorted(records, c, desc);
    StableSortPermutation(records, c, desc);
    forall k {
      StableSortStable(records, c, desc, k);
    }
  }
}
