/** `scan_directory`: walk a directory tree top-down, skip `venv`
    subdirectories, and yield one record per file that passes the name,
    extension, size and timestamp filters.

    The walk is an input: the listings `os.walk(path)` would produce with no
    pruning, in its top-down order, each with its root, its path components
    below `path`, and its files with what `os.path.getsize`/`os.stat` report
    (integer timestamps, and the `'%m/%d/%Y %H:%M:%S'` texts `strftime` makes
    of them). Removing 'venv' from a listing's subdirectory names stops the walk
    from entering that subtree and leaves the order of the others alone, so
    the pruned walk is exactly the listings with no 'venv' path component. */
module FileScanner {

  import opened Wrappers
  import opened PyStrings

  /** What the file system reports for one file, or the reason it raised. */
  datatype Meta =
    | Stat(size: nat, ctime: int, mtime: int, atime: int,
           created: string, modified: string, accessed: string)
    | Unreadable(reason: string)

  datatype FileEntry = FileEntry(name: string, meta: Meta)

  /** One `(root, dirs, files)` triple of the walk; `rel` are the directory
      names from `path` down to `root` (empty for `path` itself). */
  datatype Listing = Listing(root: string, rel: seq<string>, files: seq<FileEntry>)

  /** An inclusive time range `(lo, hi)`. */
  datatype Range = Range(lo: int, hi: int)

  /** The keyword arguments of `scan_directory`. `extensions` stands for the
      list argument (None and [] both switch the filter off); a size bound is
      active only when present and non-zero. */
  datatype Options = Options(
    excludeHidden: bool,
    excludePyc: bool,
    excludeInit: bool,
    minSize: Option<int>,
    maxSize: Option<int>,
    extensions: seq<string>,
    createdRange: Option<Range>,
    modifiedRange: Option<Range>,
    accessedRange: Option<Range>)

  /** The dict yielded per file. */
  datatype FileRecord = FileRecord(
    filePath: string,
    fileSize: nat,
    dateCreated: string,
    dateModified: string,
    dateAccessed: string)

  /** A file of the walk together with the listing it was found in. */
  datatype Located = Located(root: string, rel: seq<string>, file: FileEntry)

  /** What the loop body does with one file. */
  datatype Step = Skip | Emit(record: FileRecord) | Raise(reason: string)

  const PrunedName := "venv"

  /** A listing the walk never reaches: it lies below a 'venv' subdirectory. */
  predicate Pruned(rel: seq<string>) {
    PrunedName in rel
  }

  /** The name and extension filters, which run before the file is touched. */
  predicate NameKept(name: string, opts: Options) {
    && !(opts.excludeHidden && StartsWith(name, "."))
    && !(opts.excludePyc && EndsWith(name, ".pyc"))
    && !(opts.excludeInit && name == "__init__.py")
    && (opts.extensions == [] || Lower(Ext(name)) in opts.extensions)
  }

  /** `if bound and size < bound` / `if bound and size > bound`. */
  predicate SizeKept(size: nat, opts: Options) {
    && !(opts.minSize.Some? && opts.minSize.value != 0 && size < opts.minSize.value)
    && !(opts.maxSize.Some? && opts.maxSize.value != 0 && size > opts.maxSize.value)
  }

  predicate WithinRange(range: Option<Range>, t: int) {
    range.None? || (range.value.lo <= t <= range.value.hi)
  }

  predicate TimesKept(m: Meta, opts: Options)
    requires m.Stat?
  {
    WithinRange(opts.createdRange, m.ctime)
    && WithinRange(opts.modifiedRange, m.mtime)
    && WithinRange(opts.accessedRange, m.atime)
  }

  /** A file that gets past every filter and yields a record. */
  predicate Passes(e: Located, opts: Options) {
    NameKept(e.file.name, opts) && e.file.meta.Stat?
    && SizeKept(e.file.meta.size, opts) && TimesKept(e.file.meta, opts)
  }

  function RecordOf(e: Located): (r: FileRecord)
    requires e.file.meta.Stat?
    ensures r.filePath == Join(e.root, e.file.name) && r.fileSize == e.file.meta.size
  {
    var m := e.file.meta;
    FileRecord(Join(e.root, e.file.name), m.size, m.created, m.modified, m.accessed)
  }

  /** The body of the inner loop for one file: the `continue`s, the size lookup
      that raises for an unreadable file, and the `yield`. */
  function StepOf(e: Located, opts: Options): (s: Step)
    ensures s.Emit? <==> Passes(e, opts)
    ensures s.Emit? ==> s.record == RecordOf(e)
    ensures s.Raise? <==> NameKept(e.file.name, opts) && e.file.meta.Unreadable?
    ensures s.Raise? ==> s.reason == e.file.meta.reason
  {
    if !NameKept(e.file.name, opts) then Skip
    else match e.file.meta
      case Unreadable(reason) => Raise(reason)
      case Stat(size, _, _, _, _, _, _) =>
        if !SizeKept(size, opts) then Skip
        else if !TimesKept(e.file.meta, opts) then Skip
        else Emit(RecordOf(e))
  }

  function Locate(l: Listing, files: seq<FileEntry>): (r: seq<Located>)
    ensures |r| == |files|
    ensures forall k :: 0 <= k < |r| ==> r[k] == Located(l.root, l.rel, files[k])
  {
    seq(|files|, k requires 0 <= k < |files| => Located(l.root, l.rel, files[k]))
  }

  /** The files the walk reaches, in walk order. */
  function Visited(walk: seq<Listing>): seq<Located> {
    if walk == [] then []
    else
      var last := walk[|walk| - 1];
      Visited(walk[..|walk| - 1]) + (if Pruned(last.rel) then [] else Locate(last, last.files))
  }

  const ErrorPrefix := "Error scanning directory "

  /** The message `scan_directory` re-raises with. */
  function ScanError(path: string, reason: string): string {
    ErrorPrefix + path + ": " + reason
  }

  /** One more file of the generator: nothing once it has raised, otherwise
      skip, append the record, or raise the wrapped exception. */
  function Advance(path: string, sofar: Result<seq<FileRecord>>, s: Step): Result<seq<FileRecord>> {
    if sofar.Err? || s.Skip? then sofar
    else if s.Emit? then Ok(sofar.value + [s.record])
    else Err(ScanError(path, s.reason))
  }

  /** Draining the generator over the files `es`, one after another: the
      yielded records, or the first exception. */
  function Drain(path: string, es: seq<Located>, opts: Options): Result<seq<FileRecord>> {
    if es == [] then Ok([])
    else Advance(path, Drain(path, es[..|es| - 1], opts), StepOf(es[|es| - 1], opts))
  }

  /** `list(scan_directory(path, ...))` over the given walk. */
  function Scan(path: string, walk: seq<Listing>, opts: Options): Result<seq<FileRecord>> {
    Drain(path, Visited(walk), opts)
  }

  /** The files that get past every filter, in their original order. */
  function Passing(es: seq<Located>, opts: Options): (ps: seq<Located>)
    ensures IsSubseq(ps, es)
    ensures forall e :: e in ps <==> e in es && Passes(e, opts)
  {
    if es == [] then []
    else
      var init, x := es[..|es| - 1], es[|es| - 1];
      var rest := Passing(init, opts);
      assert es == init + [x];
      if Passes(x, opts) then
        SubseqReflexive([x]);
        SubseqAppend(rest, init, [x], [x]);
        rest + [x]
      else
        SubseqEmpty([x]);
        SubseqAppend(rest, init, [], [x]);
        assert rest + [] == rest;
        rest
  }

  /** `Passing` keeps every file that passes as often as it occurs, and no other. */
  lemma {:induction false} PassingCounts(es: seq<Located>, opts: Options)
    ensures forall e :: multiset(Passing(es, opts))[e] == if Passes(e, opts) then multiset(es)[e] else 0
  {
    if es != [] {
      var init, x := es[..|es| - 1], es[|es| - 1];
      PassingCounts(init, opts);
      assert es == init + [x];
      assert multiset(es) == multiset(init) + multiset{x};
    }
  }

  /** One record per file, position by position. */
  function Records(ps: seq<Located>): (rs: seq<FileRecord>)
    requires forall e :: e in ps ==> e.file.meta.Stat?
  {
    seq(|ps|, k requires 0 <= k < |ps| => RecordOf(ps[k]))
  }

  /** Every file of every listing, pruned or not, in walk order. */
  function AllFiles(walk: seq<Listing>): seq<Located> {
    if walk == [] then []
    else AllFiles(walk[..|walk| - 1]) + Locate(walk[|walk| - 1], walk[|walk| - 1].files)
  }

  /** The generator loop: for each listing the walk reaches, run the file
      loop; the first wrapped exception ends the loop and is the result. */
  method ScanDirectory(path: string, walk: seq<Listing>, opts: Options) returns (r: Result<seq<FileRecord>>)
    ensures r == Scan(path, walk, opts)
  {
    r := Ok([]);
    var i := 0;
    while i < |walk| && r.Ok?
      invariant 0 <= i <= |walk|
      invariant r.Ok? ==> r == Drain(path, Visited(walk[..i]), opts)
      invariant r.Err? ==> r == Scan(path, walk, opts)
    {
      if !Pruned(walk[i].rel) {
        r := ScanListing(path, walk, i, opts, r.value);
      } else {
        VisitedSnoc(walk, i);
      }
      i := i + 1;
    }
    if r.Ok? {
      assert walk[..|walk|] == walk;
    }
  }

  /** The file loop of listing `i`, continuing a drain that has produced
      `acc` from the listings before it: skip, append, or stop at the first
      exception, which is then the result of the whole scan. */
  method ScanListing(path: string, walk: seq<Listing>, i: nat, opts: Options, acc: seq<FileRecord>)
    returns (r: Result<seq<FileRecord>>)
    requires i < |walk| && !Pruned(walk[i].rel)
    requires Drain(path, Visited(walk[..i]), opts) == Ok(acc)
    ensures r.Ok? ==> r == Drain(path, Visited(walk[..i + 1]), opts)
    ensures r.Err? ==> r == Scan(path, walk, opts)
  {
    var l := walk[i];
    ghost var seen := Visited(walk[..i]);
    VisitedSnoc(walk, i);
    var out := acc;
    var j := 0;
    assert seen + Locate(l, l.files[..0]) == seen;
    while j < |l.files|
      invariant 0 <= j <= |l.files|
      invariant Drain(path, seen + Locate(l, l.files[..j]), opts) == Ok(out)
    {
      var e := Located(l.root, l.rel, l.files[j]);
      ghost var before := seen + Locate(l, l.files[..j]);
      LocateSnoc(seen, l, j);
      DrainSnoc(path, before, e, opts);
      var step := StepOf(e, opts);
      if step.Emit? {
        out := out + [step.record];
      } else if step.Raise? {
        LocateSplit(seen, l, j + 1);
        DrainErrPersists(path, before + [e], Locate(l, l.files[j + 1..]), opts);
        ScanStopsAt(path, walk, i, opts);
        return Err(ScanError(path, step.reason));
      }
      j := j + 1;
    }
    assert l.files[..j] == l.files;
    r := Ok(out);
  }

  lemma DrainSnoc(path: string, es: seq<Located>, e: Located, opts: Options)
    ensures Drain(path, es + [e], opts) == Advance(path, Drain(path, es, opts), StepOf(e, opts))
  {
    assert (es + [e])[..|es|] == es;
  }

  lemma LocateConcat(l: Listing, f: seq<FileEntry>, g: seq<FileEntry>)
    ensures Locate(l, f + g) == Locate(l, f) + Locate(l, g)
  {
    var r := Locate(l, f) + Locate(l, g);
    forall k | 0 <= k < |f + g|
      ensures Locate(l, f + g)[k] == r[k]
    {
      if k < |f| {
        assert r[k] == Locate(l, f)[k];
      } else {
        assert r[k] == Locate(l, g)[k - |f|];
      }
    }
  }

  lemma LocateSnoc(seen: seq<Located>, l: Listing, j: nat)
    requires j < |l.files|
    ensures seen + Locate(l, l.files[..j + 1]) == (seen + Locate(l, l.files[..j])) + [Located(l.root, l.rel, l.files[j])]
  {
    assert l.files[..j + 1] == l.files[..j] + [l.files[j]];
    LocateConcat(l, l.files[..j], [l.files[j]]);
  }

  lemma LocateSplit(seen: seq<Located>, l: Listing, j: nat)
    requires j <= |l.files|
    ensures seen + Locate(l, l.files) == (seen + Locate(l, l.files[..j])) + Locate(l, l.files[j..])
  {
    assert l.files == l.files[..j] + l.files[j..];
    LocateConcat(l, l.files[..j], l.files[j..]);
  }

  lemma VisitedSnoc(walk: seq<Listing>, i: nat)
    requires i < |walk|
    ensures Pruned(walk[i].rel) ==> Visited(walk[..i + 1]) == Visited(walk[..i])
    ensures !Pruned(walk[i].rel) ==> Visited(walk[..i + 1]) == Visited(walk[..i]) + Locate(walk[i], walk[i].files)
  {
    assert walk[..i + 1][..i] == walk[..i];
    assert Visited(walk[..i]) + [] == Visited(walk[..i]);
  }

  lemma {:induction false} VisitedAppend(a: seq<Listing>, b: seq<Listing>)
    ensures Visited(a + b) == Visited(a) + Visited(b)
    decreases |b|
  {
    if b == [] {
      assert a + b == a;
    } else {
      var b', l := b[..|b| - 1], b[|b| - 1];
      var tail := if Pruned(l.rel) then [] else Locate(l, l.files);
      assert (a + b)[..|a + b| - 1] == a + b';
      assert Visited(a + b) == Visited(a + b') + tail;
      assert Visited(b) == Visited(b') + tail;
      VisitedAppend(a, b');
    }
  }

  /** The whole walk around listing i: what comes before, its files, and what
      comes after. */
  lemma VisitedAround(walk: seq<Listing>, i: nat)
    requires i < |walk| && !Pruned(walk[i].rel)
    ensures Visited(walk) == (Visited(walk[..i]) + Locate(walk[i], walk[i].files)) + Visited(walk[i + 1..])
  {
    assert walk == walk[..i + 1] + walk[i + 1..];
    VisitedAppend(walk[..i + 1], walk[i + 1..]);
    VisitedSnoc(walk, i);
  }

  /** A listing whose file loop raises ends the whole scan with that exception. */
  lemma ScanStopsAt(path: string, walk: seq<Listing>, i: nat, opts: Options)
    requires i < |walk| && !Pruned(walk[i].rel)
    requires Drain(path, Visited(walk[..i + 1]), opts).Err?
    ensures Scan(path, walk, opts) == Drain(path, Visited(walk[..i + 1]), opts)
  {
    VisitedSnoc(walk, i);
    VisitedAround(walk, i);
    DrainErrPersists(path, Visited(walk[..i]) + Locate(walk[i], walk[i].files), Visited(walk[i + 1..]), opts);
  }

  /** Once the generator has raised, later files change nothing. */
  lemma {:induction false} DrainErrPersists(path: string, a: seq<Located>, b: seq<Located>, opts: Options)
    requires Drain(path, a, opts).Err?
    ensures Drain(path, a + b, opts) == Drain(path, a, opts)
    decreases |b|
  {
    if b == [] {
      assert a + b == a;
    } else {
      var b' := b[..|b| - 1];
      assert (a + b)[..|a + b| - 1] == a + b';
      DrainErrPersists(path, a, b', opts);
    }
  }

  lemma KeptSnoc(es: seq<Located>, e: Located, opts: Options)
    ensures Passing(es + [e], opts) == Passing(es, opts) + (if Passes(e, opts) then [e] else [])
  {
    assert (es + [e])[..|es|] == es;
    assert Passing(es, opts) + [] == Passing(es, opts);
  }

  /** No file that gets past the name filters is unreadable. */
  predicate NoRaise(es: seq<Located>, opts: Options) {
    forall k :: 0 <= k < |es| ==> !StepOf(es[k], opts).Raise?
  }

  lemma RecordsSnoc(ps: seq<Located>, e: Located)
    requires forall x :: x in ps ==> x.file.meta.Stat?
    requires e.file.meta.Stat?
    ensures Records(ps + [e]) == Records(ps) + [RecordOf(e)]
  {
  }

  lemma NoRaiseSnoc(es: seq<Located>, e: Located, opts: Options)
    ensures NoRaise(es + [e], opts) <==> NoRaise(es, opts) && !StepOf(e, opts).Raise?
  {
    assert forall k :: 0 <= k < |es| ==> (es + [e])[k] == es[k];
    assert (es + [e])[|es|] == e;
  }

  /** Draining the generator succeeds exactly when no file that gets past the
      name filters is unreadable, and then yields the records of the passing
      files, in order. */
  lemma {:induction false} DrainSucceeds(path: string, es: seq<Located>, opts: Options)
    ensures Drain(path, es, opts).Ok? <==> NoRaise(es, opts)
    ensures Drain(path, es, opts).Ok? ==> Drain(path, es, opts).value == Records(Passing(es, opts))
    decreases |es|
  {
    if es != [] {
      var init, e := es[..|es| - 1], es[|es| - 1];
      assert es == init + [e];
      DrainSucceeds(path, init, opts);
      DrainSnoc(path, init, e, opts);
      NoRaiseSnoc(init, e, opts);
      if NoRaise(init, opts) && !StepOf(e, opts).Raise? {
        KeptSnoc(init, e, opts);
        if StepOf(e, opts).Emit? {
          RecordsSnoc(Passing(init, opts), e);
        }
      }
    }
  }

  /** A failed drain carries the wrapped reason of the first file that gets
      past the name filters and cannot be read. */
  lemma {:induction false} DrainFails(path: string, es: seq<Located>, opts: Options) returns (k: nat)
    requires Drain(path, es, opts).Err?
    ensures k < |es| && StepOf(es[k], opts).Raise? && NoRaise(es[..k], opts)
    ensures Drain(path, es, opts).msg == ScanError(path, StepOf(es[k], opts).reason)
    decreases |es|
  {
    var init := es[..|es| - 1];
    if Drain(path, init, opts).Err? {
      k := DrainFails(path, init, opts);
      assert es[k] == init[k];
      assert es[..k] == init[..k];
    } else {
      DrainSucceeds(path, init, opts);
      k := |es| - 1;
      assert es[..k] == init;
    }
  }

  /** The walk reaches exactly the files of the listings with no 'venv'
      component: a 'venv' subdirectory is never entered, and nothing else is
      skipped. */
  lemma VisitedExactly(walk: seq<Listing>)
    ensures forall x :: x in Visited(walk) <==>
      exists i, k :: 0 <= i < |walk| && 0 <= k < |walk[i].files| && !Pruned(walk[i].rel) && x == At(walk, i, k)
  {
    forall x
      ensures x in Visited(walk) <==>
        exists i, k :: 0 <= i < |walk| && 0 <= k < |walk[i].files| && !Pruned(walk[i].rel) && x == At(walk, i, k)
    {
      if x in Visited(walk) {
        var n :| 0 <= n < |Visited(walk)| && Visited(walk)[n] == x;
        var i, k := VisitedOrigin(walk, n);
      } else {
        forall i, k | 0 <= i < |walk| && 0 <= k < |walk[i].files| && !Pruned(walk[i].rel)
          ensures x != At(walk, i, k)
        {
          var n := VisitedReaches(walk, i, k);
        }
      }
    }
  }

  /** Every file of a listing with no 'venv' component is reached. */
  lemma {:induction false} VisitedReaches(walk: seq<Listing>, i: nat, k: nat) returns (n: nat)
    requires i < |walk| && k < |walk[i].files| && !Pruned(walk[i].rel)
    ensures n < |Visited(walk)| && Visited(walk)[n] == At(walk, i, k)
  {
    var init := walk[..|walk| - 1];
    var l := walk[|walk| - 1];
    if i < |walk| - 1 {
      n := VisitedReaches(init, i, k);
      assert walk[i] == init[i];
      assert Visited(walk)[n] == Visited(init)[n];
    } else {
      n := |Visited(init)| + k;
      assert Visited(walk)[n] == Locate(l, l.files)[k];
    }
  }

  /** The reached files come in the order of the full walk. */
  lemma {:induction false} VisitedInWalkOrder(walk: seq<Listing>)
    ensures IsSubseq(Visited(walk), AllFiles(walk))
  {
    if walk != [] {
      var init := walk[..|walk| - 1];
      var l := walk[|walk| - 1];
      VisitedInWalkOrder(init);
      if Pruned(l.rel) {
        assert Visited(walk) == Visited(init) + [];
        SubseqEmpty(Locate(l, l.files));
        SubseqAppend(Visited(init), AllFiles(init), [], Locate(l, l.files));
      } else {
        SubseqReflexive(Locate(l, l.files));
        SubseqAppend(Visited(init), AllFiles(init), Locate(l, l.files), Locate(l, l.files));
      }
    }
  }

  /** What a successful scan yields: the records, in walk order, of exactly
      the reached files that pass every filter. */
  lemma ScanYields(path: string, walk: seq<Listing>, opts: Options)
    requires Scan(path, walk, opts).Ok?
    ensures Scan(path, walk, opts).value == Records(Passing(Visited(walk), opts))
    ensures IsSubseq(Passing(Visited(walk), opts), AllFiles(walk))
  {
    DrainSucceeds(path, Visited(walk), opts);
    VisitedInWalkOrder(walk);
    SubseqTransitive(Passing(Visited(walk), opts), Visited(walk), AllFiles(walk));
  }

  /** The file at position k of listing i, with where it was found. */
  function At(walk: seq<Listing>, i: nat, k: nat): Located
    requires i < |walk| && k < |walk[i].files|
  {
    Located(walk[i].root, walk[i].rel, walk[i].files[k])
  }

  /** Where the n-th reached file comes from. */
  lemma {:induction false} VisitedOrigin(walk: seq<Listing>, n: nat) returns (i: nat, k: nat)
    requires n < |Visited(walk)|
    ensures i < |walk| && k < |walk[i].files| && !Pruned(walk[i].rel)
    ensures Visited(walk)[n] == At(walk, i, k)
  {
    var init := walk[..|walk| - 1];
    var l := walk[|walk| - 1];
    if n < |Visited(init)| {
      i, k := VisitedOrigin(init, n);
      assert walk[i] == init[i];
    } else {
      i, k := |walk| - 1, n - |Visited(init)|;
      assert Visited(walk)[n] == Locate(l, l.files)[k];
    }
  }

  /** Every yielded record is the joined path, size and dates of a reached
      file that passes every filter. */
  lemma ScanSound(path: string, walk: seq<Listing>, opts: Options, r: FileRecord)
    requires Scan(path, walk, opts).Ok? && r in Scan(path, walk, opts).value
    ensures exists i, k :: (0 <= i < |walk| && 0 <= k < |walk[i].files| && !Pruned(walk[i].rel)
      && Passes(At(walk, i, k), opts) && r == RecordOf(At(walk, i, k)))
  {
    ScanYields(path, walk, opts);
    var ps := Passing(Visited(walk), opts);
    var rs := Records(ps);
    var n :| 0 <= n < |rs| && rs[n] == r;
    var e := ps[n];
    assert e in Visited(walk);
    var m :| 0 <= m < |Visited(walk)| && Visited(walk)[m] == e;
    var i, k := VisitedOrigin(walk, m);
    assert Passes(At(walk, i, k), opts) && r == RecordOf(At(walk, i, k));
  }

  /** Passing every filter, spelled out filter by filter: each exclusion
      applies only when its flag is set, a size bound only when present and
      non-zero, a time range only when supplied, and both ends are inclusive. */
  lemma PassesMeans(e: Located, opts: Options)
    ensures Passes(e, opts) <==>
      && e.file.meta.Stat?
      && (opts.excludeHidden ==> !StartsWith(e.file.name, "."))
      && (opts.excludePyc ==> !EndsWith(e.file.name, ".pyc"))
      && (opts.excludeInit ==> e.file.name != "__init__.py")
      && (opts.extensions != [] ==> Lower(Ext(e.file.name)) in opts.extensions)
      && (opts.minSize.Some? && opts.minSize.value != 0 ==> e.file.meta.size >= opts.minSize.value)
      && (opts.maxSize.Some? && opts.maxSize.value != 0 ==> e.file.meta.size <= opts.maxSize.value)
      && (opts.createdRange.Some? ==> opts.createdRange.value.lo <= e.file.meta.ctime <= opts.createdRange.value.hi)
      && (opts.modifiedRange.Some? ==> opts.modifiedRange.value.lo <= e.file.meta.mtime <= opts.modifiedRange.value.hi)
      && (opts.accessedRange.Some? ==> opts.accessedRange.value.lo <= e.file.meta.atime <= opts.accessedRange.value.hi)
  {
  }

  /** The extension is lower-cased before the membership test and the list
      entries are not, so a list whose every entry holds an upper-case
      letter lets no file through. */
  lemma UpperCaseExtensionsMatchNothing(name: string, opts: Options)
    requires opts.extensions != []
    requires forall x :: x in opts.extensions ==> exists i :: 0 <= i < |x| && IsUpper(x[i])
    ensures !NameKept(name, opts)
  {
    var ext := Lower(Ext(name));
    if ext in opts.extensions {
      LowerNeverUpper(Ext(name), ext);
    }
  }

  /** Every reached file that passes the filters is yielded. */
  lemma ScanComplete(path: string, walk: seq<Listing>, opts: Options, i: nat, k: nat)
    requires Scan(path, walk, opts).Ok?
    requires i < |walk| && k < |walk[i].files| && !Pruned(walk[i].rel)
    requires Passes(At(walk, i, k), opts)
    ensures RecordOf(At(walk, i, k)) in Scan(path, walk, opts).value
  {
    var e := At(walk, i, k);
    ScanYields(path, walk, opts);
    var m := VisitedReaches(walk, i, k);
    assert e in Visited(walk);
    var ps := Passing(Visited(walk), opts);
    assert e in ps;
    var n :| 0 <= n < |ps| && ps[n] == e;
    assert Records(ps)[n] == RecordOf(e);
  }

  /** A failed scan raises one exception, for the first visited file that
      gets past the name filters and cannot be read, and its message names
      the directory. */
  lemma ScanFailure(path: string, walk: seq<Listing>, opts: Options) returns (n: nat)
    requires Scan(path, walk, opts).Err?
    ensures n < |Visited(walk)| && Visited(walk)[n].file.meta.Unreadable? && NameKept(Visited(walk)[n].file.name, opts)
    ensures NoRaise(Visited(walk)[..n], opts)
    ensures Scan(path, walk, opts).msg == ScanError(path, Visited(walk)[n].file.meta.reason)
    ensures StartsWith(Scan(path, walk, opts).msg, ErrorPrefix + path + ": ")
  {
    n := DrainFails(path, Visited(walk), opts);
    StartsWithConcat(ErrorPrefix + path + ": ", StepOf(Visited(walk)[n], opts).reason);
  }
}
