/*
 * The two halves of a synchronisation of one page (powerpages/sync.py:128-290):
 * `PageFileDumper` writes a page row into its `.page` file and
 * `FilePageLoader` reads a `.page` file into a page row. Each side
 * computes a status against the other side and can save.
 */
module SyncPages {
  import opened Outcomes
  import opened Strings
  import opened SyncFields
  import opened SyncCodec
  import opened SyncPaths
  import opened SyncStatus
  import opened PageTree
  import opened SyncStore

  /** A store after a save, and the error that stopped the save, if any. */
  datatype Effect = Effect(store: Store, error: Option<SyncError>)

  // ---------------------------------------------------------------------
  // PageFileDumper
  // ---------------------------------------------------------------------

  /** `page.children().exists()` against the current page table. */
  predicate HasChildren(s: Store, url: string)
  {
    Children(s.pages.Keys, url) != {}
  }

  /** `PageFileDumper.relative_path()` (sync.py:134-136); IndexError as an error. */
  function DumperPath(s: Store, url: string): (r: Result<string, SyncError>)
    ensures r.Ok? ==> r.value != [] && IsRelative(r.value)
    ensures r.Ok? <==> UrlToPath(url, HasChildren(s, url)).Ok?
    ensures r.Ok? ==> r.value == UrlToPath(url, HasChildren(s, url)).value
    ensures r.Err? ==> r.error == PathIndexError
  {
    match UrlToPath(url, HasChildren(s, url))
    case Ok(path) => Ok(path)
    case Err(_) => Err(PathIndexError)
  }

  /** `PageFileDumper.page_fields()` (sync.py:142-154): the row, normalised. */
  function PageFields(p: Page): (f: Fields)
    ensures IsNormal(f)
    ensures IsNormal(p.data) ==> f == p.data
  {
    if IsNormal(p.data) then NormalFieldsFixed(p.data); Normalize(ToRaw(p.data))
    else Normalize(ToRaw(p.data))
  }

  /** `PageFileDumper.file_contents()` (sync.py:171-173). */
  function FileContents(p: Page): (text: string)
    ensures Load(text).Some? && Normalize(Load(text).value) == PageFields(p)
  {
    LoadDumpNormal(PageFields(p));
    Dump(PageFields(p))
  }

  /**
   * `PageFileDumper.status()` (sync.py:179-192): ADDED when nothing exists
   * at the path; otherwise the file is read, which fails on a directory or
   * a bad file.
   */
  function DumperStatus(s: Store, path: string, page: Page): (r: Result<char, SyncError>)
    ensures r == Ok(ADDED) <==> !Exists(s, path)
    ensures Exists(s, path) ==>
      (r.Ok? <==> FileFields(s, path).Ok?) &&
      (r.Ok? ==> r.value == Classify(Some(FileFields(s, path).value), PageFields(page)))
  {
    if !Exists(s, path) then Ok(ADDED)
    else
      var onDisk :- FileFields(s, path);
      Ok(Classify(Some(onDisk), PageFields(page)))
  }

  /** A path is never one of the directories above it. */
  lemma NotOwnParent(path: string)
    requires IsRelative(path) && path != []
    ensures path !in Lineage(Dirname(path))
  {
  }

  /**
   * `PageFileDumper.save()` (sync.py:194-204): the dirty flag of the row is
   * cleared first, then the directories are made and the file written. A
   * failing write leaves the cleared flag behind.
   */
  function DumperSave(s: Store, url: string, path: string, page: Page): (e: Effect)
    requires IsRelative(path) && path != []
    ensures e.store.pages == ClearDirty(s, url).pages
    ensures e.error.None? <==> WriteFile(s, path, FileContents(page)).Ok?
    ensures e.error.None? ==> path in e.store.files && e.store.files[path] == FileContents(page) && path !in e.store.dirs
    ensures e.error.Some? ==> e.store.files == s.files && e.store.dirs == s.dirs && e.error == Some(OSError(path))
    ensures s.files.Keys <= e.store.files.Keys && s.dirs <= e.store.dirs
    ensures Disjoint(s) ==> Disjoint(e.store)
  {
    var cleared := ClearDirty(s, url);
    var r := WriteFile(cleared, path, FileContents(page));
    if r.Ok? then
      NotOwnParent(path);
      Effect(r.value, None)
    else Effect(cleared, Some(r.error))
  }

  /** `PageFileDumper.save()` on a live website. */
  method SaveDumped(site: Website, url: string, path: string, page: Page) returns (err: Option<SyncError>)
    requires IsRelative(path) && path != []
    modifies site
    ensures var e := DumperSave(old(site.Snapshot()), url, path, page);
      site.Snapshot() == e.store && err == e.error
  {
    site.ClearDirtyFlag(url);
    err := site.Write(path, FileContents(page));
  }

  /** A page with the same URLs around it lands at the same path. */
  lemma DumperPathStable(s: Store, t: Store, url: string)
    requires s.pages.Keys == t.pages.Keys
    ensures DumperPath(s, url) == DumperPath(t, url)
  {
    assert Children(s.pages.Keys, url) == Children(t.pages.Keys, url);
  }

  /** Right after a successful dumper save the page's status is NO_CHANGES. */
  lemma DumperStatusAfterSave(s: Store, url: string, page: Page)
    requires DumperPath(s, url).Ok?
    requires DumperSave(s, url, DumperPath(s, url).value, page).error.None?
    ensures var t := DumperSave(s, url, DumperPath(s, url).value, page).store;
      DumperPath(t, url) == DumperPath(s, url) &&
      DumperStatus(t, DumperPath(s, url).value, page) == Ok(NO_CHANGES)
  {
    var t := DumperSave(s, url, DumperPath(s, url).value, page).store;
    DumperPathStable(s, t, url);
    var f := FileContents(page);
  }

  // ---------------------------------------------------------------------
  // FilePageLoader
  // ---------------------------------------------------------------------

  /** `FilePageLoader.url()` (sync.py:225-227); IndexError as an error. */
  function LoaderUrl(path: string): (r: Result<string, SyncError>)
    ensures r.Ok? <==> PathToUrl(path).Ok?
    ensures r.Ok? ==> r.value == PathToUrl(path).value && Absolute(r.value)
    ensures r.Err? ==> r.error == PathIndexError
  {
    match PathToUrl(path)
    case Ok(url) => Ok(url)
    case Err(_) => Err(PathIndexError)
  }

  /**
   * `FilePageLoader.status()` (sync.py:258-272): ADDED when no row has the
   * URL, without reading the file; otherwise the file is read and compared.
   */
  function LoaderStatus(s: Store, path: string, url: string): (r: Result<char, SyncError>)
    ensures r == Ok(ADDED) <==> url !in s.pages
    ensures url in s.pages ==>
      (r.Ok? <==> FileFields(s, path).Ok?) &&
      (r.Ok? ==> r.value == Classify(Some(PageFields(s.pages[url])), FileFields(s, path).value))
  {
    if url !in s.pages then Ok(ADDED)
    else
      var onDisk :- FileFields(s, path);
      Ok(Classify(Some(PageFields(s.pages[url])), onDisk))
  }

  /**
   * `FilePageLoader.save()` (sync.py:274-284): every field of the row is
   * set from the file, the row is created when no row has the URL, and the
   * dirty flag is cleared.
   */
  function LoaderSave(s: Store, path: string, url: string): (r: Result<Store, SyncError>)
    ensures r.Ok? <==> FileFields(s, path).Ok?
    ensures r.Err? ==> r.error == FileFields(s, path).error
    ensures r.Ok? ==> r.value == s.(pages := s.pages[url := Page(FileFields(s, path).value, false)])
  {
    var onDisk :- FileFields(s, path);
    Ok(s.(pages := s.pages[url := Page(onDisk, false)]))
  }

  /** `FilePageLoader.save()` on a live website. */
  method SaveLoaded(site: Website, path: string, url: string) returns (err: Option<SyncError>)
    modifies site
    ensures var r := LoaderSave(old(site.Snapshot()), path, url);
      if r.Ok? then err.None? && site.Snapshot() == r.value
      else err == Some(r.error) && site.Snapshot() == old(site.Snapshot())
  {
    var read := FileFields(site.Snapshot(), path);
    if read.Err? {
      return Some(read.error);
    }
    site.PutPage(url, Page(read.value, false));
    err := None;
  }

  /** Right after a successful loader save the file's status is NO_CHANGES. */
  lemma LoaderStatusAfterSave(s: Store, path: string, url: string)
    requires LoaderSave(s, path, url).Ok?
    ensures var t := LoaderSave(s, path, url).value;
      url in t.pages && !t.pages[url].isDirty && LoaderStatus(t, path, url) == Ok(NO_CHANGES)
  {
  }

  /**
   * Both sides agree on NO_CHANGES: a file and a row that the loader sees
   * as unchanged are also unchanged for the dumper.
   */
  lemma StatusesAgree(s: Store, path: string, url: string)
    requires url in s.pages && path !in s.dirs
    ensures LoaderStatus(s, path, url) == Ok(NO_CHANGES)
        <==> DumperStatus(s, path, s.pages[url]) == Ok(NO_CHANGES)
  {
  }
}
