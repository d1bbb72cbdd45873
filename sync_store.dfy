/*
 * The two stores the synchroniser works between: the page table of the
 * database and the sync directory on disk. Paths are relative to the sync
 * directory, which itself is the empty path. The filesystem calls that
 * powerpages/sync.py makes (exists, open for reading, makedirs and open
 * for writing, remove, rmdir) are modelled here with their failure cases.
 */
module SyncStore {
  import opened Outcomes
  import opened Strings
  import opened SyncFields
  import opened SyncCodec
  import opened SyncPaths

  /** A row of the page table: its fields and the "changed in Admin" flag. */
  datatype Page = Page(data: Fields, isDirty: bool)

  /** The ways a synchronisation run stops. */
  datatype SyncError =
    | RootNotFound(url: string)   // the operation's `error()` (sync.py:359-361)
    | BadPageFile(path: string)   // `RuntimeError('Bad .page file: ...')` (sync.py:242-245)
    | PathIndexError              // `pop()` from an empty list in `url_to_path`/`path_to_url`
    | InputExhausted              // `get_input` hits end of input while confirming
    | OSError(path: string)       // a filesystem call fails on `path`

  /** Page table (keyed by URL), files (path to text) and directories. */
  datatype Store = Store(pages: map<string, Page>, files: map<string, string>, dirs: set<string>)

  /** No path is both a file and a directory, as on a real filesystem. */
  predicate Disjoint(s: Store)
  {
    s.files.Keys !! s.dirs
  }

  /** `os.path.exists` under the sync directory. */
  predicate Exists(s: Store, path: string)
  {
    path == [] || path in s.files || path in s.dirs
  }

  /** `path` lies in the directory `start` or below it (`start == []` is the sync directory). */
  predicate Under(start: string, path: string)
  {
    start == [] || StartsWith(path, start + "/")
  }

  /** A name that `os.walk` users here skip: it starts with a dot. */
  predicate Hidden(path: string)
  {
    StartsWith(BaseName(path), ".")
  }

  /**
   * The files `os.walk(start)` reports whose name does not start with a
   * dot; nothing when `start` is not a directory.
   */
  function WalkedFiles(s: Store, start: string): (w: set<string>)
    ensures forall p :: p in w <==> (start == [] || start in s.dirs) && p in s.files && Under(start, p) && !Hidden(p)
  {
    if start == [] || start in s.dirs then set f | f in s.files && Under(start, f) && !Hidden(f) else {}
  }

  /**
   * `FilePageLoader.page_fields()` (sync.py:238-246): read the file, parse
   * it, normalise it. Reading a directory or a missing path is an OS error;
   * text that does not parse is a bad page file.
   */
  function FileFields(s: Store, path: string): (r: Result<Fields, SyncError>)
    ensures r.Ok? ==> IsNormal(r.value)
    ensures r.Ok? <==> path in s.files && path !in s.dirs && Load(s.files[path]).Some?
    ensures r.Err? && path in s.files && path !in s.dirs ==> r.error == BadPageFile(path)
  {
    if path in s.dirs || path !in s.files then Err(OSError(path))
    else
      match Load(s.files[path])
      case None => Err(BadPageFile(path))
      case Some(raw) => Ok(Normalize(raw))
  }

  /**
   * Writing a file as `PageFileDumper.save` does (sync.py:198-204): create the
   * missing directories above it, then write. It fails when a directory
   * above it is a file or when the path itself is a directory.
   */
  function WriteFile(s: Store, path: string, text: string): (r: Result<Store, SyncError>)
    requires IsRelative(path) && path != []
    ensures r.Ok? <==> path !in s.dirs && Lineage(Dirname(path)) !! s.files.Keys
    ensures r.Err? ==> r.error == OSError(path)
    ensures r.Ok? ==> r.value.pages == s.pages && path in r.value.files && r.value.files[path] == text
    ensures r.Ok? ==> forall p :: p in s.files && p != path ==> p in r.value.files && r.value.files[p] == s.files[p]
    ensures r.Ok? ==> r.value.files.Keys == s.files.Keys + {path} && r.value.dirs == s.dirs + Lineage(Dirname(path))
    ensures r.Ok? && Disjoint(s) ==> Disjoint(r.value)
  {
    var parents := Lineage(Dirname(path));
    if path in s.dirs || !(parents !! s.files.Keys) then Err(OSError(path))
    else
      assert path !in parents;
      Ok(s.(files := s.files[path := text], dirs := s.dirs + parents))
  }

  /** Something lies inside directory `d`. */
  predicate HasEntries(s: Store, d: string)
  {
    (exists f :: f in s.files && StartsWith(f, d + "/")) || (exists e :: e in s.dirs && StartsWith(e, d + "/"))
  }

  /**
   * `os.rmdir` when `path` is a directory, `os.remove` otherwise
   * (sync.py:475-478). Removing a non-empty directory or a missing file fails.
   */
  function RemovePath(s: Store, path: string): (r: Result<Store, SyncError>)
    ensures r.Err? <==> (path in s.dirs && HasEntries(s, path)) || (path !in s.dirs && path !in s.files)
    ensures r.Err? ==> r.error == OSError(path)
    ensures r.Ok? ==> r.value.pages == s.pages
    ensures r.Ok? ==> r.value.files.Keys <= s.files.Keys && s.files.Keys - r.value.files.Keys <= {path}
    ensures r.Ok? ==> r.value.dirs <= s.dirs && s.dirs - r.value.dirs <= {path}
    ensures r.Ok? ==> path !in r.value.dirs && (path !in s.dirs ==> path !in r.value.files)
    ensures r.Ok? ==> forall p :: p in r.value.files ==> r.value.files[p] == s.files[p]
    ensures r.Ok? && Disjoint(s) ==> Disjoint(r.value)
  {
    if path in s.dirs then
      if HasEntries(s, path) then Err(OSError(path)) else Ok(s.(dirs := s.dirs - {path}))
    else if path in s.files then Ok(s.(files := s.files - {path}))
    else Err(OSError(path))
  }

  /** `Page.objects.filter(url=url).update(is_dirty=False)`. */
  function ClearDirty(s: Store, url: string): (t: Store)
    ensures t.files == s.files && t.dirs == s.dirs && t.pages.Keys == s.pages.Keys
    ensures forall u :: u in s.pages ==> t.pages[u].data == s.pages[u].data
    ensures forall u :: u in s.pages && u != url ==> t.pages[u] == s.pages[u]
    ensures url in s.pages ==> !t.pages[url].isDirty
  {
    if url in s.pages then s.(pages := s.pages[url := s.pages[url].(isDirty := false)]) else s
  }

  /**
   * The sync directory and the page table as mutable state. Each method is
   * one call the synchroniser makes into the filesystem or the database.
   */
  class Website {
    var pages: map<string, Page>
    var files: map<string, string>
    var dirs: set<string>

    function Snapshot(): Store
      reads this
    {
      Store(pages, files, dirs)
    }

    constructor (s: Store)
      ensures Snapshot() == s
    {
      pages := s.pages;
      files := s.files;
      dirs := s.dirs;
    }

    /** Create the missing directories, then write the file. */
    method Write(path: string, text: string) returns (err: Option<SyncError>)
      requires IsRelative(path) && path != []
      modifies this
      ensures var r := WriteFile(old(Snapshot()), path, text);
        if r.Ok? then err.None? && Snapshot() == r.value
        else err == Some(r.error) && Snapshot() == old(Snapshot())
    {
      var parents := Lineage(Dirname(path));
      if path in dirs || !(parents !! files.Keys) {
        err := Some(OSError(path));
      } else {
        files := files[path := text];
        dirs := dirs + parents;
        err := None;
      }
    }

    /** `os.rmdir` or `os.remove`. */
    method Remove(path: string) returns (err: Option<SyncError>)
      modifies this
      ensures var r := RemovePath(old(Snapshot()), path);
        if r.Ok? then err.None? && Snapshot() == r.value
        else err == Some(r.error) && Snapshot() == old(Snapshot())
    {
      if path in dirs {
        if HasEntries(Snapshot(), path) {
          err := Some(OSError(path));
        } else {
          dirs := dirs - {path};
          err := None;
        }
      } else if path in files {
        files := files - {path};
        err := None;
      } else {
        err := Some(OSError(path));
      }
    }

    /** `Page.objects.filter(url=url).update(is_dirty=False)`: no row, no change. */
    method ClearDirtyFlag(url: string)
      modifies this
      ensures Snapshot() == ClearDirty(old(Snapshot()), url)
    {
      if url in pages {
        pages := pages[url := pages[url].(isDirty := false)];
      }
    }

    /** `page.save()` of a new or existing row. */
    method PutPage(url: string, page: Page)
      modifies this
      ensures Snapshot() == old(Snapshot()).(pages := old(pages)[url := page])
    {
      pages := pages[url := page];
    }

    /** `page.delete()`. */
    method DeletePage(url: string)
      modifies this
      ensures Snapshot() == old(Snapshot()).(pages := old(pages) - {url})
    {
      pages := pages - {url};
    }
  }
}
