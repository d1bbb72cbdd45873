/*
 * `WebsiteLoadOperation` (powerpages/sync.py:512-627): read the `.page`
 * files of the root's subtree into the page table, then delete the pages
 * under the root URL that no file accounts for.
 *
 * The functions give the run item by item; the class below performs it on
 * a `Website` and is proved to follow them. The set `valid` of a session
 * holds the URLs of the pages the files matched (`valid_pks`; a page is
 * identified by its URL here).
 */
module SyncLoad {
  import opened Outcomes
  import opened Strings
  import opened SyncFields
  import opened SyncPaths
  import opened SyncStatus
  import opened PageTree
  import opened SyncStore
  import opened SyncPages
  import opened SyncBase

  /**
   * The statuses a loaded file can be counted under: A, M, `.`, As, Ms and
   * M! (only an existing page can be dirty, and a page without changes is
   * never declined).
   */
  predicate IsLoadStatus(st: string)
  {
    || st == [ADDED] || st == [MODIFIED] || st == [NO_CHANGES]
    || st == [ADDED, SKIPPED] || st == [MODIFIED, SKIPPED] || st == [MODIFIED, FORCED]
  }

  /** The statuses a page deletion can be counted under: D, Ds, D!. */
  predicate IsPageDeleteStatus(st: string)
  {
    st == [DELETED] || st == [DELETED, SKIPPED] || st == [DELETED, FORCED]
  }

  // ---------------------------------------------------------------------
  // page_loaders (sync.py:515-545)
  // ---------------------------------------------------------------------

  /**
   * The files a load reads. A root other than `/` whose leaf file exists is
   * loaded alone; otherwise the root's index file must exist, and every
   * file under its directory whose name does not start with a dot is
   * loaded, in the model's order (sorted). A URL without segments is a
   * path error.
   */
  function PageLoaders(s: Store, rootUrl: string): (r: Result<seq<string>, SyncError>)
    ensures r.Err? ==> r.error == PathIndexError || r.error == RootNotFound(rootUrl)
    ensures r.Ok? ==> UrlToPath(rootUrl, false).Ok?
    ensures r.Ok? && rootUrl != "/" && Exists(s, UrlToPath(rootUrl, false).value) ==>
      r.value == [UrlToPath(rootUrl, false).value]
    ensures r.Ok? && (rootUrl == "/" || !Exists(s, UrlToPath(rootUrl, false).value)) ==>
      UrlToPath(rootUrl, true).Ok? && Exists(s, UrlToPath(rootUrl, true).value) &&
      forall p :: p in r.value <==> p in WalkedFiles(s, DropTrailingSlash(Dirname(UrlToPath(rootUrl, true).value)))
    ensures r == Err(RootNotFound(rootUrl)) ==> UrlToPath(rootUrl, true).Ok? && !Exists(s, UrlToPath(rootUrl, true).value)
  {
    match UrlToPath(rootUrl, false)
    case Err(_) => Err(PathIndexError)
    case Ok(leaf) =>
      if Exists(s, leaf) && rootUrl != "/" then Ok([leaf])
      else
        match UrlToPath(rootUrl, true)
        case Err(_) => Err(PathIndexError)
        case Ok(index) =>
          if !Exists(s, index) then Err(RootNotFound(rootUrl))
          else Ok(Sorted(WalkedFiles(s, DropTrailingSlash(Dirname(index)))))
  }

  // ---------------------------------------------------------------------
  // load_existing_files (sync.py:548-587)
  // ---------------------------------------------------------------------

  /**
   * Whether to apply a change: NO_CHANGES is applied without asking; a
   * page changed in Admin is refused without asking unless forced;
   * anything else is confirmed (sync.py:554-575).
   */
  function LoadDecision(o: Options, answers: seq<string>, base: char, dirty: bool): (r: Result<Answer, SyncError>)
    ensures base == NO_CHANGES ==> r == Ok(Answer(true, answers))
    ensures base != NO_CHANGES && dirty && !o.force ==> r == Ok(Answer(false, answers))
    ensures base != NO_CHANGES && (!dirty || o.force) ==> r == Confirm(o.noInteractive, answers)
  {
    if base == NO_CHANGES then Ok(Answer(true, answers))
    else if dirty && !o.force then Ok(Answer(false, answers))
    else Confirm(o.noInteractive, answers)
  }

  /** `page_is_dirty`: only a modified existing page counts as changed in Admin. */
  predicate DirtyFor(s: Store, url: string, base: char)
  {
    base == MODIFIED && url in s.pages && s.pages[url].isDirty
  }

  /**
   * A file's load once the decision is taken: save unless declined or dry,
   * then make the URL valid if a page has it, and count the status
   * (sync.py:581-587). A failing save stops before either.
   */
  function LoadRecord(o: Options, ss: Session, path: string, url: string, status: string, apply: bool): (r: Run)
    ensures ss.store.pages.Keys <= r.session.store.pages.Keys
    ensures r.session.answers == ss.answers && r.session.store.files == ss.store.files && r.session.store.dirs == ss.store.dirs
    ensures forall x :: x != url ==> SamePageAt(ss.store, r.session.store, x)
    ensures !apply || o.dryRun ==> r.session.store == ss.store
    ensures ss.valid <= r.session.valid && r.session.valid <= ss.valid + {url}
    ensures r.error.None? ==> (url in r.session.valid <==> url in r.session.store.pages || url in ss.valid)
    ensures r.error.None? ==> r.session.summary == ss.summary + multiset{status}
    ensures r.error.Some? ==> r.session == ss
  {
    var saved := RecordSave(o, ss.store, path, url, apply);
    match saved
    case Err(e) => Run(ss, Some(e))
    case Ok(t) =>
      Run(ss.(store := t, valid := ss.valid + (if url in t.pages then {url} else {}), summary := ss.summary + multiset{status}), None)
  }

  /** The save of sync.py:581-583: the loader's save unless declined or dry, else the store as it is. */
  function RecordSave(o: Options, s: Store, path: string, url: string, apply: bool): (r: Result<Store, SyncError>)
    ensures r.Ok? ==> s.pages.Keys <= r.value.pages.Keys && r.value.files == s.files && r.value.dirs == s.dirs
    ensures r.Ok? ==> forall x :: x != url ==> SamePageAt(s, r.value, x)
    ensures !apply || o.dryRun ==> r == Ok(s)
    ensures apply && !o.dryRun ==> r == LoaderSave(s, path, url)
  {
    if apply && !o.dryRun then LoaderSave(s, path, url) else Ok(s)
  }

  /** `url`'s page is the same in `s` and `t`, or absent from both. */
  predicate SamePageAt(s: Store, t: Store, url: string)
  {
    (url in s.pages <==> url in t.pages) && (url in s.pages ==> t.pages[url] == s.pages[url])
  }

  /**
   * The rest of a file's load once its URL and status are known: decide,
   * mark the status `s` when declined and `!` when forced over a change in
   * Admin, then save and record (sync.py:553-587).
   */
  function LoadApply(o: Options, ss: Session, path: string, url: string, base: char): (r: Run)
    requires base in {ADDED, MODIFIED, NO_CHANGES}
    ensures ss.store.pages.Keys <= r.session.store.pages.Keys
    ensures r.session.store.files == ss.store.files && r.session.store.dirs == ss.store.dirs
    ensures forall x :: x != url ==> SamePageAt(ss.store, r.session.store, x)
    ensures o.dryRun ==> r.session.store == ss.store
    ensures ss.valid <= r.session.valid && r.session.valid <= ss.valid + {url}
    ensures base == NO_CHANGES || (DirtyFor(ss.store, url, base) && !o.force) ==> r.session.answers == ss.answers
    ensures DirtyFor(ss.store, url, base) && !o.force ==>
      r.session.store == ss.store && (r.error.None? ==> r.session.summary == ss.summary + multiset{[base, SKIPPED]})
    ensures r.error.None? && url in r.session.store.pages ==> url in r.session.valid
    ensures r.error.None? ==> exists st :: IsLoadStatus(st) && r.session.summary == ss.summary + multiset{st}
  {
    var dirty := DirtyFor(ss.store, url, base);
    match LoadDecision(o, ss.answers, base, dirty)
    case Err(e) => Run(ss, Some(e))
    case Ok(a) =>
      var status := Mark(base, a.choice, dirty);
      assert IsLoadStatus(status);
      LoadRecord(o, ss.(answers := a.rest), path, url, status, a.choice)
  }

  /** One iteration of the load loop for the file at `path` (sync.py:552-587). */
  function LoadFile(o: Options, ss: Session, path: string): (r: Run)
    ensures ss.store.pages.Keys <= r.session.store.pages.Keys
    ensures r.session.store.files == ss.store.files && r.session.store.dirs == ss.store.dirs
    ensures o.dryRun ==> r.session.store == ss.store
    ensures LoaderUrl(path).Err? ==> r == Run(ss, Some(PathIndexError))
    ensures LoaderUrl(path).Ok? ==> forall x :: x != LoaderUrl(path).value ==> SamePageAt(ss.store, r.session.store, x)
    ensures ss.valid <= r.session.valid
    ensures LoaderUrl(path).Ok? ==> r.session.valid <= ss.valid + {LoaderUrl(path).value}
    ensures LoaderUrl(path).Ok? && r.error.None? && LoaderUrl(path).value in r.session.store.pages ==>
      LoaderUrl(path).value in r.session.valid
    ensures r.error.None? ==> exists st :: IsLoadStatus(st) && r.session.summary == ss.summary + multiset{st}
  {
    match LoaderUrl(path)
    case Err(e) => Run(ss, Some(e))
    case Ok(url) =>
      match LoaderStatus(ss.store, path, url)
      case Err(e) => Run(ss, Some(e))
      case Ok(base) => LoadApply(o, ss, path, url, base)
  }

  /** The load loop over `paths`, stopping at the first error. */
  function LoadFiles(o: Options, ss: Session, paths: seq<string>): (r: Run)
    decreases |paths|
  {
    if paths == [] then Run(ss, None)
    else
      var r := LoadFile(o, ss, paths[0]);
      if r.error.Some? then r else LoadFiles(o, r.session, paths[1..])
  }

  // ---------------------------------------------------------------------
  // delete_unused_pages (sync.py:590-615)
  // ---------------------------------------------------------------------

  /** The pages under `rootUrl` that no file matched, ordered by URL. */
  function UnusedPages(s: Store, rootUrl: string, valid: set<string>): (r: seq<string>)
    ensures forall u :: u in r <==> u in s.pages && StartsWith(u, rootUrl) && u !in valid
  {
    OrderedByUrl(set u | u in s.pages && StartsWith(u, rootUrl) && u !in valid)
  }

  /**
   * One deletion: a page changed in Admin is kept without asking unless
   * forced; otherwise the deletion is confirmed, then done unless declined
   * or dry (sync.py:598-615).
   */
  function DeletePageEntry(o: Options, ss: Session, url: string, dirty: bool): (r: Run)
    ensures r.session.store.files == ss.store.files && r.session.store.dirs == ss.store.dirs
    ensures r.session.store.pages == ss.store.pages || r.session.store.pages == ss.store.pages - {url}
    ensures o.dryRun || (dirty && !o.force) ==> r.session.store == ss.store
    ensures dirty && !o.force ==> r.session.answers == ss.answers
    ensures r.session.valid == ss.valid
    ensures r.error.None? ==> exists st :: IsPageDeleteStatus(st) && r.session.summary == ss.summary + multiset{st}
  {
    match LoadDecision(o, ss.answers, DELETED, dirty)
    case Err(e) => Run(ss, Some(e))
    case Ok(a) =>
      var status := Mark(DELETED, a.choice, dirty);
      assert IsPageDeleteStatus(status);
      var t := if a.choice && !o.dryRun then ss.store.(pages := ss.store.pages - {url}) else ss.store;
      Run(ss.(store := t, answers := a.rest, summary := ss.summary + multiset{status}), None)
  }

  /** The deletion loop over `urls`, with the flags the query returned in `pages`. */
  function DeletePages(o: Options, ss: Session, urls: seq<string>, pages: map<string, Page>): (r: Run)
    requires forall i :: 0 <= i < |urls| ==> urls[i] in pages
    decreases |urls|
  {
    if urls == [] then Run(ss, None)
    else
      var r := DeletePageEntry(o, ss, urls[0], pages[urls[0]].isDirty);
      if r.error.Some? then r else DeletePages(o, r.session, urls[1..], pages)
  }

  /** `delete_unused_pages`: the query is evaluated once, before the first deletion. */
  function DeleteUnusedPages(o: Options, ss: Session, rootUrl: string): (r: Run)
  {
    DeletePages(o, ss, UnusedPages(ss.store, rootUrl, ss.valid), ss.store.pages)
  }

  // ---------------------------------------------------------------------
  // run (sync.py:617-627)
  // ---------------------------------------------------------------------

  /** `WebsiteLoadOperation.run()` from the stores and the user's input. */
  function LoadRun(o: Options, rootUrl: string, s: Store, answers: seq<string>): (r: Run)
    ensures PageLoaders(s, rootUrl).Err? ==> r.error == Some(PageLoaders(s, rootUrl).error) && r.session.store == s
  {
    var init := Session(s, answers, multiset{}, {});
    match PageLoaders(s, rootUrl)
    case Err(e) => Run(init, Some(e))
    case Ok(paths) =>
      var loaded := LoadFiles(o, init, paths);
      if loaded.error.Some? then loaded else DeleteUnusedPages(o, loaded.session, rootUrl)
  }

  // ---------------------------------------------------------------------
  // Properties of the loops
  // ---------------------------------------------------------------------

  /**
   * Loading a file never overwrites a page changed in Admin unless forced:
   * the page keeps its fields, and either stays dirty or was found equal to
   * the file and made valid.
   */
  lemma LoadFileKeepsDirty(o: Options, ss: Session, path: string)
    requires !o.force && LoaderUrl(path).Ok?
    requires LoaderUrl(path).value in ss.store.pages && ss.store.pages[LoaderUrl(path).value].isDirty
    ensures var u := LoaderUrl(path).value;
      var r := LoadFile(o, ss, path);
      && u in r.session.store.pages
      && PageFields(r.session.store.pages[u]) == PageFields(ss.store.pages[u])
      && (r.session.store.pages[u].isDirty || u in r.session.valid)
  {
    var u := LoaderUrl(path).value;
    var status := LoaderStatus(ss.store, path, u);
    if status.Ok? && status.value == NO_CHANGES && !o.dryRun {
      var onDisk := FileFields(ss.store, path).value;
      NormalFieldsFixed(onDisk);
      assert PageFields(Page(onDisk, false)) == onDisk;
    }
  }

  /** No page has `x` as its URL among the files in `paths`. */
  predicate NoFileFor(paths: seq<string>, x: string)
  {
    forall i :: 0 <= i < |paths| && LoaderUrl(paths[i]).Ok? ==> LoaderUrl(paths[i]).value != x
  }

  /**
   * The load loop changes no file, removes no page, only grows the valid
   * set, and is inert on a dry run.
   */
  lemma {:induction false} LoadFilesFrame(o: Options, ss: Session, paths: seq<string>)
    ensures var r := LoadFiles(o, ss, paths);
      && r.session.store.files == ss.store.files && r.session.store.dirs == ss.store.dirs
      && ss.store.pages.Keys <= r.session.store.pages.Keys
      && ss.valid <= r.session.valid
      && (o.dryRun ==> r.session.store == ss.store)
    decreases |paths|
  {
    if paths != [] {
      var r1 := LoadFile(o, ss, paths[0]);
      if r1.error.None? {
        LoadFilesFrame(o, r1.session, paths[1..]);
      }
    }
  }

  lemma NoFileForTail(paths: seq<string>, x: string)
    requires paths != [] && NoFileFor(paths, x)
    ensures NoFileFor(paths[1..], x)
    ensures LoaderUrl(paths[0]).Ok? ==> LoaderUrl(paths[0]).value != x
  {
    forall i | 0 <= i < |paths[1..]| && LoaderUrl(paths[1..][i]).Ok?
      ensures LoaderUrl(paths[1..][i]).value != x
    {
      assert paths[1..][i] == paths[i + 1];
    }
  }

  /** The load loop leaves alone every page that no file maps to. */
  lemma {:induction false} LoadFilesOthers(o: Options, ss: Session, paths: seq<string>, x: string)
    requires NoFileFor(paths, x)
    ensures SamePageAt(ss.store, LoadFiles(o, ss, paths).session.store, x)
    decreases |paths|
  {
    if paths != [] {
      var r1 := LoadFile(o, ss, paths[0]);
      NoFileForTail(paths, x);
      assert SamePageAt(ss.store, r1.session.store, x);
      if r1.error.None? {
        LoadFilesOthers(o, r1.session, paths[1..], x);
        SamePageAtTrans(ss.store, r1.session.store, LoadFiles(o, r1.session, paths[1..]).session.store, x);
      }
    }
  }

  lemma SamePageAtTrans(s: Store, t: Store, u: Store, x: string)
    requires SamePageAt(s, t, x) && SamePageAt(t, u, x)
    ensures SamePageAt(s, u, x)
  {
  }

  /** A page no file maps to keeps its row through the load loop, and stays valid if it was. */
  lemma LoadFilesLeaveAlone(o: Options, ss: Session, paths: seq<string>, u: string)
    requires NoFileFor(paths, u) && u in ss.store.pages
    ensures var r := LoadFiles(o, ss, paths);
      && u in r.session.store.pages && r.session.store.pages[u] == ss.store.pages[u]
      && (u in ss.valid ==> u in r.session.valid)
  {
    LoadFilesOthers(o, ss, paths, u);
    LoadFilesFrame(o, ss, paths);
  }

  /** No two files in `paths` map to the same URL. */
  predicate DistinctUrls(paths: seq<string>)
  {
    forall i, j :: 0 <= i < j < |paths| && LoaderUrl(paths[i]).Ok? && LoaderUrl(paths[j]).Ok? ==>
      LoaderUrl(paths[i]).value != LoaderUrl(paths[j]).value
  }

  lemma DistinctUrlsTail(paths: seq<string>)
    requires paths != [] && DistinctUrls(paths)
    ensures DistinctUrls(paths[1..])
    ensures LoaderUrl(paths[0]).Ok? ==> NoFileFor(paths[1..], LoaderUrl(paths[0]).value)
  {
    forall i, j | 0 <= i < j < |paths[1..]| && LoaderUrl(paths[1..][i]).Ok? && LoaderUrl(paths[1..][j]).Ok?
      ensures LoaderUrl(paths[1..][i]).value != LoaderUrl(paths[1..][j]).value
    {
      assert paths[1..][i] == paths[i + 1] && paths[1..][j] == paths[j + 1];
    }
    if LoaderUrl(paths[0]).Ok? {
      forall i | 0 <= i < |paths[1..]| && LoaderUrl(paths[1..][i]).Ok?
        ensures LoaderUrl(paths[1..][i]).value != LoaderUrl(paths[0]).value
      {
        assert paths[1..][i] == paths[i + 1];
      }
    }
  }

  /**
   * Without `--force`, a load loop over files with distinct URLs keeps every
   * page changed in Admin: its fields stay, and it either stays dirty or
   * was found equal to its file and made valid (sync.py:567-571).
   */
  lemma {:induction false} LoadFilesKeepsDirty(o: Options, ss: Session, paths: seq<string>, u: string)
    requires !o.force && DistinctUrls(paths)
    requires u in ss.store.pages && ss.store.pages[u].isDirty
    ensures var r := LoadFiles(o, ss, paths);
      && u in r.session.store.pages
      && PageFields(r.session.store.pages[u]) == PageFields(ss.store.pages[u])
      && (r.session.store.pages[u].isDirty || u in r.session.valid)
    decreases |paths|
  {
    if paths != [] {
      DistinctUrlsTail(paths);
      if LoaderUrl(paths[0]).Ok? && LoaderUrl(paths[0]).value == u {
        FirstFileKeepsDirty(o, ss, paths);
      } else {
        var r1 := LoadFile(o, ss, paths[0]);
        assert SamePageAt(ss.store, r1.session.store, u);
        if r1.error.None? {
          LoadFilesKeepsDirty(o, r1.session, paths[1..], u);
        }
      }
    }
  }

  /** The load loop whose first file maps to a dirty page, which no later file maps to. */
  lemma FirstFileKeepsDirty(o: Options, ss: Session, paths: seq<string>)
    requires !o.force && paths != [] && LoaderUrl(paths[0]).Ok?
    requires NoFileFor(paths[1..], LoaderUrl(paths[0]).value)
    requires LoaderUrl(paths[0]).value in ss.store.pages && ss.store.pages[LoaderUrl(paths[0]).value].isDirty
    ensures var u := LoaderUrl(paths[0]).value;
      var r := LoadFiles(o, ss, paths);
      && u in r.session.store.pages
      && PageFields(r.session.store.pages[u]) == PageFields(ss.store.pages[u])
      && (r.session.store.pages[u].isDirty || u in r.session.valid)
  {
    var r1 := LoadFile(o, ss, paths[0]);
    LoadFileKeepsDirty(o, ss, paths[0]);
    if r1.error.None? {
      LoadFilesLeaveAlone(o, r1.session, paths[1..], LoaderUrl(paths[0]).value);
    }
  }

  /**
   * A load loop that ends without error made valid every page that one of
   * its files maps to (sync.py:583-586).
   */
  lemma {:induction false} LoadFilesValid(o: Options, ss: Session, paths: seq<string>)
    ensures var r := LoadFiles(o, ss, paths);
      r.error.None? ==>
        forall i :: 0 <= i < |paths| && LoaderUrl(paths[i]).Ok? && LoaderUrl(paths[i]).value in r.session.store.pages ==>
          LoaderUrl(paths[i]).value in r.session.valid
    decreases |paths|
  {
    if paths != [] {
      var r1 := LoadFile(o, ss, paths[0]);
      var rest := paths[1..];
      if r1.error.None? {
        var r := LoadFiles(o, r1.session, rest);
        LoadFilesValid(o, r1.session, rest);
        LoadFilesFrame(o, r1.session, rest);
        if r.error.None? {
          forall i | 0 <= i < |paths| && LoaderUrl(paths[i]).Ok? && LoaderUrl(paths[i]).value in r.session.store.pages
            ensures LoaderUrl(paths[i]).value in r.session.valid
          {
            var url := LoaderUrl(paths[i]).value;
            if i > 0 {
              assert paths[i] == rest[i - 1];
            } else if url !in r1.session.store.pages {
              if NoFileFor(rest, url) {
                LoadFilesOthers(o, r1.session, rest, url);
              }
              var j :| 0 <= j < |rest| && LoaderUrl(rest[j]).Ok? && LoaderUrl(rest[j]).value == url;
            }
          }
        }
      }
    }
  }

  /** A load loop that ends without error counted every file once, under a load status. */
  lemma {:induction false} LoadFilesCount(o: Options, ss: Session, paths: seq<string>)
    ensures var r := LoadFiles(o, ss, paths);
      r.error.None? ==>
        && ss.summary <= r.session.summary
        && |r.session.summary| == |ss.summary| + |paths|
        && forall st :: r.session.summary[st] > ss.summary[st] ==> IsLoadStatus(st)
    decreases |paths|
  {
    if paths != [] {
      var r1 := LoadFile(o, ss, paths[0]);
      if r1.error.None? {
        LoadFilesCount(o, r1.session, paths[1..]);
      }
    }
  }

  /**
   * The deletion loop changes no file and no kept page, leaves the valid
   * set alone, and is inert on a dry run.
   */
  lemma {:induction false} DeletePagesFrame(o: Options, ss: Session, urls: seq<string>, pages: map<string, Page>)
    requires forall i :: 0 <= i < |urls| ==> urls[i] in pages
    ensures var r := DeletePages(o, ss, urls, pages);
      && r.session.store.files == ss.store.files && r.session.store.dirs == ss.store.dirs
      && r.session.store.pages.Keys <= ss.store.pages.Keys
      && (forall x :: x in r.session.store.pages ==> r.session.store.pages[x] == ss.store.pages[x])
      && r.session.valid == ss.valid
      && (o.dryRun ==> r.session.store == ss.store)
    decreases |urls|
  {
    if urls != [] {
      var r1 := DeletePageEntry(o, ss, urls[0], pages[urls[0]].isDirty);
      if r1.error.None? {
        DeletePagesFrame(o, r1.session, urls[1..], pages);
      }
    }
  }

  /** The cleanup touches no file or directory, only removes pages, and is inert on a dry run. */
  lemma DeleteUnusedPagesFrame(o: Options, ss: Session, rootUrl: string)
    ensures var t := DeleteUnusedPages(o, ss, rootUrl).session.store;
      && t.files == ss.store.files && t.dirs == ss.store.dirs
      && (o.dryRun ==> t == ss.store)
  {
    var list := UnusedPages(ss.store, rootUrl, ss.valid);
    assert forall i :: 0 <= i < |list| ==> list[i] in ss.store.pages by {
      forall i | 0 <= i < |list|
        ensures list[i] in ss.store.pages
      {
        assert list[i] in list;
      }
    }
    DeletePagesFrame(o, ss, list, ss.store.pages);
  }

  /**
   * The deletion loop removes only listed pages, and without `--force`
   * never one that `pages` flags as changed in Admin.
   */
  lemma {:induction false} DeletePagesRemovesOnly(o: Options, ss: Session, urls: seq<string>, pages: map<string, Page>)
    requires forall i :: 0 <= i < |urls| ==> urls[i] in pages
    ensures var r := DeletePages(o, ss, urls, pages);
      forall x :: x in ss.store.pages && x !in r.session.store.pages ==>
        x in urls && x in pages && (o.force || !pages[x].isDirty)
    decreases |urls|
  {
    if urls != [] {
      var r1 := DeletePageEntry(o, ss, urls[0], pages[urls[0]].isDirty);
      if r1.error.None? {
        DeletePagesRemovesOnly(o, r1.session, urls[1..], pages);
      }
    }
  }

  /** A deletion loop that ends without error counted every page once, under a delete status. */
  lemma {:induction false} DeletePagesCount(o: Options, ss: Session, urls: seq<string>, pages: map<string, Page>)
    requires forall i :: 0 <= i < |urls| ==> urls[i] in pages
    ensures var r := DeletePages(o, ss, urls, pages);
      r.error.None? ==>
        && ss.summary <= r.session.summary
        && |r.session.summary| == |ss.summary| + |urls|
        && forall st :: r.session.summary[st] > ss.summary[st] ==> IsPageDeleteStatus(st)
    decreases |urls|
  {
    if urls != [] {
      var r1 := DeletePageEntry(o, ss, urls[0], pages[urls[0]].isDirty);
      if r1.error.None? {
        DeletePagesCount(o, r1.session, urls[1..], pages);
      }
    }
  }

  // ---------------------------------------------------------------------
  // Properties of a whole load
  // ---------------------------------------------------------------------

  /** A load never touches the sync directory. */
  lemma LoadKeepsFiles(o: Options, rootUrl: string, s: Store, answers: seq<string>)
    ensures var t := LoadRun(o, rootUrl, s, answers).session.store;
      t.files == s.files && t.dirs == s.dirs
  {
    if PageLoaders(s, rootUrl).Ok? {
      var init := Session(s, answers, multiset{}, {});
      var paths := PageLoaders(s, rootUrl).value;
      var loaded := LoadFiles(o, init, paths);
      LoadRunOfPaths(o, rootUrl, s, answers, paths);
      LoadFilesFrame(o, init, paths);
      if loaded.error.None? {
        var ss := loaded.session;
        DeleteUnusedPagesFrame(o, ss, rootUrl);
      }
    }
  }

  /** `--dry-run` leaves the page table as it was. */
  lemma LoadDryRun(o: Options, rootUrl: string, s: Store, answers: seq<string>)
    requires o.dryRun
    ensures LoadRun(o, rootUrl, s, answers).session.store == s
  {
    if PageLoaders(s, rootUrl).Ok? {
      var init := Session(s, answers, multiset{}, {});
      var paths := PageLoaders(s, rootUrl).value;
      var loaded := LoadFiles(o, init, paths);
      LoadRunOfPaths(o, rootUrl, s, answers, paths);
      LoadFilesFrame(o, init, paths);
      if loaded.error.None? {
        var ss := loaded.session;
        DeleteUnusedPagesFrame(o, ss, rootUrl);
      }
    }
  }

  /**
   * A load deletes only pages whose URL starts with the root URL and that
   * no loaded file maps to (sync.py:590-596).
   */
  lemma LoadDeletesOnlyUnderRoot(o: Options, rootUrl: string, s: Store, answers: seq<string>)
    ensures var t := LoadRun(o, rootUrl, s, answers).session.store;
      forall u :: u in s.pages && u !in t.pages ==>
        StartsWith(u, rootUrl) && PageLoaders(s, rootUrl).Ok? && NoFileFor(PageLoaders(s, rootUrl).value, u)
  {
    if PageLoaders(s, rootUrl).Ok? {
      var init := Session(s, answers, multiset{}, {});
      var paths := PageLoaders(s, rootUrl).value;
      var loaded := LoadFiles(o, init, paths);
      LoadRunOfPaths(o, rootUrl, s, answers, paths);
      LoadFilesFrame(o, init, paths);
      if loaded.error.None? {
        var ss := loaded.session;
        var list := UnusedPages(ss.store, rootUrl, ss.valid);
        LoadFilesValid(o, init, paths);
        DeletePagesRemovesOnly(o, ss, list, ss.store.pages);
        var t := LoadRun(o, rootUrl, s, answers).session.store;
        assert t == DeletePages(o, ss, list, ss.store.pages).session.store;
        forall u | u in s.pages && u !in t.pages
          ensures StartsWith(u, rootUrl) && NoFileFor(paths, u)
        {
          assert u in list;
          forall i | 0 <= i < |paths| && LoaderUrl(paths[i]).Ok?
            ensures LoaderUrl(paths[i]).value != u
          {
          }
        }
      }
    }
  }

  /**
   * Without `--force`, cleaning up keeps a page that is still flagged as
   * changed in Admin or that a file matched.
   */
  lemma DeleteUnusedPagesKeeps(o: Options, ss: Session, rootUrl: string, u: string)
    requires !o.force && u in ss.store.pages && (ss.store.pages[u].isDirty || u in ss.valid)
    ensures var t := DeleteUnusedPages(o, ss, rootUrl).session.store;
      u in t.pages && t.pages[u] == ss.store.pages[u]
  {
    var list := UnusedPages(ss.store, rootUrl, ss.valid);
    DeletePagesRemovesOnly(o, ss, list, ss.store.pages);
    DeletePagesFrame(o, ss, list, ss.store.pages);
  }

  /**
   * Without `--force`, a load whose files map to distinct URLs keeps every
   * page changed in Admin, with its fields (sync.py:567-571, 602-607).
   */
  lemma LoadKeepsDirtyPages(o: Options, rootUrl: string, s: Store, answers: seq<string>, u: string)
    requires !o.force && u in s.pages && s.pages[u].isDirty
    requires PageLoaders(s, rootUrl).Ok? ==> DistinctUrls(PageLoaders(s, rootUrl).value)
    ensures var t := LoadRun(o, rootUrl, s, answers).session.store;
      u in t.pages && PageFields(t.pages[u]) == PageFields(s.pages[u])
  {
    if PageLoaders(s, rootUrl).Ok? {
      var init := Session(s, answers, multiset{}, {});
      var paths := PageLoaders(s, rootUrl).value;
      var loaded := LoadFiles(o, init, paths);
      LoadRunOfPaths(o, rootUrl, s, answers, paths);
      LoadFilesKeepsDirty(o, init, paths, u);
      if loaded.error.None? {
        DeleteUnusedPagesKeeps(o, loaded.session, rootUrl, u);
      }
    }
  }

  /** The whole load once the page files are found: the load loop, then the cleanup unless it failed. */
  lemma LoadRunOfPaths(o: Options, rootUrl: string, s: Store, answers: seq<string>, paths: seq<string>)
    requires PageLoaders(s, rootUrl) == Ok(paths)
    ensures var loaded := LoadFiles(o, Session(s, answers, multiset{}, {}), paths);
      LoadRun(o, rootUrl, s, answers) == if loaded.error.Some? then loaded else DeleteUnusedPages(o, loaded.session, rootUrl)
  {
  }

  // ---------------------------------------------------------------------
  // The operation on a live website
  // ---------------------------------------------------------------------

  /** The load loop from its `i`-th file on is that file's load, then the rest. */
  lemma LoadFilesStep(o: Options, ss: Session, paths: seq<string>, i: nat)
    requires i < |paths|
    ensures var r := LoadFile(o, ss, paths[i]);
      LoadFiles(o, ss, paths[i..]) == if r.error.Some? then r else LoadFiles(o, r.session, paths[i + 1..])
  {
    assert paths[i..][0] == paths[i] && paths[i..][1..] == paths[i + 1..];
  }

  /** The deletion loop from its `i`-th page on is that page's deletion, then the rest. */
  lemma DeletePagesStep(o: Options, ss: Session, urls: seq<string>, pages: map<string, Page>, i: nat)
    requires forall k :: 0 <= k < |urls| ==> urls[k] in pages
    requires i < |urls|
    ensures var r := DeletePageEntry(o, ss, urls[i], pages[urls[i]].isDirty);
      DeletePages(o, ss, urls[i..], pages) == if r.error.Some? then r else DeletePages(o, r.session, urls[i + 1..], pages)
  {
    assert urls[i..][0] == urls[i] && urls[i..][1..] == urls[i + 1..];
  }

  /**
   * `WebsiteLoadOperation` over a website and a prompter. The summary
   * counts the statuses.
   */
  class LoadOperation {
    const rootUrl: string
    const options: Options
    const site: Website
    const prompter: Prompter
    var summary: multiset<string>

    /** The prompter answers as the options say. */
    predicate Valid()
    {
      prompter.noInteractive == options.noInteractive
    }

    /** The state of the run, with the URLs made valid so far. */
    function Current(valid: set<string>): Session
      reads this, site, prompter
    {
      Session(site.Snapshot(), prompter.lines, summary, valid)
    }

    /** `root_url or '/'` (sync.py:304): an empty root URL means the site root. */
    constructor (rootUrl: string, options: Options, site: Website, lines: seq<string>)
      ensures Valid()
      ensures this.rootUrl == (if rootUrl == [] then "/" else rootUrl)
      ensures this.options == options && this.site == site && prompter.lines == lines
      ensures summary == multiset{}
      ensures fresh(prompter)
    {
      this.rootUrl := if rootUrl == [] then "/" else rootUrl;
      this.options := options;
      this.site := site;
      this.prompter := new Prompter(options.noInteractive, lines);
      summary := multiset{};
    }

    /** Saving unless declined or dry, then recording the file (sync.py:581-587). */
    method RecordLoad(path: string, url: string, status: string, apply: bool, valid: set<string>)
      returns (err: Option<SyncError>, valid': set<string>)
      modifies this, site
      ensures var r := LoadRecord(options, old(Current(valid)), path, url, status, apply);
        err == r.error && Current(valid') == r.session
    {
      valid' := valid;
      err := None;
      if apply && !options.dryRun {
        err := SaveLoaded(site, path, url);
        if err.Some? {
          return;
        }
      }
      if url in site.pages {
        valid' := valid + {url};
      }
      summary := summary + multiset{status};
    }

    /** Deciding, marking, then saving and recording (sync.py:553-587). */
    method ApplyLoad(path: string, url: string, base: char, valid: set<string>)
      returns (err: Option<SyncError>, valid': set<string>)
      requires Valid() && base in {ADDED, MODIFIED, NO_CHANGES}
      modifies this, site, prompter
      ensures var r := LoadApply(options, old(Current(valid)), path, url, base);
        err == r.error && Current(valid') == r.session
    {
      valid' := valid;
      var dirty := DirtyFor(site.Snapshot(), url, base);
      var choice := true;
      if base != NO_CHANGES {
        if dirty && !options.force {
          choice := false;
        } else {
          err, choice := prompter.Ask();
          if err.Some? {
            return;
          }
        }
      }
      var status := Mark(base, choice, dirty);
      err, valid' := RecordLoad(path, url, status, choice, valid);
    }

    /** One round of `load_existing_files` (sync.py:552-587). */
    method LoadOne(path: string, valid: set<string>) returns (err: Option<SyncError>, valid': set<string>)
      requires Valid()
      modifies this, site, prompter
      ensures var r := LoadFile(options, old(Current(valid)), path);
        err == r.error && Current(valid') == r.session
    {
      var located := LoaderUrl(path);
      if located.Err? {
        return Some(located.error), valid;
      }
      var compared := LoaderStatus(site.Snapshot(), path, located.value);
      if compared.Err? {
        return Some(compared.error), valid;
      }
      err, valid' := ApplyLoad(path, located.value, compared.value, valid);
    }

    /** `load_existing_files` (sync.py:548-588) over the given files, in order. */
    method LoadExistingFiles(paths: seq<string>) returns (err: Option<SyncError>, valid: set<string>)
      requires Valid()
      modifies this, site, prompter
      ensures var r := LoadFiles(options, old(Current({})), paths);
        err == r.error && Current(valid) == r.session
    {
      valid := {};
      err := None;
      ghost var init := Current({});
      var i := 0;
      while i < |paths|
        invariant 0 <= i <= |paths| && err.None?
        invariant LoadFiles(options, Current(valid), paths[i..]) == LoadFiles(options, init, paths)
      {
        LoadFilesStep(options, Current(valid), paths, i);
        err, valid := LoadOne(paths[i], valid);
        if err.Some? {
          return;
        }
        i := i + 1;
      }
      assert paths[i..] == [];
    }

    /** One round of `delete_unused_pages` (sync.py:598-615). */
    method DeleteOnePage(url: string, dirty: bool, valid: set<string>) returns (err: Option<SyncError>)
      requires Valid()
      modifies this, site, prompter
      ensures var r := DeletePageEntry(options, old(Current(valid)), url, dirty);
        err == r.error && Current(valid) == r.session
    {
      err := None;
      var choice := false;
      if !dirty || options.force {
        err, choice := prompter.Ask();
        if err.Some? {
          return;
        }
      }
      var status := Mark(DELETED, choice, dirty);
      if choice && !options.dryRun {
        site.DeletePage(url);
      }
      summary := summary + multiset{status};
    }

    /** `delete_unused_pages` (sync.py:590-615). */
    method RemoveUnusedPages(valid: set<string>) returns (err: Option<SyncError>)
      requires Valid()
      modifies this, site, prompter
      ensures var r := DeleteUnusedPages(options, old(Current(valid)), rootUrl);
        err == r.error && Current(valid) == r.session
    {
      var urls := UnusedPages(site.Snapshot(), rootUrl, valid);
      err := DeleteListed(urls, site.pages, valid);
    }

    /** The deletion loop of `delete_unused_pages` over the URLs queried beforehand. */
    method DeleteListed(urls: seq<string>, pages: map<string, Page>, valid: set<string>) returns (err: Option<SyncError>)
      requires Valid()
      requires forall k :: 0 <= k < |urls| ==> urls[k] in pages
      modifies this, site, prompter
      ensures var r := DeletePages(options, old(Current(valid)), urls, pages);
        err == r.error && Current(valid) == r.session
    {
      err := None;
      ghost var init := Current(valid);
      var i := 0;
      while i < |urls|
        invariant 0 <= i <= |urls| && err.None?
        invariant DeletePages(options, Current(valid), urls[i..], pages) == DeletePages(options, init, urls, pages)
      {
        DeletePagesStep(options, Current(valid), urls, pages, i);
        err := DeleteOnePage(urls[i], pages[urls[i]].isDirty, valid);
        if err.Some? {
          return;
        }
        i := i + 1;
      }
      assert urls[i..] == [];
    }

    /** `WebsiteLoadOperation.run()` (sync.py:617-627). */
    method Run() returns (err: Option<SyncError>)
      requires Valid()
      modifies this, site, prompter
      ensures var r := LoadRun(options, rootUrl, old(site.Snapshot()), old(prompter.lines));
        && err == r.error && site.Snapshot() == r.session.store
        && prompter.lines == r.session.answers && summary == r.session.summary
    {
      summary := multiset{};
      var loaders := PageLoaders(site.Snapshot(), rootUrl);
      if loaders.Err? {
        return Some(loaders.error);
      }
      var valid;
      err, valid := LoadExistingFiles(loaders.value);
      if err.Some? {
        return;
      }
      err := RemoveUnusedPages(valid);
    }
  }
}
