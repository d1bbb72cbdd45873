/*
 * `WebsiteDumpOperation` (powerpages/sync.py:411-509): write the root page
 * and its descendants into the sync directory, then delete what no dumped
 * page accounts for under the root's directory.
 *
 * The functions give the run item by item; the class below performs it on
 * a `Website` and is proved to follow them.
 */
module SyncDump {
  import opened Outcomes
  import opened Strings
  import opened SyncPaths
  import opened SyncStatus
  import opened PageTree
  import opened SyncStore
  import opened SyncPages
  import opened SyncBase

  /**
   * The statuses a dumped page can be counted under: A, M, `.`, As, Ms
   * (a page without changes is never declined).
   */
  predicate IsDumpStatus(st: string)
  {
    exists base :: base in {ADDED, MODIFIED, NO_CHANGES} && (st == [base] || (base != NO_CHANGES && st == [base, SKIPPED]))
  }

  /** The statuses a deletion can be counted under: D, Ds. */
  predicate IsDeleteStatus(st: string)
  {
    st == [DELETED] || st == [DELETED, SKIPPED]
  }

  // ---------------------------------------------------------------------
  // dump_existing_pages (sync.py:414-446)
  // ---------------------------------------------------------------------

  /** The pages a dump visits: the root, then its descendants by URL. */
  function DumpItems(s: Store, rootUrl: string): (items: seq<string>)
    ensures |items| >= 1 && items[0] == rootUrl
    ensures forall i :: 1 <= i < |items| ==> IsDescendant(rootUrl, items[i]) && items[i] in s.pages
  {
    [rootUrl] + OrderedByUrl(Descendants(s.pages.Keys, rootUrl))
  }

  /** A change is confirmed unless the status is NO_CHANGES (sync.py:423-434). */
  function DumpDecision(o: Options, answers: seq<string>, base: char): (r: Result<Answer, SyncError>)
    ensures base == NO_CHANGES ==> r == Ok(Answer(true, answers))
    ensures base != NO_CHANGES ==> r == Confirm(o.noInteractive, answers)
  {
    if base == NO_CHANGES then Ok(Answer(true, answers)) else Confirm(o.noInteractive, answers)
  }

  /**
   * A page's dump once the decision is taken: save unless declined or dry,
   * then record the path's lineage as valid and count the status
   * (sync.py:437-445). A failing save stops before either.
   */
  function DumpRecord(o: Options, ss: Session, url: string, page: Page, path: string, status: string, apply: bool): (r: Run)
    requires IsRelative(path) && path != []
    requires IsDumpStatus(status)
    ensures r.session.answers == ss.answers
    ensures r.session.store.pages.Keys == ss.store.pages.Keys
    ensures forall u :: u in ss.store.pages ==> r.session.store.pages[u].data == ss.store.pages[u].data
    ensures ss.store.files.Keys <= r.session.store.files.Keys && ss.store.dirs <= r.session.store.dirs
    ensures !apply || o.dryRun ==> r.session.store == ss.store
    ensures Disjoint(ss.store) ==> Disjoint(r.session.store)
    ensures r.error.None? ==> r.session.valid == ss.valid + Lineage(path)
    ensures r.error.None? ==> r.session.summary == ss.summary + multiset{status}
  {
    var e := if apply && !o.dryRun then DumperSave(ss.store, url, path, page) else Effect(ss.store, None);
    if e.error.Some? then Run(ss.(store := e.store), e.error)
    else Run(ss.(store := e.store, valid := ss.valid + Lineage(path), summary := ss.summary + multiset{status}), None)
  }

  /**
   * The rest of one page's dump once its path and status are known: ask
   * unless NO_CHANGES, mark a declined change `s`, then save and record
   * (sync.py:423-445).
   */
  function DumpApply(o: Options, ss: Session, url: string, page: Page, path: string, base: char): (r: Run)
    requires IsRelative(path) && path != []
    requires base in {ADDED, MODIFIED, NO_CHANGES}
    ensures r.session.store.pages.Keys == ss.store.pages.Keys
    ensures ss.store.files.Keys <= r.session.store.files.Keys && ss.store.dirs <= r.session.store.dirs
    ensures base == NO_CHANGES ==> r.session.answers == ss.answers
    ensures r.error.None? ==> r.session.valid == ss.valid + Lineage(path)
    ensures r.error.None? ==> exists st :: IsDumpStatus(st) && r.session.summary == ss.summary + multiset{st}
  {
    match DumpDecision(o, ss.answers, base)
    case Err(e) => Run(ss, Some(e))
    case Ok(a) =>
      var status := Mark(base, a.choice, false);
      assert IsDumpStatus(status);
      DumpRecord(o, ss.(answers := a.rest), url, page, path, status, a.choice)
  }

  /** One iteration of the dump loop for `page`, found at `url`. */
  function DumpPage(o: Options, ss: Session, url: string, page: Page): (r: Run)
    ensures r.session.store.pages.Keys == ss.store.pages.Keys
    ensures ss.store.files.Keys <= r.session.store.files.Keys && ss.store.dirs <= r.session.store.dirs
    ensures r.error.None? ==> DumperPath(ss.store, url).Ok?
    ensures r.error.None? ==> r.session.valid == ss.valid + Lineage(DumperPath(ss.store, url).value)
    ensures r.error.None? ==> exists st :: IsDumpStatus(st) && r.session.summary == ss.summary + multiset{st}
  {
    match DumperPath(ss.store, url)
    case Err(e) => Run(ss, Some(e))
    case Ok(path) =>
      match DumperStatus(ss.store, path, page)
      case Err(e) => Run(ss, Some(e))
      case Ok(base) => DumpApply(o, ss, url, page, path, base)
  }

  /**
   * A page's dump changes no page's fields, removes nothing, and on a dry
   * run changes nothing at all.
   */
  lemma DumpPageFrame(o: Options, ss: Session, url: string, page: Page)
    ensures var r := DumpPage(o, ss, url, page);
      && (forall u :: u in ss.store.pages ==> r.session.store.pages[u].data == ss.store.pages[u].data)
      && (o.dryRun ==> r.session.store == ss.store)
      && (Disjoint(ss.store) ==> Disjoint(r.session.store))
  {
    match DumperPath(ss.store, url)
    case Err(_) =>
    case Ok(path) =>
      match DumperStatus(ss.store, path, page)
      case Err(_) =>
      case Ok(base) =>
        match DumpDecision(o, ss.answers, base)
        case Err(_) =>
        case Ok(a) =>
          var status := Mark(base, a.choice, false);
          assert IsDumpStatus(status);
          var r := DumpRecord(o, ss.(answers := a.rest), url, page, path, status, a.choice);
          assert DumpPage(o, ss, url, page) == r;
  }

  /** The dump loop over `urls`, stopping at the first error. */
  function DumpPages(o: Options, ss: Session, urls: seq<string>, pages: map<string, Page>): (r: Run)
    requires forall i :: 0 <= i < |urls| ==> urls[i] in pages
    decreases |urls|
  {
    if urls == [] then Run(ss, None)
    else
      var r := DumpPage(o, ss, urls[0], pages[urls[0]]);
      if r.error.Some? then r else DumpPages(o, r.session, urls[1..], pages)
  }

  /** The dump loop from its `i`-th page on is that page's dump, then the rest. */
  lemma DumpPagesStep(o: Options, ss: Session, urls: seq<string>, pages: map<string, Page>, i: nat)
    requires forall k :: 0 <= k < |urls| ==> urls[k] in pages
    requires i < |urls|
    ensures var r := DumpPage(o, ss, urls[i], pages[urls[i]]);
      DumpPages(o, ss, urls[i..], pages) == if r.error.Some? then r else DumpPages(o, r.session, urls[i + 1..], pages)
  {
    assert urls[i..][0] == urls[i] && urls[i..][1..] == urls[i + 1..];
  }

  /** The dump loop keeps every page's fields, removes nothing, and is inert on a dry run. */
  lemma {:induction false} DumpPagesFrame(o: Options, ss: Session, urls: seq<string>, pages: map<string, Page>)
    requires forall i :: 0 <= i < |urls| ==> urls[i] in pages
    ensures var r := DumpPages(o, ss, urls, pages);
      && r.session.store.pages.Keys == ss.store.pages.Keys
      && (forall u :: u in ss.store.pages ==> r.session.store.pages[u].data == ss.store.pages[u].data)
      && ss.store.files.Keys <= r.session.store.files.Keys
      && ss.store.dirs <= r.session.store.dirs
      && (o.dryRun ==> r.session.store == ss.store)
      && (Disjoint(ss.store) ==> Disjoint(r.session.store))
    decreases |urls|
  {
    if urls != [] {
      var r := DumpPage(o, ss, urls[0], pages[urls[0]]);
      DumpPageFrame(o, ss, urls[0], pages[urls[0]]);
      if r.error.None? {
        DumpPagesFrame(o, r.session, urls[1..], pages);
      }
    }
  }

  /** A dump loop that ends without error counted every page exactly once, under a dump status. */
  lemma {:induction false} DumpPagesCount(o: Options, ss: Session, urls: seq<string>, pages: map<string, Page>)
    requires forall i :: 0 <= i < |urls| ==> urls[i] in pages
    ensures var r := DumpPages(o, ss, urls, pages);
      r.error.None? ==>
        && ss.summary <= r.session.summary
        && |r.session.summary| == |ss.summary| + |urls|
        && (forall st :: r.session.summary[st] > ss.summary[st] ==> IsDumpStatus(st))
    decreases |urls|
  {
    if urls != [] {
      var r1 := DumpPage(o, ss, urls[0], pages[urls[0]]);
      if r1.error.None? {
        DumpPagesCount(o, r1.session, urls[1..], pages);
      }
    }
  }

  /** Every directory above the file of each of `urls` is in `valid`. */
  predicate LineagesValid(s: Store, urls: seq<string>, valid: set<string>)
  {
    forall i :: 0 <= i < |urls| ==> DumperPath(s, urls[i]).Ok? && Lineage(DumperPath(s, urls[i]).value) <= valid
  }

  /** The lineages of a list are valid when the first one and those of the rest are. */
  lemma LineagesValidCons(s: Store, t: Store, urls: seq<string>, valid: set<string>)
    requires urls != [] && s.pages.Keys == t.pages.Keys
    requires DumperPath(s, urls[0]).Ok? && Lineage(DumperPath(s, urls[0]).value) <= valid
    requires LineagesValid(t, urls[1..], valid)
    ensures LineagesValid(s, urls, valid)
  {
    forall i | 1 <= i < |urls|
      ensures DumperPath(s, urls[i]).Ok? && Lineage(DumperPath(s, urls[i]).value) <= valid
    {
      assert urls[i] == urls[1..][i - 1];
      DumperPathStable(s, t, urls[i]);
    }
  }

  /**
   * A dump loop that ends without error made valid every directory above
   * every page's file, up to the sync directory (sync.py:440-444).
   */
  lemma {:induction false} DumpPagesValid(o: Options, ss: Session, urls: seq<string>, pages: map<string, Page>)
    requires forall i :: 0 <= i < |urls| ==> urls[i] in pages
    ensures var r := DumpPages(o, ss, urls, pages);
      r.error.None? ==> ss.valid <= r.session.valid && LineagesValid(ss.store, urls, r.session.valid)
    decreases |urls|
  {
    if urls != [] {
      var r1 := DumpPage(o, ss, urls[0], pages[urls[0]]);
      if r1.error.None? {
        var r := DumpPages(o, r1.session, urls[1..], pages);
        DumpPagesValid(o, r1.session, urls[1..], pages);
        if r.error.None? {
          LineagesValidCons(ss.store, r1.session.store, urls, r.session.valid);
        }
      }
    }
  }

  // ---------------------------------------------------------------------
  // delete_unused_files (sync.py:448-479)
  // ---------------------------------------------------------------------

  /**
   * What `os.walk(start)` reports: `start` itself and every directory below
   * it, and every file below it whose name does not start with a dot.
   * Nothing when `start` is not a directory.
   */
  function Walked(s: Store, start: string): (w: set<string>)
    ensures forall p :: p in w && p != start ==> Under(start, p) && (p in s.dirs || (p in s.files && !Hidden(p)))
  {
    if start == [] || start in s.dirs then
      {start} + WalkedFiles(s, start) + (set d | d in s.dirs && Under(start, d))
    else {}
  }

  /** The entries of `paths` that are not in `valid`, in order. */
  function Unlisted(paths: seq<string>, valid: set<string>): seq<string>
  {
    if paths == [] then []
    else (if paths[0] in valid then [] else [paths[0]]) + Unlisted(paths[1..], valid)
  }

  /** `Unlisted` keeps exactly the entries outside `valid`. */
  lemma {:induction false} UnlistedMembers(paths: seq<string>, valid: set<string>)
    ensures forall p :: p in Unlisted(paths, valid) <==> p in paths && p !in valid
  {
    if paths != [] {
      UnlistedMembers(paths[1..], valid);
      assert forall p :: p in paths <==> p == paths[0] || p in paths[1..];
    }
  }

  /**
   * No entry comes before an entry inside it: the contents of a directory
   * are listed before the directory, so `rmdir` meets it empty.
   */
  predicate BottomUp(r: seq<string>)
  {
    forall i, j :: 0 <= i < j < |r| ==> !Under(r[i], r[j])
  }

  /** A strictly increasing list read backwards lists contents before their directory. */
  lemma ReversedSortedBottomUp(sorted: seq<string>)
    requires StrictlySorted(sorted)
    ensures BottomUp(Reverse(sorted))
  {
    var r := Reverse(sorted);
    var n := |sorted|;
    forall i, j | 0 <= i < j < n
      ensures !Under(r[i], r[j])
    {
      var a, b := n - 1 - j, n - 1 - i;
      assert r[i] == sorted[b] && r[j] == sorted[a] && a < b;
      if Under(r[i], r[j]) {
        if r[i] != [] {
          assert StartsWith(r[j], r[i] + "/");
          assert r[j][..|r[i]|] == (r[i] + "/")[..|r[i]|];
        }
        assert StartsWith(r[j], r[i]);
        PrefixLessEq(r[i], r[j]);
        LessEqAntisymmetric(sorted[a], sorted[b]);
        assert false;
      }
    }
  }

  /**
   * The walk in the model's order: deepest entries first, so that a
   * directory comes after everything inside it.
   */
  function WalkOrder(s: Store, start: string): (r: seq<string>)
    ensures forall p :: p in r <==> p in Walked(s, start)
    ensures BottomUp(r)
  {
    var sorted := Sorted(Walked(s, start));
    var r := Reverse(sorted);
    assert forall p :: p in r <==> p in multiset(sorted);
    ReversedSortedBottomUp(sorted);
    r
  }

  /** Leaving entries out keeps contents before their directory. */
  lemma {:induction false} UnlistedBottomUp(paths: seq<string>, valid: set<string>)
    requires BottomUp(paths)
    ensures BottomUp(Unlisted(paths, valid))
  {
    if paths != [] {
      var rest := Unlisted(paths[1..], valid);
      assert BottomUp(paths[1..]) by {
        forall i, j | 0 <= i < j < |paths| - 1
          ensures !Under(paths[1..][i], paths[1..][j])
        {
          assert paths[1..][i] == paths[i + 1] && paths[1..][j] == paths[j + 1];
        }
      }
      UnlistedBottomUp(paths[1..], valid);
      UnlistedMembers(paths[1..], valid);
      if paths[0] !in valid {
        var r := [paths[0]] + rest;
        forall i, j | 0 <= i < j < |r|
          ensures !Under(r[i], r[j])
        {
          if i == 0 {
            assert r[j] in paths[1..];
            var k :| 0 <= k < |paths| - 1 && paths[1..][k] == r[j];
            assert paths[k + 1] == r[j];
          } else {
            assert r[i] == rest[i - 1] && r[j] == rest[j - 1];
          }
        }
      }
    }
  }

  /** `delete_list`: the walked entries that no dumped page made valid, contents before their directory. */
  function DeleteList(s: Store, start: string, valid: set<string>): (r: seq<string>)
    ensures forall p :: p in r <==> p in Walked(s, start) && p !in valid
    ensures BottomUp(r)
  {
    UnlistedMembers(WalkOrder(s, start), valid);
    UnlistedBottomUp(WalkOrder(s, start), valid);
    Unlisted(WalkOrder(s, start), valid)
  }

  /** One deletion: ask, then remove unless declined or dry (sync.py:464-479). */
  function DeleteEntry(o: Options, ss: Session, path: string): (r: Run)
    ensures r.session.store.pages == ss.store.pages
    ensures r.session.store.files.Keys <= ss.store.files.Keys && ss.store.files.Keys - r.session.store.files.Keys <= {path}
    ensures r.session.store.dirs <= ss.store.dirs && ss.store.dirs - r.session.store.dirs <= {path}
    ensures o.dryRun ==> r.session.store == ss.store
    ensures r.session.valid == ss.valid
    ensures r.error.None? ==> exists st :: IsDeleteStatus(st) && r.session.summary == ss.summary + multiset{st}
  {
    match Confirm(o.noInteractive, ss.answers)
    case Err(e) => Run(ss, Some(e))
    case Ok(a) =>
      var status := Mark(DELETED, a.choice, false);
      assert IsDeleteStatus(status);
      var next := ss.(answers := a.rest, summary := ss.summary + multiset{status});
      if a.choice && !o.dryRun then
        match RemovePath(ss.store, path)
        case Err(e) => Run(ss.(answers := a.rest), Some(e))
        case Ok(t) => Run(next.(store := t), None)
      else Run(next, None)
  }

  /** The deletion loop over `paths`, stopping at the first error. */
  function DeleteEntries(o: Options, ss: Session, paths: seq<string>): (r: Run)
    decreases |paths|
  {
    if paths == [] then Run(ss, None)
    else
      var r := DeleteEntry(o, ss, paths[0]);
      if r.error.Some? then r else DeleteEntries(o, r.session, paths[1..])
  }

  /** The deletion loop touches no page and is inert on a dry run. */
  lemma {:induction false} DeleteEntriesFrame(o: Options, ss: Session, paths: seq<string>)
    ensures var r := DeleteEntries(o, ss, paths);
      && r.session.store.pages == ss.store.pages
      && r.session.valid == ss.valid
      && (o.dryRun ==> r.session.store == ss.store)
    decreases |paths|
  {
    if paths != [] {
      var r1 := DeleteEntry(o, ss, paths[0]);
      if r1.error.None? {
        DeleteEntriesFrame(o, r1.session, paths[1..]);
      }
    }
  }

  /** The deletion loop removes only entries of `paths`. */
  lemma {:induction false} DeleteEntriesRemovesListed(o: Options, ss: Session, paths: seq<string>)
    ensures var r := DeleteEntries(o, ss, paths);
      && (forall p :: p in ss.store.files && p !in paths ==> p in r.session.store.files)
      && (forall p :: p in ss.store.dirs && p !in paths ==> p in r.session.store.dirs)
    decreases |paths|
  {
    if paths != [] {
      var r1 := DeleteEntry(o, ss, paths[0]);
      if r1.error.None? {
        DeleteEntriesRemovesListed(o, r1.session, paths[1..]);
        assert forall p :: p !in paths ==> p != paths[0] && p !in paths[1..];
      }
    }
  }

  /** A deletion loop that ends without error counted every entry once, under a delete status. */
  lemma {:induction false} DeleteEntriesCount(o: Options, ss: Session, paths: seq<string>)
    ensures var r := DeleteEntries(o, ss, paths);
      r.error.None? ==>
        && ss.summary <= r.session.summary
        && |r.session.summary| == |ss.summary| + |paths|
        && forall st :: r.session.summary[st] > ss.summary[st] ==> IsDeleteStatus(st)
    decreases |paths|
  {
    if paths != [] {
      var r1 := DeleteEntry(o, ss, paths[0]);
      if r1.error.None? {
        DeleteEntriesCount(o, r1.session, paths[1..]);
      }
    }
  }

  /** The directory whose subtree a dump cleans: the one holding the root's file. */
  function DeleteStart(rootUrl: string): (r: Result<string, SyncError>)
    ensures r.Ok? <==> UrlToPath(rootUrl, true).Ok?
  {
    match UrlToPath(rootUrl, true)
    case Ok(path) => Ok(Dirname(path))
    case Err(_) => Err(PathIndexError)
  }

  /** `delete_unused_files`: nothing happens unless the root page has children. */
  function DeleteUnusedFiles(o: Options, ss: Session, rootUrl: string): (r: Run)
  {
    if !HasChildren(ss.store, rootUrl) then Run(ss, None)
    else
      match DeleteStart(rootUrl)
      case Err(e) => Run(ss, Some(e))
      case Ok(start) => DeleteEntries(o, ss, DeleteList(ss.store, start, ss.valid))
  }

  // ---------------------------------------------------------------------
  // add_to_vcs and run (sync.py:481-509)
  // ---------------------------------------------------------------------

  /**
   * Whether `git add` is run: only with `--git-add`, only when something was
   * added or deleted (an exact `A` or `D` count), never on a dry run, and
   * only when confirmed. The confirmation is asked last.
   */
  function AddToVcs(o: Options, ss: Session): (r: Result<Answer, SyncError>)
    ensures !o.gitAdd || o.dryRun ==> r == Ok(Answer(false, ss.answers))
    ensures [ADDED] !in ss.summary && [DELETED] !in ss.summary ==> r == Ok(Answer(false, ss.answers))
    ensures o.gitAdd && !o.dryRun && ([ADDED] in ss.summary || [DELETED] in ss.summary) ==>
      r == Confirm(o.noInteractive, ss.answers)
  {
    if o.gitAdd && ([DELETED] in ss.summary || [ADDED] in ss.summary) && !o.dryRun then
      Confirm(o.noInteractive, ss.answers)
    else Ok(Answer(false, ss.answers))
  }

  /** The end of a dump: the run, and whether the changes are staged in git. */
  datatype Outcome = Outcome(run: Run, staged: bool)

  /**
   * What follows a dump loop that ended without error: delete the unused
   * files, then offer to stage the changes in git.
   */
  function Finish(o: Options, rootUrl: string, dumped: Session): (out: Outcome)
    ensures out.run.session.store == DeleteUnusedFiles(o, dumped, rootUrl).session.store
  {
    var cleaned := DeleteUnusedFiles(o, dumped, rootUrl);
    if cleaned.error.Some? then Outcome(cleaned, false)
    else
      match AddToVcs(o, cleaned.session)
      case Err(e) => Outcome(Run(cleaned.session, Some(e)), false)
      case Ok(a) => Outcome(Run(cleaned.session.(answers := a.rest), None), a.choice)
  }

  /** `WebsiteDumpOperation.run()` from the stores and the user's input. */
  function DumpRun(o: Options, rootUrl: string, s: Store, answers: seq<string>): (out: Outcome)
    ensures rootUrl !in s.pages ==> out.run.error == Some(RootNotFound(rootUrl)) && out.run.session.store == s
  {
    var start := Session(s, answers, multiset{}, {[]});
    if rootUrl !in s.pages then Outcome(Run(start, Some(RootNotFound(rootUrl))), false)
    else
      var dumped := DumpPages(o, start, DumpItems(s, rootUrl), s.pages);
      if dumped.error.Some? then Outcome(dumped, false)
      else Finish(o, rootUrl, dumped.session)
  }

  // ---------------------------------------------------------------------
  // Properties of a whole dump
  // ---------------------------------------------------------------------

  /** The store a dump leaves behind, whether it ended or stopped. */
  function DumpResult(o: Options, rootUrl: string, s: Store, answers: seq<string>): (t: Store)
    requires rootUrl in s.pages
    ensures var dumped := DumpPages(o, Session(s, answers, multiset{}, {[]}), DumpItems(s, rootUrl), s.pages);
      t == if dumped.error.Some? then dumped.session.store
           else DeleteUnusedFiles(o, dumped.session, rootUrl).session.store
  {
    DumpRun(o, rootUrl, s, answers).run.session.store
  }

  /** Cleaning up touches no page and is inert on a dry run. */
  lemma DeleteUnusedFilesFrame(o: Options, ss: Session, rootUrl: string)
    ensures var r := DeleteUnusedFiles(o, ss, rootUrl);
      r.session.store.pages == ss.store.pages && (o.dryRun ==> r.session.store == ss.store)
  {
    if HasChildren(ss.store, rootUrl) && DeleteStart(rootUrl).Ok? {
      DeleteEntriesFrame(o, ss, DeleteList(ss.store, DeleteStart(rootUrl).value, ss.valid));
    }
  }

  /** `--dry-run` leaves the page table and the sync directory as they were. */
  lemma DumpDryRun(o: Options, rootUrl: string, s: Store, answers: seq<string>)
    requires o.dryRun
    ensures DumpRun(o, rootUrl, s, answers).run.session.store == s
  {
    if rootUrl in s.pages {
      var init := Session(s, answers, multiset{}, {[]});
      var dumped := DumpPages(o, init, DumpItems(s, rootUrl), s.pages);
      DumpPagesFrame(o, init, DumpItems(s, rootUrl), s.pages);
      DeleteUnusedFilesFrame(o, dumped.session, rootUrl);
      assert DumpResult(o, rootUrl, s, answers) == s;
    }
  }

  /** A dump changes no page's fields and deletes no page; at most it clears dirty flags. */
  lemma DumpKeepsPageFields(o: Options, rootUrl: string, s: Store, answers: seq<string>)
    ensures var t := DumpRun(o, rootUrl, s, answers).run.session.store;
      t.pages.Keys == s.pages.Keys && forall u :: u in s.pages ==> t.pages[u].data == s.pages[u].data
  {
    if rootUrl in s.pages {
      var init := Session(s, answers, multiset{}, {[]});
      var dumped := DumpPages(o, init, DumpItems(s, rootUrl), s.pages);
      DumpPagesFrame(o, init, DumpItems(s, rootUrl), s.pages);
      DeleteUnusedFilesFrame(o, dumped.session, rootUrl);
      var t := DumpResult(o, rootUrl, s, answers);
      assert t.pages == dumped.session.store.pages;
    }
  }

  /** The directory holding a file is among the valid ancestors recorded for it. */
  lemma DirnameInLineage(path: string)
    requires IsRelative(path) && path != []
    ensures Dirname(path) == [] || Dirname(path) in Lineage(path)
  {
    assert Lineage(path) == {path} + Lineage(Dirname(path));
  }

  /** Going from `s` to `t` removed no file and no directory. */
  predicate RemovesNothing(s: Store, t: Store)
  {
    s.files.Keys <= t.files.Keys && s.dirs <= t.dirs
  }

  /**
   * Going from `s` to `t` removed only entries strictly below `start`, and
   * no file whose name starts with a dot.
   */
  predicate RemovesOnlyBelow(s: Store, t: Store, start: string)
  {
    && (forall p :: p in s.files && p !in t.files ==> Under(start, p) && p != start && !Hidden(p))
    && (forall p :: p in s.dirs && p !in t.dirs ==> Under(start, p) && p != start)
  }

  lemma RemovesNothingTrans(s: Store, d: Store, t: Store)
    requires RemovesNothing(s, d) && RemovesNothing(d, t)
    ensures RemovesNothing(s, t)
  {
  }

  /** Removing nothing, then only entries below `start`, removes only entries below `start`. */
  lemma RemovesOnlyBelowAfter(s: Store, d: Store, t: Store, start: string)
    requires RemovesNothing(s, d) && RemovesOnlyBelow(d, t, start)
    ensures RemovesOnlyBelow(s, t, start)
  {
  }

  /**
   * Cleaning up after a dump that recorded the root's directory as valid
   * removes nothing unless the root page has children, and then only
   * walked entries strictly below that directory.
   */
  lemma DeleteUnusedFilesRemoves(o: Options, ss: Session, rootUrl: string)
    requires Disjoint(ss.store)
    requires HasChildren(ss.store, rootUrl) && DeleteStart(rootUrl).Ok? ==> DeleteStart(rootUrl).value in ss.valid
    ensures var t := DeleteUnusedFiles(o, ss, rootUrl).session.store;
      || RemovesNothing(ss.store, t)
      || (HasChildren(ss.store, rootUrl) && DeleteStart(rootUrl).Ok? && RemovesOnlyBelow(ss.store, t, DeleteStart(rootUrl).value))
  {
    var t := DeleteUnusedFiles(o, ss, rootUrl).session.store;
    if HasChildren(ss.store, rootUrl) && DeleteStart(rootUrl).Ok? {
      var start := DeleteStart(rootUrl).value;
      var list := DeleteList(ss.store, start, ss.valid);
      DeleteEntriesRemovesListed(o, ss, list);
      assert t == DeleteEntries(o, ss, list).session.store;
      forall p | p in ss.store.files && p !in t.files
        ensures Under(start, p) && p != start && !Hidden(p)
      {
        assert p in list;
        assert p in Walked(ss.store, start) && p !in ss.valid;
        assert p !in ss.store.dirs;
      }
      forall p | p in ss.store.dirs && p !in t.dirs
        ensures Under(start, p) && p != start
      {
        assert p in list;
        assert p in Walked(ss.store, start) && p !in ss.valid;
      }
      assert RemovesOnlyBelow(ss.store, t, start);
    } else {
      assert t == ss.store;
    }
  }

  /** Going from `s` to `t` removed no file and no directory of `valid`. */
  predicate KeepsValid(s: Store, t: Store, valid: set<string>)
  {
    && (forall p :: p in s.files && p in valid ==> p in t.files)
    && (forall p :: p in s.dirs && p in valid ==> p in t.dirs)
  }

  /** Cleaning up never removes a path that the dump made valid. */
  lemma DeleteUnusedFilesKeepsValid(o: Options, ss: Session, rootUrl: string)
    ensures KeepsValid(ss.store, DeleteUnusedFiles(o, ss, rootUrl).session.store, ss.valid)
  {
    if HasChildren(ss.store, rootUrl) && DeleteStart(rootUrl).Ok? {
      var list := DeleteList(ss.store, DeleteStart(rootUrl).value, ss.valid);
      DeleteEntriesRemovesListed(o, ss, list);
    }
  }

  /**
   * A dump that ends its loop without error made valid every path above
   * each dumped page's file, and its cleanup removes none of them
   * (`if path not in valid_paths`, sync.py:460-463).
   */
  lemma DumpKeepsDumpedPaths(o: Options, rootUrl: string, s: Store, answers: seq<string>)
    requires rootUrl in s.pages
    ensures var items := DumpItems(s, rootUrl);
      var dumped := DumpPages(o, Session(s, answers, multiset{}, {[]}), items, s.pages);
      var t := DumpRun(o, rootUrl, s, answers).run.session.store;
      dumped.error.None? ==>
        && LineagesValid(s, items, dumped.session.valid)
        && KeepsValid(dumped.session.store, t, dumped.session.valid)
  {
    var init := Session(s, answers, multiset{}, {[]});
    var items := DumpItems(s, rootUrl);
    var dumped := DumpPages(o, init, items, s.pages);
    DumpPagesValid(o, init, items, s.pages);
    if dumped.error.None? {
      DeleteUnusedFilesKeepsValid(o, dumped.session, rootUrl);
      assert DumpRun(o, rootUrl, s, answers).run.session.store == DeleteUnusedFiles(o, dumped.session, rootUrl).session.store;
    }
  }

  /** Whether a page has children depends only on the URLs in the table. */
  lemma HasChildrenStable(s: Store, t: Store, url: string)
    requires s.pages.Keys == t.pages.Keys
    ensures HasChildren(s, url) == HasChildren(t, url)
  {
    assert Children(s.pages.Keys, url) == Children(t.pages.Keys, url);
  }

  /**
   * A dump loop that ends without error records as valid the directory
   * that holds the file of a root page with children.
   */
  lemma DumpRecordsRootDir(o: Options, rootUrl: string, s: Store, answers: seq<string>)
    requires rootUrl in s.pages && HasChildren(s, rootUrl) && DeleteStart(rootUrl).Ok?
    ensures var dumped := DumpPages(o, Session(s, answers, multiset{}, {[]}), DumpItems(s, rootUrl), s.pages);
      dumped.error.None? ==> DeleteStart(rootUrl).value in dumped.session.valid
  {
    var init := Session(s, answers, multiset{}, {[]});
    var items := DumpItems(s, rootUrl);
    DumpPagesValid(o, init, items, s.pages);
    var path := DumperPath(s, rootUrl).value;
    DirnameInLineage(path);
  }

  /**
   * What a dump deletes: nothing unless the root page has children, and
   * then only entries below the directory holding the root's file (never
   * that directory itself), never a file whose name starts with a dot
   * (sync.py:448-463).
   */
  lemma DumpDeletesOnlyInSubtree(o: Options, rootUrl: string, s: Store, answers: seq<string>)
    requires Disjoint(s)
    ensures var t := DumpRun(o, rootUrl, s, answers).run.session.store;
      || RemovesNothing(s, t)
      || (HasChildren(s, rootUrl) && DeleteStart(rootUrl).Ok? && RemovesOnlyBelow(s, t, DeleteStart(rootUrl).value))
  {
    if rootUrl in s.pages {
      var init := Session(s, answers, multiset{}, {[]});
      var items := DumpItems(s, rootUrl);
      var dumped := DumpPages(o, init, items, s.pages);
      DumpPagesFrame(o, init, items, s.pages);
      var d := dumped.session.store;
      var t := DumpResult(o, rootUrl, s, answers);
      if dumped.error.None? {
        HasChildrenStable(s, d, rootUrl);
        if HasChildren(s, rootUrl) && DeleteStart(rootUrl).Ok? {
          DumpRecordsRootDir(o, rootUrl, s, answers);
        }
        DeleteUnusedFilesRemoves(o, dumped.session, rootUrl);
        assert t == DeleteUnusedFiles(o, dumped.session, rootUrl).session.store;
        if RemovesNothing(d, t) {
          RemovesNothingTrans(s, d, t);
        } else {
          RemovesOnlyBelowAfter(s, d, t, DeleteStart(rootUrl).value);
        }
      } else {
        assert t == d;
      }
    }
  }

  // ---------------------------------------------------------------------
  // The operation on a live website
  // ---------------------------------------------------------------------

  /**
   * `valid | lineage(path)` computed as the source does: add the path, then
   * each directory above it, until the sync directory is reached
   * (sync.py:441-444).
   */
  method AddLineage(valid: set<string>, path: string) returns (r: set<string>)
    requires IsRelative(path)
    ensures r == valid + Lineage(path)
  {
    r := valid;
    var p := path;
    while p != []
      invariant IsRelative(p)
      invariant r + Lineage(p) == valid + Lineage(path)
      decreases |p|
    {
      r := r + {p};
      p := Dirname(p);
    }
  }

  /** Collecting the entry at `i` keeps the collected prefix and the rest adding up to `Unlisted`. */
  lemma CollectStep(paths: seq<string>, valid: set<string>, i: nat, r: seq<string>)
    requires i < |paths| && r + Unlisted(paths[i..], valid) == Unlisted(paths, valid)
    ensures (r + if paths[i] in valid then [] else [paths[i]]) + Unlisted(paths[i + 1..], valid) == Unlisted(paths, valid)
  {
    var head := if paths[i] in valid then [] else [paths[i]];
    var later := Unlisted(paths[i + 1..], valid);
    assert paths[i..][0] == paths[i] && paths[i..][1..] == paths[i + 1..];
    assert Unlisted(paths[i..], valid) == head + later;
    assert r + (head + later) == (r + head) + later;
  }

  /** The entries of `paths` not in `valid`, collected in order (sync.py:455-463). */
  method CollectUnlisted(paths: seq<string>, valid: set<string>) returns (r: seq<string>)
    ensures r == Unlisted(paths, valid)
  {
    r := [];
    var i := 0;
    while i < |paths|
      invariant 0 <= i <= |paths|
      invariant r + Unlisted(paths[i..], valid) == Unlisted(paths, valid)
    {
      CollectStep(paths, valid, i, r);
      r := r + if paths[i] in valid then [] else [paths[i]];
      i := i + 1;
    }
    assert Unlisted(paths[i..], valid) == [];
    assert r + [] == r;
  }

  /**
   * `WebsiteDumpOperation` over a website and a prompter. The summary
   * counts the statuses; `staged` says whether `git add` was run.
   */
  class DumpOperation {
    const rootUrl: string
    const options: Options
    const site: Website
    const prompter: Prompter
    var summary: multiset<string>
    var staged: bool

    /** The prompter answers as the options say. */
    predicate Valid()
    {
      prompter.noInteractive == options.noInteractive
    }

    /** The state of the run, with the valid paths kept so far. */
    function Current(valid: set<string>): Session
      reads this, site, prompter
    {
      Session(site.Snapshot(), prompter.lines, summary, valid)
    }

    /** `root_url or '/'` (sync.py:304): an empty root URL means the site root. */
    constructor (rootUrl: string, options: Options, site: Website, lines: seq<string>)
      ensures Valid()
      ensures this.rootUrl == (if rootUrl == [] then "/" else rootUrl)
      ensures this.options == options && this.site == site && prompter.lines == lines
      ensures summary == multiset{} && !staged
      ensures fresh(prompter)
    {
      this.rootUrl := if rootUrl == [] then "/" else rootUrl;
      this.options := options;
      this.site := site;
      this.prompter := new Prompter(options.noInteractive, lines);
      summary := multiset{};
      staged := false;
    }

    /** Saving unless declined or dry, then recording the page (sync.py:438-445). */
    method RecordDump(url: string, page: Page, path: string, status: string, apply: bool, valid: set<string>)
      returns (err: Option<SyncError>, valid': set<string>)
      requires IsRelative(path) && path != []
      requires IsDumpStatus(status)
      modifies this, site
      ensures var r := DumpRecord(options, old(Current(valid)), url, page, path, status, apply);
        err == r.error && Current(valid') == r.session
    {
      valid' := valid;
      err := None;
      if apply && !options.dryRun {
        err := SaveDumped(site, url, path, page);
        if err.Some? {
          return;
        }
      }
      valid' := AddLineage(valid, path);
      summary := summary + multiset{status};
    }

    /** Asking unless NO_CHANGES, then saving and recording (sync.py:423-445). */
    method ApplyDump(url: string, page: Page, path: string, base: char, valid: set<string>)
      returns (err: Option<SyncError>, valid': set<string>)
      requires Valid()
      requires IsRelative(path) && path != []
      requires base in {ADDED, MODIFIED, NO_CHANGES}
      modifies this, site, prompter
      ensures var r := DumpApply(options, old(Current(valid)), url, page, path, base);
        err == r.error && Current(valid') == r.session
    {
      valid' := valid;
      var choice := true;
      if base != NO_CHANGES {
        err, choice := prompter.Ask();
        if err.Some? {
          return;
        }
      }
      var status := Mark(base, choice, false);
      assert IsDumpStatus(status);
      err, valid' := RecordDump(url, page, path, status, choice, valid);
    }

    /** One round of `dump_existing_pages` (sync.py:420-445). */
    method DumpOne(url: string, page: Page, valid: set<string>) returns (err: Option<SyncError>, valid': set<string>)
      requires Valid()
      modifies this, site, prompter
      ensures var r := DumpPage(options, old(Current(valid)), url, page);
        err == r.error && Current(valid') == r.session
    {
      var located := DumperPath(site.Snapshot(), url);
      if located.Err? {
        return Some(located.error), valid;
      }
      var compared := DumperStatus(site.Snapshot(), located.value, page);
      if compared.Err? {
        return Some(compared.error), valid;
      }
      err, valid' := ApplyDump(url, page, located.value, compared.value, valid);
    }

    /** `dump_existing_pages` (sync.py:414-446) over the given pages, in order. */
    method DumpExistingPages(items: seq<string>, pages: map<string, Page>) returns (err: Option<SyncError>, valid: set<string>)
      requires Valid()
      requires forall i :: 0 <= i < |items| ==> items[i] in pages
      modifies this, site, prompter
      ensures var r := DumpPages(options, old(Current({[]})), items, pages);
        err == r.error && Current(valid) == r.session
    {
      valid := {[]};
      err := None;
      ghost var init := Current({[]});
      var i := 0;
      while i < |items|
        invariant 0 <= i <= |items| && err.None?
        invariant DumpPages(options, Current(valid), items[i..], pages) == DumpPages(options, init, items, pages)
      {
        DumpPagesStep(options, Current(valid), items, pages, i);
        err, valid := DumpOne(items[i], pages[items[i]], valid);
        if err.Some? {
          return;
        }
        i := i + 1;
      }
      assert items[i..] == [];
    }

    /** One round of the deletion loop (sync.py:464-479). */
    method DeleteOne(path: string, valid: set<string>) returns (err: Option<SyncError>)
      requires Valid()
      modifies this, site, prompter
      ensures var r := DeleteEntry(options, old(Current(valid)), path);
        err == r.error && Current(valid) == r.session
    {
      var choice;
      err, choice := prompter.Ask();
      if err.Some? {
        return;
      }
      var status := Mark(DELETED, choice, false);
      if choice && !options.dryRun {
        err := site.Remove(path);
        if err.Some? {
          return;
        }
      }
      summary := summary + multiset{status};
    }

    /** `delete_unused_files` (sync.py:448-479). */
    method DeleteUnused(valid: set<string>) returns (err: Option<SyncError>)
      requires Valid()
      modifies this, site, prompter
      ensures var r := DeleteUnusedFiles(options, old(Current(valid)), rootUrl);
        err == r.error && Current(valid) == r.session
    {
      err := None;
      if !HasChildren(site.Snapshot(), rootUrl) {
        return;
      }
      var located := DeleteStart(rootUrl);
      if located.Err? {
        return Some(located.error);
      }
      var start := located.value;
      var list := CollectUnlisted(WalkOrder(site.Snapshot(), start), valid);
      ghost var init := Current(valid);
      assert DeleteUnusedFiles(options, init, rootUrl) == DeleteEntries(options, init, list);
      var i := 0;
      while i < |list|
        invariant 0 <= i <= |list| && err.None?
        invariant DeleteEntries(options, Current(valid), list[i..]) == DeleteEntries(options, init, list)
      {
        ghost var before := Current(valid);
        ghost var rest := list[i..];
        assert rest[0] == list[i] && rest[1..] == list[i + 1..];
        err := DeleteOne(list[i], valid);
        ghost var r := DeleteEntry(options, before, list[i]);
        assert DeleteEntries(options, before, rest) == if r.error.Some? then r else DeleteEntries(options, r.session, rest[1..]);
        if err.Some? {
          return;
        }
        i := i + 1;
      }
      assert list[i..] == [];
    }

    /** `add_to_vcs` (sync.py:481-498); the `git` call itself is not modelled. */
    method AddChangesToVcs(valid: set<string>) returns (err: Option<SyncError>)
      requires Valid()
      modifies this, prompter
      ensures var r := AddToVcs(options, old(Current(valid)));
        && site.Snapshot() == old(site.Snapshot()) && summary == old(summary)
        && (r.Ok? ==> err.None? && prompter.lines == r.value.rest && staged == r.value.choice)
        && (r.Err? ==> err == Some(r.error) && prompter.lines == old(prompter.lines) && staged == old(staged))
    {
      err := None;
      if options.gitAdd && ([DELETED] in summary || [ADDED] in summary) && !options.dryRun {
        var choice;
        err, choice := prompter.Ask();
        if err.None? {
          staged := choice;
        }
      } else {
        staged := false;
      }
    }

    /** `WebsiteDumpOperation.run()` (sync.py:500-509). */
    method Run() returns (err: Option<SyncError>)
      requires Valid()
      modifies this, site, prompter
      ensures var out := DumpRun(options, rootUrl, old(site.Snapshot()), old(prompter.lines));
        && err == out.run.error && site.Snapshot() == out.run.session.store
        && prompter.lines == out.run.session.answers && summary == out.run.session.summary
        && (err.None? ==> staged == out.staged)
    {
      summary := multiset{};
      if rootUrl !in site.pages {
        return Some(RootNotFound(rootUrl));
      }
      var s := site.Snapshot();
      var valid;
      err, valid := DumpExistingPages(DumpItems(s, rootUrl), s.pages);
      if err.Some? {
        return;
      }
      err := DeleteUnused(valid);
      if err.Some? {
        return;
      }
      err := AddChangesToVcs(valid);
    }
  }
}
