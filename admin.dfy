/*
 * The page admin's list columns and save hook (powerpages/admin.py): the
 * link to a page on the website with its last path segment in bold, the
 * synchronisation status shown next to each page, and the flag that marks
 * a page as edited in the admin.
 */
module Admin {
  import opened Outcomes
  import opened Strings
  import opened SyncStatus
  import opened SyncStore
  import opened SyncPages
  import opened SyncLoad
  import opened SyncBase

  // ---------------------------------------------------------------------
  // website_link
  // ---------------------------------------------------------------------

  /** A URL segment in bold. */
  function Bold(part: string): string
  {
    "<span style=\"font-weight: bold\">" + part + "</span>"
  }

  /** The segments with the last non-empty one of the final two in bold. */
  function StyledParts(parts: seq<string>): seq<string>
    requires |parts| >= 2
  {
    var n := |parts|;
    if parts[n - 1] != [] then parts[n - 1 := Bold(parts[n - 1])]
    else if parts[n - 2] != [] then parts[n - 2 := Bold(parts[n - 2])]
    else parts
  }

  /** The visible URL: unstyled when it has no `/`, else re-joined from the styled segments. */
  function StyledUrl(url: string): string
  {
    var parts := Split(url, '/');
    if |parts| <= 1 then url else Join(StyledParts(parts), '/')
  }

  /** The anchor: the raw URL as the target, the styled URL and ` &raquo;` as the text. */
  function LinkHtml(url: string): (html: string)
    ensures StartsWith(html, "<a href=\"" + url + "\"")
    ensures EndsWith(html, StyledUrl(url) + " &raquo;</a>")
  {
    var head := "<a href=\"" + url + "\"";
    var tail := StyledUrl(url) + " &raquo;</a>";
    var html := head + (" style=\"font-weight: normal;\">" + tail);
    ConcatEnds(head, " style=\"font-weight: normal;\">" + tail);
    ConcatEnds(" style=\"font-weight: normal;\">", tail);
    html
  }

  /** The column's value for a page with URL `url`, or for no page. */
  function WebsiteLinkOf(url: Option<string>): Option<string>
  {
    if url.None? then None else Some(LinkHtml(url.value))
  }

  /**
   * `website_link`: split the URL, then look at the last and the
   * second-to-last segment in turn and bold the first non-empty one.
   */
  method WebsiteLink(url: Option<string>) returns (link: Option<string>)
    ensures link == WebsiteLinkOf(url)
  {
    if url.None? {
      return None;
    }
    var u := url.value;
    var parts := Split(u, '/');
    var styled: string;
    if |parts| <= 1 {
      styled := u;
    } else {
      var boldened := BoldLastSegment(parts);
      styled := Join(boldened, '/');
    }
    assert styled == StyledUrl(u);
    link := Some("<a href=\"" + u + "\"" + (" style=\"font-weight: normal;\">" + (styled + " &raquo;</a>")));
  }

  /** The loop over the last two segments that bolds the first non-empty one. */
  method BoldLastSegment(original: seq<string>) returns (parts: seq<string>)
    requires |original| >= 2
    ensures parts == StyledParts(original)
  {
    parts := original;
    var k := 1;
    while k <= 2
      invariant 1 <= k <= 3
      invariant parts == original
      invariant k >= 2 ==> original[|original| - 1] == []
      invariant k >= 3 ==> original[|original| - 2] == []
    {
      var i := |parts| - k;
      if parts[i] != [] {
        parts := parts[i := Bold(parts[i])];
        return;
      }
      k := k + 1;
    }
  }

  /** A page URL with a final segment: that segment, and nothing else, is shown in bold. */
  lemma LastSegmentInBold(prefix: string, segment: string)
    requires segment != [] && '/' !in segment
    ensures StyledUrl(prefix + "/" + segment) == prefix + "/" + Bold(segment)
  {
    SplitAt(prefix, segment, '/');
    SplitNoDelim(segment, '/');
    var p := Split(prefix, '/');
    var parts := p + [segment];
    assert Split(prefix + "/" + segment, '/') == parts;
    assert StyledParts(parts) == p + [Bold(segment)];
    JoinAppend(p, Bold(segment), '/');
    JoinSplit(prefix, '/');
  }

  /** A slash-terminated page URL (the usual form): its last segment is shown in bold. */
  lemma DirectorySegmentInBold(prefix: string, segment: string)
    requires segment != [] && '/' !in segment
    ensures StyledUrl(prefix + "/" + segment + "/") == prefix + "/" + Bold(segment) + "/"
  {
    var rest := segment + "/";
    assert prefix + "/" + segment + "/" == prefix + "/" + rest;
    SplitAt(segment, [], '/');
    assert segment + "/" + [] == rest;
    SplitNoDelim(segment, '/');
    assert Split([], '/') == [[]];
    assert Split(rest, '/') == [segment, []];
    SplitAt(prefix, rest, '/');
    var p := Split(prefix, '/');
    var parts := p + [segment, []];
    assert Split(prefix + "/" + rest, '/') == parts;
    assert StyledParts(parts) == p + [Bold(segment), []];
    assert p + [Bold(segment), []] == (p + [Bold(segment)]) + [[]];
    JoinAppend(p + [Bold(segment)], [], '/');
    JoinAppend(p, Bold(segment), '/');
    JoinSplit(prefix, '/');
  }

  /** A URL without any non-empty final segment (such as `/`) is shown as it is. */
  lemma RootUrlUnstyled(prefix: string)
    ensures StyledUrl(prefix + "//") == prefix + "//"
    ensures StyledUrl("/") == "/"
  {
    SplitAt(prefix, "/", '/');
    SplitAt([], [], '/');
    assert [] + "/" + [] == "/";
    assert Split([], '/') == [[]];
    assert prefix + "//" == prefix + "/" + "/";
    JoinSplit(prefix + "//", '/');
    JoinSplit("/", '/');
  }

  /** A URL with no `/` at all is shown as it is. */
  lemma SlashlessUrlUnstyled(url: string)
    requires '/' !in url
    ensures StyledUrl(url) == url
  {
    SplitNoDelim(url, '/');
  }

  // ---------------------------------------------------------------------
  // sync_status
  // ---------------------------------------------------------------------

  /** The marker shown first for a page edited in the admin since the last synchronisation. */
  const DirtyPart: string := "<span style=\"color:black; font-weight:bold\">Changed in Admin!</span>"

  /** The colour and the text shown for a dump status. */
  function StatusLabel(status: char): (string, string)
  {
    if status == NO_CHANGES then ("green", "File is synced")
    else if status == MODIFIED then ("orange", "File content differs")
    else if status == ADDED then ("red", "File is missing")
    else ("black", "?")
  }

  /** The coloured span for a dump status. */
  function StatusSpan(status: char): string
  {
    "<span style=\"color: " + StatusLabel(status).0 + "\">" + StatusLabel(status).1 + "</span>"
  }

  /** `sep.join(parts)` for a string separator. */
  function JoinWith(parts: seq<string>, sep: string): string
  {
    if |parts| == 0 then []
    else if |parts| == 1 then parts[0]
    else parts[0] + sep + JoinWith(parts[1..], sep)
  }

  /** The status cell: the dirty marker when the page is dirty, then the status span. */
  function StatusHtml(isDirty: bool, status: char): string
  {
    JoinWith((if isDirty then [DirtyPart] else []) + [StatusSpan(status)], "<br>")
  }

  /** `sync_status` from the page's dump status: the parts collected in order and joined. */
  method SyncStatusHtml(isDirty: bool, status: char) returns (html: string)
    ensures html == StatusHtml(isDirty, status)
  {
    var parts: seq<string> := [];
    if isDirty {
      parts := parts + [DirtyPart];
    }
    var color, text;
    if status == NO_CHANGES {
      text, color := "File is synced", "green";
    } else if status == MODIFIED {
      text, color := "File content differs", "orange";
    } else if status == ADDED {
      text, color := "File is missing", "red";
    } else {
      text, color := "?", "black";
    }
    parts := parts + ["<span style=\"color: " + color + "\">" + text + "</span>"];
    html := JoinWith(parts, "<br>");
  }

  /** The cell shows the dirty marker and a line break first exactly when the page is dirty. */
  lemma StatusHtmlShape(isDirty: bool, status: char)
    ensures isDirty ==> StatusHtml(isDirty, status) == DirtyPart + "<br>" + StatusSpan(status)
    ensures !isDirty ==> StatusHtml(isDirty, status) == StatusSpan(status)
  {
    var parts := (if isDirty then [DirtyPart] else []) + [StatusSpan(status)];
    if isDirty {
      assert parts == [DirtyPart, StatusSpan(status)];
      assert parts[1..] == [StatusSpan(status)];
      assert JoinWith(parts, "<br>") == DirtyPart + "<br>" + JoinWith(parts[1..], "<br>");
    } else {
      assert parts == [StatusSpan(status)];
    }
  }

  /**
   * The admin's status column for the page stored under `url` (None when
   * there is no page): the dumper's status of the page's file, which can
   * fail like the dumper does.
   */
  function SyncStatusOf(s: Store, url: Option<string>): (r: Result<Option<string>, SyncError>)
    requires url.Some? ==> url.value in s.pages
    ensures url.None? ==> r == Ok(None)
    ensures r.Ok? && url.Some? ==> r.value.Some?
  {
    if url.None? then Ok(None)
    else
      var page := s.pages[url.value];
      var path :- DumperPath(s, url.value);
      var status :- DumperStatus(s, path, page);
      Ok(Some(StatusHtml(page.isDirty, status)))
  }

  /** A page whose file is missing is shown in red as `File is missing`. */
  lemma MissingFileShownRed(s: Store, url: string)
    requires url in s.pages && DumperPath(s, url).Ok? && !Exists(s, DumperPath(s, url).value)
    ensures SyncStatusOf(s, Some(url)) == Ok(Some(StatusHtml(s.pages[url].isDirty, ADDED)))
    ensures StatusLabel(ADDED) == ("red", "File is missing")
  {
  }

  /**
   * Right after a successful dump of a page, the admin shows it synced,
   * in green, without the dirty marker.
   */
  lemma SyncedAfterDump(s: Store, url: string)
    requires url in s.pages && DumperPath(s, url).Ok?
    requires DumperSave(s, url, DumperPath(s, url).value, s.pages[url]).error.None?
    ensures var t := DumperSave(s, url, DumperPath(s, url).value, s.pages[url]).store;
      url in t.pages && SyncStatusOf(t, Some(url)) == Ok(Some(StatusSpan(NO_CHANGES)))
  {
    var page := s.pages[url];
    var path := DumperPath(s, url).value;
    var t := DumperSave(s, url, path, page).store;
    DumperStatusAfterSave(s, url, page);
    assert t.pages[url] == page.(isDirty := false);
    assert PageFields(t.pages[url]) == PageFields(page);
    assert DumperStatus(t, path, t.pages[url]) == DumperStatus(t, path, page);
    StatusHtmlShape(false, NO_CHANGES);
  }

  // ---------------------------------------------------------------------
  // save_page
  // ---------------------------------------------------------------------

  /**
   * The page table after `save_page`: the page's row, which held the URL
   * `previous` before the edit (None for a page the admin creates), now
   * holds the page under `url` with its dirty flag set.  A URL change
   * therefore leaves nothing under the old URL.
   */
  function AdminSaved(pages: map<string, Page>, previous: Option<string>, url: string, page: Page): (r: map<string, Page>)
    ensures url in r && r[url] == page.(isDirty := true)
    ensures forall u :: u != url ==> (u in r <==> u in pages && previous != Some(u))
    ensures forall u :: u in r && u != url ==> r[u] == pages[u]
  {
    var kept := if previous.Some? then pages - {previous.value} else pages;
    kept[url := page.(isDirty := true)]
  }

  /** `save_page`: the page is flagged as edited in the admin, then its row is stored. */
  method SavePage(site: Website, previous: Option<string>, url: string, page: Page)
    modifies site
    ensures site.Snapshot() == old(site.Snapshot()).(pages := AdminSaved(old(site.pages), previous, url, page))
  {
    if previous.Some? {
      site.DeletePage(previous.value);
    }
    var edited := page.(isDirty := true);
    site.PutPage(url, edited);
  }

  /**
   * A page saved in the admin survives a load without `--force`: its
   * content stays what the admin saved (so long as no two files map to
   * the same URL).
   */
  lemma AdminEditSurvivesLoad(o: Options, rootUrl: string, s: Store, answers: seq<string>, previous: Option<string>, url: string, page: Page)
    requires !o.force
    requires var t := s.(pages := AdminSaved(s.pages, previous, url, page));
      PageLoaders(t, rootUrl).Ok? ==> DistinctUrls(PageLoaders(t, rootUrl).value)
    ensures var t := s.(pages := AdminSaved(s.pages, previous, url, page));
      var after := LoadRun(o, rootUrl, t, answers).session.store;
      url in after.pages && PageFields(after.pages[url]) == PageFields(page)
  {
    var t := s.(pages := AdminSaved(s.pages, previous, url, page));
    LoadKeepsDirtyPages(o, rootUrl, t, answers, url);
  }
}
