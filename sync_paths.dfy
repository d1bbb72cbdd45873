/*
 * Path codec of the synchroniser (powerpages/sync.py): the mapping between a
 * page URL and the path of its `.page` file relative to the sync directory,
 * and the POSIX path helpers the operations use (`os.path.dirname`, the
 * final component of a path, the ancestors of a path up to the sync root).
 * Paths are relative to the sync directory; "" stands for the directory itself.
 */
module SyncPaths {
  import opened Outcomes
  import opened Strings

  const INDEX_FILE_NAME := "_index_.page"
  const PAGE_EXT := ".page"

  /** `list.pop()` on an empty list. */
  datatype PathError = IndexError

  /** `[slug for slug in s.split('/') if slug]` */
  function Pieces(s: string): seq<string>
  {
    NonEmpty(Split(s, '/'))
  }

  /** A relative path: does not start at the file-system root. */
  predicate IsRelative(p: string)
  {
    p == [] || p[0] != '/'
  }

  lemma PiecesAreSegments(s: string)
    ensures forall i :: 0 <= i < |Pieces(s)| ==> Pieces(s)[i] != [] && '/' !in Pieces(s)[i]
  {
    var parts := Split(s, '/');
    forall i | 0 <= i < |Pieces(s)|
      ensures '/' !in Pieces(s)[i]
    {
      var k :| 0 <= k < |parts| && parts[k] == Pieces(s)[i];
    }
  }

  /** Joining non-empty segments gives a non-empty relative path. */
  lemma JoinSegmentsRelative(segs: seq<string>)
    requires |segs| >= 1 && segs[0] != []
    ensures var p := Join(segs, '/'); p != [] && p[0] == segs[0][0] && IsRelative(p) == (segs[0][0] != '/')
  {
  }

  /** `url_to_path(url, has_children)` (sync.py:33-45). */
  function UrlToPath(url: string, hasChildren: bool): (r: Result<string, PathError>)
    ensures r.Err? <==> url != "/" && Pieces(url) == []
    ensures r.Ok? ==> r.value != [] && IsRelative(r.value)
  {
    if url == "/" then Ok(INDEX_FILE_NAME)
    else
      PiecesAreSegments(url);
      PathOfUrlPieces(Pieces(url), hasChildren)
  }

  /** The file path that `url_to_path` builds from the URL's non-empty segments. */
  function PathOfUrlPieces(pieces: seq<string>, hasChildren: bool): (r: Result<string, PathError>)
    requires forall i :: 0 <= i < |pieces| ==> pieces[i] != []
    ensures r.Err? <==> pieces == []
    ensures r.Ok? ==> r.value != [] && IsRelative(r.value) == (pieces[0][0] != '/')
  {
    if |pieces| > 0 && hasChildren then
      JoinSegmentsRelative(pieces + [INDEX_FILE_NAME]);
      Ok(Join(pieces + [INDEX_FILE_NAME], '/'))
    else if |pieces| == 0 then Err(IndexError)
    else
      var fileName := LeafFileName(pieces[|pieces| - 1]);
      var all := pieces[..|pieces| - 1] + [fileName];
      assert all[0] == (if |pieces| == 1 then fileName else pieces[0]);
      JoinSegmentsRelative(all);
      Ok(Join(all, '/'))
  }

  /** The file name of a leaf URL segment: `.page` is appended unless it has a dot. */
  function LeafFileName(segment: string): (name: string)
    requires segment != []
    ensures '.' in name && name[0] == segment[0]
    ensures '.' !in segment ==> name == segment + PAGE_EXT
    ensures '.' in segment ==> name == segment
  {
    if '.' !in segment then
      assert (segment + PAGE_EXT)[|segment|] == '.';
      segment + PAGE_EXT
    else segment
  }

  predicate AllDots(s: string)
  {
    forall k :: 0 <= k < |s| ==> s[k] == '.'
  }

  /**
   * The stem that `os.path.splitext` leaves of a name ending in `.page`: the
   * extension is split off only when a non-dot character precedes it
   * (`splitext('..page')` splits nothing).
   */
  function PageStem(name: string): (stem: string)
    requires EndsWith(name, PAGE_EXT)
    ensures AllDots(name[..|name| - |PAGE_EXT|]) ==> stem == name
    ensures !AllDots(name[..|name| - |PAGE_EXT|]) ==> stem + PAGE_EXT == name
  {
    var stem := name[..|name| - |PAGE_EXT|];
    if AllDots(stem) then name else stem
  }

  /** `path_to_url(path)` (sync.py:48-60). */
  function PathToUrl(path: string): (r: Result<string, PathError>)
    ensures r.Err? <==> Pieces(path) == []
    ensures r.Ok? ==> r.value != [] && r.value[0] == '/'
  {
    UrlOfPathPieces(Pieces(path))
  }

  /** The URL that `path_to_url` builds from the path's non-empty components. */
  function UrlOfPathPieces(pieces: seq<string>): (r: Result<string, PathError>)
    ensures r.Err? <==> pieces == []
    ensures r.Ok? ==> r.value != [] && r.value[0] == '/'
  {
    if |pieces| == 0 then Err(IndexError)
    else Ok("/" + Join(pieces[..|pieces| - 1] + LeafUrlPieces(pieces[|pieces| - 1]), '/'))
  }

  /**
   * The URL segments that a file name contributes: "" (a trailing slash) for
   * the index file; otherwise the name without a `.page` extension, followed
   * by "" when that name has no dot.
   */
  function LeafUrlPieces(fileName: string): (r: seq<string>)
    ensures fileName == INDEX_FILE_NAME ==> r == [[]]
  {
    if fileName == INDEX_FILE_NAME then [[]]
    else
      var name := if EndsWith(fileName, PAGE_EXT) then PageStem(fileName) else fileName;
      [name] + (if '.' !in name then [[]] else [])
  }

  /** The URL "/s1/s2/.../sn/" of a directory-like page. */
  function DirectoryUrl(segs: seq<string>): string
  {
    "/" + Join(segs, '/') + "/"
  }

  /** The URL "/s1/.../sn" of a document-like page (such as "/robots.txt"). */
  function DocumentUrl(segs: seq<string>): string
  {
    "/" + Join(segs, '/')
  }

  /** Non-empty URL or path segments without a slash. */
  predicate Segments(segs: seq<string>)
  {
    |segs| >= 1 && forall i :: 0 <= i < |segs| ==> segs[i] != [] && '/' !in segs[i]
  }

  lemma DirectoryUrlPieces(segs: seq<string>)
    requires Segments(segs)
    ensures DirectoryUrl(segs) != "/"
    ensures Pieces(DirectoryUrl(segs)) == segs
  {
    var all := [[]] + segs + [[]];
    DirectoryJoin(segs);
    FramedSegments(segs);
    SplitJoin(all, '/');
    assert |DirectoryUrl(segs)| >= 2;
  }

  /** A directory URL is its segments joined between two empty pieces. */
  lemma DirectoryJoin(segs: seq<string>)
    requires |segs| >= 1
    ensures Join([[]] + segs + [[]], '/') == DirectoryUrl(segs)
  {
    JoinAppend([[]] + segs, [], '/');
    JoinPrepend([], segs, '/');
  }

  /** Segments between two empty pieces: no piece has a slash, and the non-empty ones are the segments. */
  lemma FramedSegments(segs: seq<string>)
    requires Segments(segs)
    ensures var all := [[]] + segs + [[]];
      (forall i :: 0 <= i < |all| ==> '/' !in all[i]) && NonEmpty(all) == segs
  {
    var all := [[]] + segs + [[]];
    forall i | 0 <= i < |all|
      ensures '/' !in all[i]
    {
      if 0 < i < |all| - 1 {
        assert all[i] == segs[i - 1];
      }
    }
    NonEmptyConcat([[]] + segs, [[]]);
    NonEmptyConcat([[]], segs);
    NonEmptyOfNonEmpty(segs);
  }

  lemma DocumentUrlPieces(segs: seq<string>)
    requires Segments(segs)
    ensures DocumentUrl(segs) != "/"
    ensures Pieces(DocumentUrl(segs)) == segs
  {
    var all := [[]] + segs;
    JoinPrepend([], segs, '/');
    assert Join(all, '/') == DocumentUrl(segs);
    SplitJoin(all, '/');
    NonEmptyConcat([[]], segs);
    NonEmptyOfNonEmpty(segs);
  }

  /** Pieces of a path built by joining segments are those segments. */
  lemma PathPieces(segs: seq<string>)
    requires Segments(segs)
    ensures Pieces(Join(segs, '/')) == segs
  {
    SplitJoin(segs, '/');
    NonEmptyOfNonEmpty(segs);
  }

  lemma IndexFileNameFacts()
    ensures '/' !in INDEX_FILE_NAME && '.' in INDEX_FILE_NAME
    ensures EndsWith(INDEX_FILE_NAME, PAGE_EXT)
    ensures INDEX_FILE_NAME == "_index_" + PAGE_EXT
  {
    assert INDEX_FILE_NAME[7] == '.';
  }

  lemma IndexPieces()
    ensures Pieces(INDEX_FILE_NAME) == [INDEX_FILE_NAME]
  {
    IndexFileNameFacts();
    NamePieces(INDEX_FILE_NAME);
  }

  /** A non-empty name without a slash is a path of one component. */
  lemma NamePieces(name: string)
    requires name != [] && '/' !in name
    ensures Pieces(name) == [name]
  {
    SplitNoDelim(name, '/');
    NonEmptyOfNonEmpty([name]);
  }

  /** The root URL and the root index file map to each other. */
  lemma RootRoundTrip(hasChildren: bool)
    ensures UrlToPath("/", hasChildren) == Ok(INDEX_FILE_NAME)
    ensures PathToUrl(INDEX_FILE_NAME) == Ok("/")
  {
    var p := [INDEX_FILE_NAME];
    IndexPieces();
    var u: seq<string> := [[]];
    assert p[..|p| - 1] + LeafUrlPieces(p[|p| - 1]) == u;
    assert "/" + Join(u, '/') == "/";
  }

  /**
   * A page with children lives in `<segments>/_index_.page`, and that path
   * maps back to the directory URL of the segments, whatever the original
   * URL looked like (dots, a missing trailing slash).
   */
  lemma BranchRoundTrip(url: string)
    requires url != "/" && Pieces(url) != []
    ensures UrlToPath(url, true) == Ok(Join(Pieces(url) + [INDEX_FILE_NAME], '/'))
    ensures PathToUrl(UrlToPath(url, true).value) == Ok(DirectoryUrl(Pieces(url)))
  {
    var segs := Pieces(url);
    PiecesAreSegments(url);
    IndexFileNameFacts();
    var all := segs + [INDEX_FILE_NAME];
    PathPieces(all);
    UrlOfIndexFile(segs);
  }

  /** The URL of the components of a `_index_.page` path below `segs`. */
  lemma UrlOfIndexFile(segs: seq<string>)
    requires segs != []
    ensures UrlOfPathPieces(segs + [INDEX_FILE_NAME]) == Ok(DirectoryUrl(segs))
  {
    var all := segs + [INDEX_FILE_NAME];
    assert all[|all| - 1] == INDEX_FILE_NAME && all[..|all| - 1] == segs;
    assert all[..|all| - 1] + LeafUrlPieces(all[|all| - 1]) == segs + [[]];
    JoinAppend(segs, [], '/');
    var j := Join(segs, '/');
    assert "/" + (j + ['/'] + []) == "/" + j + "/";
  }

  /** A dot-free stem with the `.page` extension reads back as a directory-like segment. */
  lemma StemFileName(stem: string)
    requires stem != [] && '.' !in stem && '/' !in stem && stem != "_index_"
    ensures var name := stem + PAGE_EXT;
            '/' !in name && LeafFileName(stem) == name && LeafUrlPieces(name) == [stem, []]
  {
    var name := stem + PAGE_EXT;
    assert name[|stem|] == '.';
    assert '/' !in PAGE_EXT;
    IndexFileNameFacts();
    assert name != INDEX_FILE_NAME;
    assert EndsWith(name, PAGE_EXT);
    assert name[..|name| - |PAGE_EXT|] == stem;
    assert !AllDots(stem) by {
      assert stem[0] != '.';
    }
  }

  /** The file of a leaf page with a dot-free last segment gets the `.page` extension. */
  lemma LeafPath(segs: seq<string>)
    requires Segments(segs)
    requires '.' !in segs[|segs| - 1] && segs[|segs| - 1] != "_index_"
    ensures PathOfUrlPieces(segs, false) == Ok(Join(segs[..|segs| - 1] + [segs[|segs| - 1] + PAGE_EXT], '/'))
  {
    StemFileName(segs[|segs| - 1]);
  }

  /** The file "d1/.../dk/<stem>.page" reads back as the URL "/d1/.../dk/<stem>/". */
  lemma LeafUrl(dirs: seq<string>, stem: string)
    requires Segments(dirs + [stem])
    requires '.' !in stem && stem != "_index_"
    ensures PathToUrl(Join(dirs + [stem + PAGE_EXT], '/')) == Ok(DirectoryUrl(dirs + [stem]))
  {
    assert stem == (dirs + [stem])[|dirs|];
    StemFileName(stem);
    RenamedLastSegment(dirs, stem, stem + PAGE_EXT);
    PathPieces(dirs + [stem + PAGE_EXT]);
    UrlOfStemFile(dirs, stem);
  }

  /** Replacing the last segment by another non-empty name without a slash keeps the segments valid. */
  lemma RenamedLastSegment(dirs: seq<string>, last: string, name: string)
    requires Segments(dirs + [last])
    requires name != [] && '/' !in name
    ensures Segments(dirs + [name])
  {
    assert forall i :: 0 <= i < |dirs| ==> dirs[i] == (dirs + [last])[i];
  }

  /** The URL of the components of a `<stem>.page` path below `dirs`. */
  lemma UrlOfStemFile(dirs: seq<string>, stem: string)
    requires LeafUrlPieces(stem + PAGE_EXT) == [stem, []]
    ensures UrlOfPathPieces(dirs + [stem + PAGE_EXT]) == Ok(DirectoryUrl(dirs + [stem]))
  {
    var all := dirs + [stem + PAGE_EXT];
    assert all[..|all| - 1] == dirs && all[|all| - 1] == stem + PAGE_EXT;
    assert dirs + [stem, []] == (dirs + [stem]) + [[]];
    JoinAppend(dirs + [stem], [], '/');
    var j := Join(dirs + [stem], '/');
    assert "/" + (j + ['/'] + []) == "/" + j + "/";
  }

  /**
   * A leaf page whose URL is "/s1/.../sn/" with a dot-free last segment maps
   * to "s1/.../sn.page" and back to the same URL; "_index_" is excluded
   * because "_index_.page" is the index file name.
   */
  lemma LeafRoundTrip(segs: seq<string>)
    requires Segments(segs)
    requires '.' !in segs[|segs| - 1] && segs[|segs| - 1] != "_index_"
    ensures UrlToPath(DirectoryUrl(segs), false)
         == Ok(Join(segs[..|segs| - 1] + [segs[|segs| - 1] + PAGE_EXT], '/'))
    ensures PathToUrl(UrlToPath(DirectoryUrl(segs), false).value) == Ok(DirectoryUrl(segs))
  {
    DirectoryUrlPieces(segs);
    LeafPath(segs);
    var dirs := segs[..|segs| - 1];
    assert dirs + [segs[|segs| - 1]] == segs;
    LeafUrl(dirs, segs[|segs| - 1]);
  }

  /** A URL whose last segment has a dot is stored under that literal name. */
  lemma DocumentPath(segs: seq<string>)
    requires Segments(segs)
    requires '.' in segs[|segs| - 1]
    ensures UrlToPath(DocumentUrl(segs), false) == Ok(Join(segs, '/'))
  {
    DocumentUrlPieces(segs);
    DottedLeafPath(segs);
  }

  /** Segments whose last one has a dot are joined as they are. */
  lemma DottedLeafPath(segs: seq<string>)
    requires |segs| >= 1 && forall i :: 0 <= i < |segs| ==> segs[i] != []
    requires '.' in segs[|segs| - 1]
    ensures PathOfUrlPieces(segs, false) == Ok(Join(segs, '/'))
  {
    var n := |segs|;
    LeafBranch(segs);
    assert LeafFileName(segs[n - 1]) == segs[n - 1];
    LastElementSplit(segs);
  }

  /** Without children, the last segment is replaced by its file name. */
  lemma LeafBranch(segs: seq<string>)
    requires |segs| >= 1 && forall i :: 0 <= i < |segs| ==> segs[i] != []
    ensures PathOfUrlPieces(segs, false) == Ok(Join(segs[..|segs| - 1] + [LeafFileName(segs[|segs| - 1])], '/'))
  {
  }

  lemma LastElementSplit(segs: seq<string>)
    requires |segs| >= 1
    ensures segs[..|segs| - 1] + [segs[|segs| - 1]] == segs
  {
  }

  /**
   * A document URL "/d1/.../name.ext" whose last segment has a dot (and does
   * not end in ".page") is stored under that literal name and maps back.
   */
  lemma DocumentRoundTrip(segs: seq<string>)
    requires Segments(segs)
    requires '.' in segs[|segs| - 1] && !EndsWith(segs[|segs| - 1], PAGE_EXT)
    ensures UrlToPath(DocumentUrl(segs), false) == Ok(Join(segs, '/'))
    ensures PathToUrl(Join(segs, '/')) == Ok(DocumentUrl(segs))
  {
    DocumentPath(segs);
    PathPieces(segs);
    DocumentUrlOfPieces(segs);
  }

  /** The URL of the components of a document path is the document URL. */
  lemma DocumentUrlOfPieces(segs: seq<string>)
    requires segs != []
    requires '.' in segs[|segs| - 1] && !EndsWith(segs[|segs| - 1], PAGE_EXT)
    ensures UrlOfPathPieces(segs) == Ok(DocumentUrl(segs))
  {
    var last := segs[|segs| - 1];
    DottedLeafUrlPieces(last);
    assert segs[..|segs| - 1] + [last] == segs;
  }

  /** A dotted file name that is not a `.page` file is a URL segment as it is. */
  lemma DottedLeafUrlPieces(name: string)
    requires '.' in name && !EndsWith(name, PAGE_EXT)
    ensures LeafUrlPieces(name) == [name]
  {
    IndexFileNameFacts();
    assert name != INDEX_FILE_NAME;
  }

  /** Two different URLs share one file: "/_index_/" (a leaf) and "/" (the root). */
  lemma IndexSegmentCollides()
    ensures UrlToPath(DirectoryUrl(["_index_"]), false) == UrlToPath("/", false) == Ok(INDEX_FILE_NAME)
  {
    var segs := ["_index_"];
    DirectoryUrlPieces(segs);
    IndexFileNameFacts();
    assert '.' !in segs[0];
    assert Join([INDEX_FILE_NAME], '/') == INDEX_FILE_NAME;
    assert PathOfUrlPieces(segs, false) == Ok(Join([] + [segs[0] + PAGE_EXT], '/'));
  }

  /**
   * A document-like URL "/<stem>.page" is written to the file "<stem>.page",
   * which reads back as the directory-like URL "/<stem>/": the two URLs collide.
   */
  lemma PageSuffixedDocumentCollides(stem: string)
    requires stem != [] && '.' !in stem && '/' !in stem && stem != "_index_"
    ensures UrlToPath(DocumentUrl([stem + PAGE_EXT]), false) == Ok(stem + PAGE_EXT)
    ensures PathToUrl(stem + PAGE_EXT) == Ok(DirectoryUrl([stem]))
  {
    StemFileName(stem);
    DocumentPath([stem + PAGE_EXT]);
    LeafUrl([], stem);
    assert [] + [stem + PAGE_EXT] == [stem + PAGE_EXT] && [] + [stem] == [stem];
  }

  // ---------------------------------------------------------------------
  // POSIX path helpers
  // ---------------------------------------------------------------------

  /** `s.rstrip('/')` */
  function TrimSlashes(s: string): (r: string)
    ensures |r| <= |s| && r == s[..|r|]
    ensures forall k :: |r| <= k < |s| ==> s[k] == '/'
  {
    if |s| > 0 && s[|s| - 1] == '/' then TrimSlashes(s[..|s| - 1]) else s
  }

  predicate AllSlashes(s: string)
  {
    forall k :: 0 <= k < |s| ==> s[k] == '/'
  }

  /** `os.path.dirname(p)` (POSIX). */
  function Dirname(p: string): (r: string)
    ensures IsRelative(p) && p != [] ==> |r| < |p| && IsRelative(r) && r == p[..|r|]
  {
    match LastIndex(p, '/')
    case None => []
    case Some(i) =>
      var head := p[..i + 1];
      if AllSlashes(head) then head
      else
        var r := TrimSlashes(head);
        assert IsRelative(p) ==> r != [] && r[0] == p[0] by {
          if IsRelative(p) && p != [] {
            assert head[0] == p[0] != '/';
            assert r != [];
          }
        }
        r
  }

  /** The last component of a path (the `file_name` that `os.walk` reports). */
  function BaseName(p: string): (r: string)
    ensures '/' !in r
  {
    match LastIndex(p, '/')
    case None => p
    case Some(i) => p[i + 1..]
  }

  /**
   * The ancestors of a relative path that the dump keeps: the path itself and
   * every directory above it, stopping at the sync directory ("").
   */
  function Lineage(p: string): (r: set<string>)
    requires IsRelative(p)
    ensures [] !in r
    ensures p != [] ==> p in r
    ensures forall q :: q in r ==> IsRelative(q) && StartsWith(p, q)
    decreases |p|
  {
    if p == [] then {} else {p} + Lineage(Dirname(p))
  }
}
