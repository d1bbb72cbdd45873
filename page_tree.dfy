/*
 * The URL hierarchy of pages (powerpages/models.py:66, 123-149).
 * Pages are identified by their URL; the page table is seen here as the
 * set of URLs it holds.
 */
module PageTree {
  import opened Outcomes
  import opened Strings

  /** `url` with one trailing slash removed, if it has one. */
  function DropTrailingSlash(url: string): (u: string)
    ensures u == url || (u + "/" == url)
  {
    if url != [] && url[|url| - 1] == '/' then url[..|url| - 1] else url
  }

  /** `url.rsplit('/', 1)[0]`: everything before the last slash, or all of it. */
  function BeforeLastSlash(u: string): (head: string)
    ensures '/' !in u ==> head == u
    ensures '/' in u ==> |head| < |u| && u[..|head| + 1] == head + "/" && '/' !in u[|head| + 1..]
  {
    match LastIndex(u, '/')
    case None => u
    case Some(k) => assert u[..k + 1] == u[..k] + "/"; u[..k]
  }

  /** `Page.parent_url()` (models.py:123-129); `''` means "no parent". */
  function ParentUrl(url: string): (r: string)
    ensures r == [] || r[|r| - 1] == '/'
  {
    var p := BeforeLastSlash(DropTrailingSlash(url)) + "/";
    if url != p then p else []
  }

  /** A URL in the form the site uses: it starts with a slash. */
  predicate Absolute(url: string)
  {
    url != [] && url[0] == '/'
  }

  /** One path segment: non-empty and slash-free. */
  predicate IsSegment(s: string)
  {
    s != [] && '/' !in s
  }

  /**
   * `url` matches `^{parent}[^/]+/?$`, the filter of `Page.children()`
   * (models.py:141-144), with `parent` read literally.
   */
  predicate IsChild(parent: string, url: string)
  {
    && StartsWith(url, parent)
    && var rest := url[|parent|..];
       IsSegment(rest) || (rest != [] && rest[|rest| - 1] == '/' && IsSegment(rest[..|rest| - 1]))
  }

  /** `url__startswith=parent` excluding `url=parent` (models.py:146-149). */
  predicate IsDescendant(parent: string, url: string)
  {
    StartsWith(url, parent) && url != parent
  }

  /** The URLs of `Page.children()` among the `urls` held in the table. */
  function Children(urls: set<string>, parent: string): (r: set<string>)
    ensures forall u :: u in r <==> u in urls && IsChild(parent, u)
  {
    set u | u in urls && IsChild(parent, u)
  }

  /** The URLs of `Page.descendants()` among `urls`. */
  function Descendants(urls: set<string>, parent: string): (r: set<string>)
    ensures forall u :: u in r <==> u in urls && IsDescendant(parent, u)
    ensures parent !in r
  {
    set u | u in urls && IsDescendant(parent, u)
  }

  /** `Page.parent()` (models.py:131-139): the page at exactly `parent_url`, if any. */
  function Parent(urls: set<string>, url: string): (r: Option<string>)
    ensures r.Some? <==> ParentUrl(url) != [] && ParentUrl(url) in urls
    ensures r.Some? ==> r.value == ParentUrl(url)
  {
    var p := ParentUrl(url);
    if p != [] && p in urls then Some(p) else None
  }

  /** Query results in the model's default ordering (`ordering = ('url',)`). */
  function OrderedByUrl(urls: set<string>): (r: seq<string>)
    ensures StrictlySorted(r)
    ensures forall u :: u in r <==> u in urls
  {
    Sorted(urls)
  }

  /** The site root has no parent. */
  lemma RootHasNoParent()
    ensures ParentUrl("/") == []
  {
    assert DropTrailingSlash("/") == [];
  }

  /** A URL ending in a slash: the parent is the URL cut after the slash before the last segment. */
  lemma ParentOfDirectory(p: string, seg: string)
    requires IsSegment(seg) && p != [] && p[|p| - 1] == '/'
    ensures ParentUrl(p + seg + "/") == p
  {
    var url := p + seg + "/";
    assert DropTrailingSlash(url) == p + seg;
    LastSlashBeforeSegment(p, seg);
  }

  /** A URL without a trailing slash: the parent is the URL up to its last slash. */
  lemma ParentOfDocument(p: string, seg: string)
    requires IsSegment(seg) && p != [] && p[|p| - 1] == '/'
    ensures ParentUrl(p + seg) == p
  {
    assert DropTrailingSlash(p + seg) == p + seg;
    LastSlashBeforeSegment(p, seg);
  }

  lemma LastSlashBeforeSegment(p: string, seg: string)
    requires IsSegment(seg) && p != [] && p[|p| - 1] == '/'
    ensures BeforeLastSlash(p + seg) + "/" == p
  {
    var u := p + seg;
    assert u[|p| - 1] == '/';
    assert '/' in u;
    var head := BeforeLastSlash(u);
    assert u[..|head| + 1] == p;
  }

  /** `parent_url` undoes `children`: every child names its parent URL. */
  lemma ChildParent(parent: string, url: string)
    requires Absolute(parent) && parent[|parent| - 1] == '/'
    requires IsChild(parent, url)
    ensures ParentUrl(url) == parent
  {
    var rest := url[|parent|..];
    assert url == parent + rest;
    if IsSegment(rest) {
      ParentOfDocument(parent, rest);
    } else {
      var seg := rest[..|rest| - 1];
      assert rest == seg + "/";
      assert url == parent + seg + "/";
      ParentOfDirectory(parent, seg);
    }
  }

  /** Every child is a descendant. */
  lemma ChildIsDescendant(parent: string, url: string)
    requires IsChild(parent, url)
    ensures IsDescendant(parent, url)
  {
    assert url[|parent|..] != [];
  }

  /** A page is never its own child. */
  lemma NotOwnChild(url: string)
    ensures !IsChild(url, url)
  {
    assert url[|url|..] == [];
  }

  /** A grandchild under a slash-terminated child is not a child. */
  lemma GrandchildNotChild(a: string, b: string, c: string)
    requires IsChild(a, b) && IsChild(b, c) && b[|b| - 1] == '/'
    ensures !IsChild(a, c)
  {
    var rb := b[|a|..];
    var rc := c[|a|..];
    assert c[..|b|] == b;
    assert rc[|rb| - 1] == b[|b| - 1] == '/';
    var tail := c[|b|..];
    assert tail != [] && tail[0] != '/';
    assert rc[|rb|] == tail[0];
    assert |rb| < |rc|;
    assert !IsSegment(rc) by {
      assert rc[|rb| - 1] == '/';
    }
    if rc[|rc| - 1] == '/' {
      assert rc[..|rc| - 1][|rb| - 1] == '/';
    }
  }
}
