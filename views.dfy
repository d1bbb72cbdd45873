/*
 * The public page view and the staff edit-mode switch
 * (powerpages/views.py): how a requested path is canonicalised and
 * answered, and how the session's edit-mode flag is flipped.
 */
module Views {
  import opened Outcomes
  import opened Strings

  /** What the page view answers. */
  datatype Response =
    | PermanentRedirect(location: string)  // 301 to the slash-terminated path
    | Serve(url: string)                    // the page stored under `url` is rendered
    | NotFound                              // 404

  /** The request path with a `/` prepended when it lacks one. */
  function Rooted(path: string): (r: string)
    ensures StartsWith(r, "/")
    ensures EndsWith(r, path) && |r| <= |path| + 1
  {
    if StartsWith(path, "/") then path else "/" + path
  }

  /** The part of `p` after its last `/`. */
  function LastSegment(p: string): string
  {
    var parts := Split(p, '/');
    parts[|parts| - 1]
  }

  /** A path that names a directory-like page but lacks the closing slash. */
  predicate NeedsSlash(p: string)
  {
    !EndsWith(p, "/") && '.' !in LastSegment(p)
  }

  /**
   * The page view: canonicalise, redirect to the slash-terminated form when
   * the path is not a file name, else serve the page stored under exactly
   * that URL, or 404.
   */
  function PageView(path: string, urls: set<string>): Response
  {
    var p := Rooted(path);
    if NeedsSlash(p) then PermanentRedirect(p + "/")
    else if p in urls then Serve(p)
    else NotFound
  }

  /** Prepending the slash to an already rooted path changes nothing. */
  lemma RootedIdempotent(path: string)
    ensures Rooted(Rooted(path)) == Rooted(path)
  {
  }

  /**
   * The three answers of the view, each characterised by the canonical
   * path: a redirect exactly when the slash is missing, a page exactly when
   * the canonical path is stored, a 404 otherwise.
   */
  lemma PageViewAnswers(path: string, urls: set<string>)
    ensures PageView(path, urls).PermanentRedirect? <==> NeedsSlash(Rooted(path))
    ensures PageView(path, urls).PermanentRedirect? ==> PageView(path, urls).location == Rooted(path) + "/"
    ensures PageView(path, urls).Serve? <==> !NeedsSlash(Rooted(path)) && Rooted(path) in urls
    ensures PageView(path, urls).Serve? ==> PageView(path, urls).url == Rooted(path)
  {
  }

  /** A path ending with a slash never needs one. */
  lemma SlashEndedNeedsNone(p: string)
    requires p != []
    ensures !NeedsSlash(p + "/")
  {
    var q := p + "/";
    assert q[|q| - 1..] == "/";
  }

  /** Following the redirect never redirects again: the view answers the target with a page or a 404. */
  lemma RedirectSettles(path: string, urls: set<string>)
    requires PageView(path, urls).PermanentRedirect?
    ensures !PageView(PageView(path, urls).location, urls).PermanentRedirect?
  {
    var loc := Rooted(path) + "/";
    assert StartsWith(loc, "/") by {
      assert loc[..1] == Rooted(path)[..1];
    }
    assert Rooted(loc) == loc;
    SlashEndedNeedsNone(Rooted(path));
  }

  /** A file name in the last segment is looked up as it is, without a redirect. */
  lemma FileNamesServedAsIs(path: string, urls: set<string>)
    requires '.' in LastSegment(Rooted(path))
    ensures PageView(path, urls) == (if Rooted(path) in urls then Serve(Rooted(path)) else NotFound)
  {
  }

  // ---------------------------------------------------------------------
  // The edit-mode switch
  // ---------------------------------------------------------------------

  /** The session key that switches edit mode on. */
  const EditModeKey: string := "WEBSITE_EDIT_MODE"

  /** A value stored in a session (the model keeps booleans and strings). */
  datatype SessionValue = Flag(b: bool) | Text(s: string)

  /** The session after the switch: the key removed when present, set to True when absent. */
  function Toggled(m: map<string, SessionValue>): (r: map<string, SessionValue>)
    ensures EditModeKey in r <==> EditModeKey !in m
    ensures EditModeKey in r ==> r[EditModeKey] == Flag(true)
    ensures forall k :: k in m && k != EditModeKey ==> k in r && r[k] == m[k]
    ensures forall k :: k in r && k != EditModeKey ==> k in m
  {
    if EditModeKey in m then m - {EditModeKey} else m[EditModeKey := Flag(true)]
  }

  /**
   * Where the switch sends the user: the referrer, unless it is missing,
   * empty or the switch's own path, in which case the site root.
   */
  function SwitchTarget(referrer: Option<string>, pathInfo: string): (r: string)
    ensures r == "/" || (referrer == Some(r) && r != pathInfo && r != "")
    ensures referrer.Some? && referrer.value != pathInfo && referrer.value != "" ==> r == referrer.value
  {
    var ref := if referrer == Some(pathInfo) then None else referrer;
    if ref.None? || ref.value == "" then "/" else ref.value
  }

  /** Switching twice restores whether edit mode is on, and every other entry. */
  lemma ToggledTwice(m: map<string, SessionValue>)
    ensures EditModeKey in Toggled(Toggled(m)) <==> EditModeKey in m
    ensures forall k :: k != EditModeKey ==> (k in Toggled(Toggled(m)) <==> k in m)
    ensures forall k :: k in m && k != EditModeKey ==> Toggled(Toggled(m))[k] == m[k]
  {
  }

  /** A request's session store, which the switch changes in place. */
  class RequestSession {
    var data: map<string, SessionValue>

    constructor(data: map<string, SessionValue>)
      ensures this.data == data
    {
      this.data := data;
    }
  }

  /** `admin_switch_edit_mode`: flip the flag in the session and pick the redirect target. */
  method SwitchEditMode(session: RequestSession, referrer: Option<string>, pathInfo: string)
    returns (location: string)
    modifies session
    ensures session.data == Toggled(old(session.data))
    ensures location == SwitchTarget(referrer, pathInfo)
  {
    if EditModeKey in session.data {
      session.data := session.data - {EditModeKey};
    } else {
      session.data := session.data[EditModeKey := Flag(true)];
    }
    var ref := referrer;
    if ref == Some(pathInfo) {
      ref := None;
    }
    location := if ref.None? || ref.value == "" then "/" else ref.value;
  }
}
