/*
 * Page-field normalisation of the synchroniser (powerpages/sync.py:73-101).
 * Both sides of a synchronisation (a page row and a `.page` file) are
 * brought to this canonical form before they are compared or written.
 */
module SyncFields {
  import opened Outcomes
  import opened Strings

  /**
   * The seven page fields as they come out of a page row or a parsed file;
   * any of them may be missing (`data.get(...)` gives None).
   */
  datatype RawFields = RawFields(
    alias: Option<string>,
    title: Option<string>,
    description: Option<string>,
    keywords: Option<string>,
    template: Option<string>,
    pageProcessor: Option<string>,
    pageProcessorConfig: Option<string>)

  /**
   * The result of `normalize_page_fields`: the text fields are strings,
   * while `alias` and `page_processor_config` are passed through untouched.
   * The processor config, a YAML-backed mapping in a page row, is kept here
   * as an opaque text.
   */
  datatype Fields = Fields(
    alias: Option<string>,
    title: string,
    description: string,
    keywords: string,
    template: string,
    pageProcessor: string,
    pageProcessorConfig: Option<string>)

  /** The form `normalize_text` produces: no surrounding whitespace, no carriage return. */
  predicate IsNormalText(s: string)
  {
    Trimmed(s) && '\r' !in s
  }

  /** The form `normalize_template` produces: empty, or normal text plus one newline. */
  predicate IsNormalTemplate(t: string)
  {
    t == [] || (|t| >= 2 && t[|t| - 1] == '\n' && IsNormalText(t[..|t| - 1]))
  }

  predicate IsNormal(f: Fields)
  {
    && IsNormalText(f.title)
    && IsNormalText(f.description)
    && IsNormalText(f.keywords)
    && IsNormalText(f.pageProcessor)
    && IsNormalTemplate(f.template)
  }

  /** `normalize_text(s)` (sync.py:73-75). */
  function NormalizeText(s: Option<string>): (r: string)
    ensures IsNormalText(r)
    ensures s.None? ==> r == []
    ensures forall c :: c in r ==> c in s.GetOr([])
  {
    var t := Strip(s.GetOr([]));
    WithoutSpaceTrimmed(t, '\r');
    Without(t, '\r')
  }

  /** `normalize_line(s)` (sync.py:78-80): also drops every newline. */
  function NormalizeLine(s: Option<string>): (r: string)
    ensures IsNormalText(r) && '\n' !in r
    ensures forall c :: c in r ==> c in s.GetOr([])
  {
    var t := NormalizeText(s);
    WithoutSpaceTrimmed(t, '\n');
    Without(t, '\n')
  }

  /** `normalize_template(s)` (sync.py:83-88). */
  function NormalizeTemplate(s: Option<string>): (r: string)
    ensures IsNormalTemplate(r)
    ensures NormalizeText(s) == [] ==> r == []
    ensures NormalizeText(s) != [] ==> r == NormalizeText(s) + "\n"
  {
    var t := NormalizeText(s);
    if t != [] then
      assert (t + "\n")[..|t|] == t;
      t + "\n"
    else t
  }

  /** `normalize_page_fields(data)` (sync.py:91-101). */
  function Normalize(d: RawFields): (f: Fields)
    ensures IsNormal(f)
    ensures f.alias == d.alias && f.pageProcessorConfig == d.pageProcessorConfig
  {
    Fields(
      alias := d.alias,
      title := NormalizeText(d.title),
      description := NormalizeText(d.description),
      keywords := NormalizeText(d.keywords),
      template := NormalizeTemplate(d.template),
      pageProcessor := NormalizeText(d.pageProcessor),
      pageProcessorConfig := d.pageProcessorConfig)
  }

  /** Normalised fields seen again as input data (every key present). */
  function ToRaw(f: Fields): RawFields
  {
    RawFields(f.alias, Some(f.title), Some(f.description), Some(f.keywords),
              Some(f.template), Some(f.pageProcessor), f.pageProcessorConfig)
  }

  /** Normal text is a fixed point of `normalize_text`. */
  lemma NormalTextFixed(s: string)
    requires IsNormalText(s)
    ensures NormalizeText(Some(s)) == s
  {
    StripTrimmed(s);
    WithoutAbsent(s, '\r');
  }

  /** Stripping normal text followed by a newline gives the text back. */
  lemma StripTrailingNewline(body: string)
    requires body != [] && Trimmed(body)
    ensures Strip(body + "\n") == body
  {
    var t := body + "\n";
    assert TrimStart(t) == t;
    assert t[..|t| - 1] == body;
    assert TrimEnd(t) == TrimEnd(body);
    assert TrimEnd(body) == body;
  }

  /** A normal template is a fixed point of `normalize_template`. */
  lemma NormalTemplateFixed(t: string)
    requires IsNormalTemplate(t)
    ensures NormalizeTemplate(Some(t)) == t
  {
    if t != [] {
      var body := t[..|t| - 1];
      assert t == body + "\n";
      StripTrailingNewline(body);
      WithoutAbsent(body, '\r');
    }
  }

  /** Normalised fields are left as they are by another normalisation. */
  lemma NormalFieldsFixed(f: Fields)
    requires IsNormal(f)
    ensures Normalize(ToRaw(f)) == f
  {
    NormalTextFixed(f.title);
    NormalTextFixed(f.description);
    NormalTextFixed(f.keywords);
    NormalTextFixed(f.pageProcessor);
    NormalTemplateFixed(f.template);
  }

  /** `normalize_page_fields` is idempotent. */
  lemma NormalizeIdempotent(d: RawFields)
    ensures Normalize(ToRaw(Normalize(d))) == Normalize(d)
  {
    NormalFieldsFixed(Normalize(d));
  }

  /**
   * The title goes through `normalize_text`, not `normalize_line`: a title
   * with an inner newline keeps it, although `normalize_line` would drop it.
   */
  lemma TitleKeepsNewline(d: RawFields)
    requires d.title.Some? && IsNormalText(d.title.value) && '\n' in d.title.value
    ensures Normalize(d).title == d.title.value
    ensures NormalizeLine(d.title) != Normalize(d).title
  {
    NormalTextFixed(d.title.value);
  }

  /** `alias` and `page_processor_config` are not normalised: None and "" stay apart. */
  lemma AliasNoneAndEmptyDiffer(d: RawFields)
    requires d.alias == None
    ensures Normalize(d) != Normalize(d.(alias := Some([])))
  {
  }
}
