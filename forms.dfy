/*
 * The two field checks of the admin's page form (powerpages/forms.py):
 * the alias must be blank or unique among the other pages, and the page
 * processor configuration must be blank or parse to a mapping.
 */
module PageForms {
  import opened Outcomes
  import opened Strings

  /** Why a field is rejected. */
  datatype FormError =
    | AliasTaken           // the form's validation error: another page has this alias
    | AliasAmbiguous       // several other pages share the alias: the lookup itself raises
    | InvalidYamlConfig    // the form's validation error for the configuration
    | YamlFailure          // any other exception of the YAML parser, not caught by the form

  /** The part of a YAML document the form looks at: whether it is a mapping. */
  datatype Yaml = Mapping(entries: map<string, string>) | Scalar(text: string) | Sequence(items: seq<string>) | Null

  /** What `yaml.load` does with a text. */
  datatype YamlOutcome = Loaded(value: Yaml) | ValueErrorRaised | OtherErrorRaised

  /**
   * The pages that compete for `alias`: every stored page (primary key to
   * alias) holding it, except the edited page itself when it has a
   * non-zero primary key.
   */
  function Holders(pages: map<int, Option<string>>, alias: string, instancePk: Option<int>): (h: set<int>)
    ensures forall pk :: pk in h <==> pk in pages && pages[pk] == Some(alias) && !Excluded(pk, instancePk)
  {
    set pk | pk in pages && pages[pk] == Some(alias) && (instancePk.None? || instancePk.value == 0 || pk != instancePk.value)
  }

  /** The edited page is left out of the search when its primary key is set and non-zero. */
  predicate Excluded(pk: int, instancePk: Option<int>)
  {
    instancePk == Some(pk) && pk != 0
  }

  /** `clean_alias`: blank becomes None, a free alias is kept, a taken one is refused. */
  function CleanAlias(alias: Option<string>, instancePk: Option<int>, pages: map<int, Option<string>>): (r: Result<Option<string>, FormError>)
    ensures alias.None? || alias == Some("") ==> r == Ok(None)
    ensures r.Ok? ==> r.value == None || r.value == alias
    ensures r == Ok(alias) && alias != Some("") && alias.Some? <==> alias.Some? && alias.value != "" && Holders(pages, alias.value, instancePk) == {}
    ensures r == Err(AliasTaken) <==> alias.Some? && alias.value != "" && |Holders(pages, alias.value, instancePk)| == 1
  {
    if alias.None? || alias.value == "" then Ok(None)
    else
      var holders := Holders(pages, alias.value, instancePk);
      if holders == {} then Ok(alias)
      else if |holders| == 1 then Err(AliasTaken)
      else Err(AliasAmbiguous)
  }

  /** A stored page saved again with its own alias is accepted, as long as no other page holds it. */
  lemma OwnAliasAccepted(pk: int, alias: string, pages: map<int, Option<string>>)
    requires pk != 0 && pk in pages && pages[pk] == Some(alias) && alias != ""
    requires forall other :: other in pages && other != pk ==> pages[other] != Some(alias)
    ensures CleanAlias(Some(alias), Some(pk), pages) == Ok(Some(alias))
  {
    assert Holders(pages, alias, Some(pk)) == {};
  }

  /** An alias that exactly one other page holds is refused, even for a new page. */
  lemma AliasOfAnotherPageRefused(pk: int, other: int, alias: string, pages: map<int, Option<string>>)
    requires other in pages && other != pk && pages[other] == Some(alias) && alias != ""
    requires forall q :: q in pages && q != other && q != pk ==> pages[q] != Some(alias)
    ensures CleanAlias(Some(alias), Some(pk), pages).Err?
    ensures CleanAlias(Some(alias), None, pages).Err?
  {
    assert other in Holders(pages, alias, Some(pk));
    assert other in Holders(pages, alias, None);
  }

  /**
   * `clean_page_processor_config`: the text, stripped, or None when blank;
   * otherwise the parsed document, which must be a mapping. `parse` stands
   * for the YAML parser.
   */
  function CleanConfig(raw: Option<string>, parse: string -> YamlOutcome): (r: Result<Option<Yaml>, FormError>)
    ensures Strip(raw.GetOr("")) == "" ==> r == Ok(None)
    ensures r.Ok? && r.value.Some? ==> r.value.value.Mapping? && Strip(raw.GetOr("")) != ""
    ensures Strip(raw.GetOr("")) != "" && parse(Strip(raw.GetOr(""))).Loaded? && parse(Strip(raw.GetOr(""))).value.Mapping?
            ==> r == Ok(Some(parse(Strip(raw.GetOr(""))).value))
    ensures r == Err(InvalidYamlConfig) <==>
              Strip(raw.GetOr("")) != "" &&
              (parse(Strip(raw.GetOr(""))).ValueErrorRaised? ||
               (parse(Strip(raw.GetOr(""))).Loaded? && !parse(Strip(raw.GetOr(""))).value.Mapping?))
  {
    var text := Strip(raw.GetOr(""));
    if text == "" then Ok(None)
    else
      match parse(text)
      case ValueErrorRaised => Err(InvalidYamlConfig)
      case OtherErrorRaised => Err(YamlFailure)
      case Loaded(v) => if v.Mapping? then Ok(Some(v)) else Err(InvalidYamlConfig)
  }

  /** The parser sees the configuration without its surrounding whitespace. */
  lemma ConfigPaddingIgnored(text: string, parse: string -> YamlOutcome)
    ensures CleanConfig(Some(" " + text + "\n"), parse) == CleanConfig(Some(text), parse)
  {
    PaddedStrip(text);
  }

  /** Whitespace around a text does not survive `strip()`. */
  lemma PaddedStrip(text: string)
    ensures Strip(" " + text + "\n") == Strip(text)
  {
    var s := " " + text + "\n";
    assert IsSpace(s[0]) && s[1..] == text + "\n";
    assert TrimStart(s) == TrimStart(text + "\n");
    TrimStartAppend(text, "\n");
    var u := TrimStart(text);
    var w := u + "\n";
    assert IsSpace(w[|w| - 1]) && w[..|w| - 1] == u;
    assert TrimEnd(w) == TrimEnd(u);
    if u == [] {
      assert TrimEnd(TrimStart(s)) == TrimEnd([]);
    } else {
      assert TrimEnd(TrimStart(s)) == TrimEnd(w);
    }
  }

  /** Trimming the front of a text followed by a newline trims the text's front. */
  lemma {:induction false} TrimStartAppend(text: string, tail: string)
    requires tail == "\n"
    ensures TrimStart(text) == [] ==> TrimStart(text + tail) == []
    ensures TrimStart(text) != [] ==> TrimStart(text + tail) == TrimStart(text) + tail
  {
    if text != [] {
      assert (text + tail)[0] == text[0];
      assert (text + tail)[1..] == text[1..] + tail;
      if IsSpace(text[0]) {
        TrimStartAppend(text[1..], tail);
      }
    } else {
      assert text + tail == "\n";
      assert ("\n")[1..] == [];
    }
  }
}
