/*
 * The class list of the admin's source-code editor widget
 * (powerpages/widgets.py): the widget's `class` attribute is rewritten so
 * that it carries the marker class the editor's script hooks onto, with
 * empty tokens dropped and the tokens joined by single spaces.
 */
module Widgets {
  import opened Strings

  /** The marker class the editor's script looks for. */
  const HandlerClass: string := "handle-ace-editor"

  /** `[c for c in attr.split(' ') if c]`: the class tokens of an attribute value. */
  function Classes(attr: string): (r: seq<string>)
    ensures forall i :: 0 <= i < |r| ==> r[i] != [] && ' ' !in r[i]
  {
    NonEmpty(Split(attr, ' '))
  }

  /** The token list with the marker class inserted at the front when absent. */
  function WithHandler(classes: seq<string>): seq<string>
  {
    if HandlerClass in classes then classes else [HandlerClass] + classes
  }

  /** The new value of the `class` attribute. */
  function UpdatedClass(attr: string): string
  {
    Join(WithHandler(Classes(attr)), ' ')
  }

  /**
   * The widget: its attributes are copied from the constructor's argument
   * and the `class` entry is rewritten in place.
   */
  class SourceCodeEditor {
    var attrs: map<string, string>

    constructor(attrs: map<string, string>)
      ensures this.attrs == attrs["class" := UpdatedClass(if "class" in attrs then attrs["class"] else "")]
    {
      this.attrs := attrs;
      new;
      var classes := Classes(if "class" in this.attrs then this.attrs["class"] else "");
      if HandlerClass !in classes {
        classes := [HandlerClass] + classes;
      }
      this.attrs := this.attrs["class" := Join(classes, ' ')];
    }
  }

  /** Splitting the join of non-empty, space-free tokens gives the tokens back. */
  lemma {:induction false} ClassesOfJoin(tokens: seq<string>)
    requires |tokens| >= 1
    requires forall i :: 0 <= i < |tokens| ==> tokens[i] != [] && ' ' !in tokens[i]
    ensures Classes(Join(tokens, ' ')) == tokens
  {
    SplitJoin(tokens, ' ');
    NonEmptyOfNonEmpty(tokens);
  }

  /**
   * The tokens of the rewritten attribute: exactly the non-empty tokens of
   * the old one, with the marker class in front when it was not among them;
   * an existing marker keeps its position and is not duplicated.
   */
  lemma UpdatedClassTokens(attr: string)
    ensures HandlerClass in Classes(attr) ==> Classes(UpdatedClass(attr)) == Classes(attr)
    ensures HandlerClass !in Classes(attr) ==> Classes(UpdatedClass(attr)) == [HandlerClass] + Classes(attr)
  {
    var tokens := WithHandler(Classes(attr));
    assert HandlerClass in tokens;
    forall i | 0 <= i < |tokens|
      ensures tokens[i] != [] && ' ' !in tokens[i]
    {
      if HandlerClass !in Classes(attr) && i > 0 {
        assert tokens[i] == Classes(attr)[i - 1];
      }
    }
    ClassesOfJoin(tokens);
  }

  /** Rewriting the attribute a second time changes nothing. */
  lemma UpdatedClassIdempotent(attr: string)
    ensures UpdatedClass(UpdatedClass(attr)) == UpdatedClass(attr)
  {
    UpdatedClassTokens(attr);
    UpdatedClassTokens(UpdatedClass(attr));
    assert HandlerClass in Classes(UpdatedClass(attr));
  }

  /** The rewritten attribute has the marker class as one of its tokens. */
  lemma UpdatedClassHasHandler(attr: string)
    ensures HandlerClass in Classes(UpdatedClass(attr))
  {
    UpdatedClassTokens(attr);
    if HandlerClass !in Classes(attr) {
      assert ([HandlerClass] + Classes(attr))[0] == HandlerClass;
    }
  }
}
