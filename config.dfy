/*
 * Configuration variables of registry items
 * (powerpages/utils/class_registry/config.py): a variable reads its value
 * from a configuration mapping through a converter or a list of choices,
 * falls back to its default, and reports what is wrong with the
 * configuration as error messages keyed by variable name.
 */
module RegistryConfig {
  import opened Outcomes
  import opened Strings

  /** A configuration value as the variables see it. */
  datatype Value =
    | Text(s: string)
    | Number(n: int)
    | Items(items: seq<Value>)
    | Nothing                   // Python None
    | Callable(result: Value)   // a callable, and what calling it returns

  /**
   * An error message: the template from the variable's message table and
   * the parameters that the `%` formatting would put into it.
   */
  datatype Message = Message(template: string, params: map<string, Value>)

  /** An exception raised by a converter: its class name and its message. */
  datatype Failure = Failure(excType: string, excMessage: string)

  /** A validator's ValidationError: its code, its parameters and its own messages. */
  datatype Rejection = Rejection(code: Option<string>, params: map<string, Value>, messages: seq<Message>)

  /** Raised on construction, on lookup of an undeclared name, and through `get` and `validate`. */
  datatype ConfigError =
    | ExclusiveOptions             // ValueError: converter and choices together
    | UndefinedVariable(name: string)
    | TypeError(excMessage: string)   // a list met the reversed choice dictionary

  /** The message of the TypeError raised when a list is used as a dictionary key. */
  const UNHASHABLE_LIST := "unhashable type: 'list'"

  /**
   * Why a configuration entry yields no value: a ValidationError with its
   * message, which `get_value` and `validate` catch, or the TypeError of a
   * list used as a key of the reversed choice dictionary, which nothing in
   * this module catches.
   */
  datatype Refusal = Invalid(message: Message) | Unhashable

  /** One line of `validate`'s ValidationError: the variable's name and the message. */
  datatype Issue = Issue(name: string, message: Message)

  /** `ConfigVariable.default_error_messages` */
  const DefaultErrorMessages: map<string, string> := map[
    "required" := "This variable is required.",
    "invalid" := "Enter a valid value.",
    "unable_to_process" := "Unable to process variable (%(exc_type)s: %(exc_message)s).",
    "invalid_choice" := "%(value)s is not one of the available choices."
  ]

  /** A constructed variable. */
  datatype Variable = Variable(
    name: string,
    converter: Value -> Result<Value, Failure>,
    default: Value,
    choices: seq<(Value, Value)>,   // (stored value, configured value); empty means none
    multiple: bool,
    required: bool,
    validators: seq<Value -> Option<Rejection>>,
    errorMessages: map<string, string>)

  /** What every variable's message table holds: the class defaults are always merged in. */
  predicate Constructed(v: Variable)
  {
    DefaultErrorMessages.Keys <= v.errorMessages.Keys
  }

  // ---------------------------------------------------------------------
  // Construction
  // ---------------------------------------------------------------------

  /** The text for `key` in the last of the tables that has it. */
  function LastDefined(layers: seq<map<string, string>>, key: string): Option<string>
  {
    if layers == [] then None
    else if key in layers[|layers| - 1] then Some(layers[|layers| - 1][key])
    else LastDefined(layers[..|layers| - 1], key)
  }

  /** The message tables of the classes, base first, each updating the ones before. */
  function Merged(layers: seq<map<string, string>>): (r: map<string, string>)
    ensures forall k :: k in r <==> LastDefined(layers, k).Some?
    ensures forall k :: k in r ==> r[k] == LastDefined(layers, k).value
  {
    if layers == [] then map[]
    else Merged(layers[..|layers| - 1]) + layers[|layers| - 1]
  }

  /** A key of the base table is in the merge, whatever the later tables hold. */
  lemma {:induction false} BaseKeysKept(layers: seq<map<string, string>>, key: string)
    requires layers != [] && key in layers[0]
    ensures LastDefined(layers, key).Some?
  {
    if |layers| > 1 && key !in layers[|layers| - 1] {
      BaseKeysKept(layers[..|layers| - 1], key);
    }
  }

  /** A message given to the variable itself wins over every class default. */
  lemma OwnMessagesWin(classLayers: seq<map<string, string>>, own: map<string, string>, key: string)
    requires key in own
    ensures var merged := Merged(classLayers + [own]);
      key in merged && merged[key] == own[key]
  {
    assert (classLayers + [own])[|classLayers|] == own;
  }

  /** A default overridden neither by a subclass nor by the variable keeps the class's text. */
  lemma {:induction false} DefaultMessagesKept(subclassLayers: seq<map<string, string>>, own: map<string, string>, key: string)
    requires key !in own && key in DefaultErrorMessages
    requires forall i :: 0 <= i < |subclassLayers| ==> key !in subclassLayers[i]
    ensures var merged := Merged([DefaultErrorMessages] + subclassLayers + [own]);
      key in merged && merged[key] == DefaultErrorMessages[key]
  {
    var layers := [DefaultErrorMessages] + subclassLayers + [own];
    assert layers[..|layers| - 1] == [DefaultErrorMessages] + subclassLayers;
    DefaultsUnderSubclasses(subclassLayers, key);
  }

  /** Subclass tables without `key` leave the base table's text for it. */
  lemma {:induction false} DefaultsUnderSubclasses(subclassLayers: seq<map<string, string>>, key: string)
    requires key in DefaultErrorMessages
    requires forall i :: 0 <= i < |subclassLayers| ==> key !in subclassLayers[i]
    ensures LastDefined([DefaultErrorMessages] + subclassLayers, key) == Some(DefaultErrorMessages[key])
  {
    var layers := [DefaultErrorMessages] + subclassLayers;
    if subclassLayers != [] {
      var n := |subclassLayers|;
      assert layers[|layers| - 1] == subclassLayers[n - 1];
      assert layers[..|layers| - 1] == [DefaultErrorMessages] + subclassLayers[..n - 1];
      DefaultsUnderSubclasses(subclassLayers[..n - 1], key);
    }
  }

  /**
   * `ConfigVariable.__init__`: a converter together with choices is
   * refused; otherwise the message tables are merged in class order
   * (`subclassMessages` are those of subclasses, base first), then the
   * variable's own messages on top.
   */
  method NewVariable(name: string, converter: Option<Value -> Result<Value, Failure>>, default: Value,
                     choices: seq<(Value, Value)>, multiple: bool, required: bool,
                     validators: seq<Value -> Option<Rejection>>,
                     subclassMessages: seq<map<string, string>>, errorMessages: map<string, string>)
    returns (r: Result<Variable, ConfigError>)
    ensures converter.Some? && choices != [] <==> r == Err(ExclusiveOptions)
    ensures r.Ok? ==> Constructed(r.value)
    ensures r.Ok? ==> r.value.name == name && r.value.default == default && r.value.choices == choices &&
                      r.value.multiple == multiple && r.value.required == required && r.value.validators == validators
    ensures r.Ok? ==> r.value.errorMessages == Merged([DefaultErrorMessages] + subclassMessages + [errorMessages])
    ensures r.Ok? && converter.Some? ==> r.value.converter == converter.value
  {
    if converter.Some? && choices != [] {
      return Err(ExclusiveOptions);
    }
    var layers := [DefaultErrorMessages] + subclassMessages + [errorMessages];
    var messages := MergeMessages(layers);
    DefaultKeysKept(layers);
    var convert := if converter.Some? then converter.value else (x: Value) => Ok(x);
    r := Ok(Variable(name, convert, default, choices, multiple, required, validators, messages));
  }

  /** The merge loop of `__init__`: each table's entries override the earlier ones. */
  method MergeMessages(layers: seq<map<string, string>>) returns (messages: map<string, string>)
    ensures messages == Merged(layers)
  {
    messages := map[];
    var i := 0;
    while i < |layers|
      invariant 0 <= i <= |layers|
      invariant messages == Merged(layers[..i])
    {
      assert layers[..i + 1][..i] == layers[..i];
      messages := messages + layers[i];
      i := i + 1;
    }
    assert layers[..|layers|] == layers;
  }

  /** Every key of the default table survives the merge. */
  lemma DefaultKeysKept(layers: seq<map<string, string>>)
    requires layers != [] && layers[0] == DefaultErrorMessages
    ensures DefaultErrorMessages.Keys <= Merged(layers).Keys
  {
    forall k | k in DefaultErrorMessages
      ensures k in Merged(layers)
    {
      BaseKeysKept(layers, k);
    }
  }

  // ---------------------------------------------------------------------
  // Reading values
  // ---------------------------------------------------------------------

  /** `if callable(value): value = value()` */
  function Call(v: Value): (r: Value)
    ensures !v.Callable? ==> r == v
  {
    if v.Callable? then v.result else v
  }

  /** `get_default_value` */
  function DefaultValue(v: Variable): Value
  {
    Call(v.default)
  }

  /**
   * The stored value of the last choice whose configured value is `raw`
   * (the reversed dictionary keeps the last pair for a repeated value).
   */
  function ReverseLookup(choices: seq<(Value, Value)>, raw: Value): (r: Option<Value>)
    ensures r.None? <==> forall i :: 0 <= i < |choices| ==> choices[i].1 != raw
    ensures r.Some? ==> exists i :: 0 <= i < |choices| && choices[i] == (r.value, raw) &&
                                    forall j :: i < j < |choices| ==> choices[j].1 != raw
  {
    if choices == [] then None
    else
      var n := |choices|;
      if choices[n - 1].1 == raw then Some(choices[n - 1].0)
      else
        var r := ReverseLookup(choices[..n - 1], raw);
        LookupBeforeLast(choices, raw, r);
        r
  }

  /** A lookup in all choices but the last, when the last does not have the value, is one in all of them. */
  lemma LookupBeforeLast(choices: seq<(Value, Value)>, raw: Value, r: Option<Value>)
    requires choices != [] && choices[|choices| - 1].1 != raw
    requires var p := choices[..|choices| - 1];
      && (r.None? <==> forall i :: 0 <= i < |p| ==> p[i].1 != raw)
      && (r.Some? ==> exists i :: 0 <= i < |p| && p[i] == (r.value, raw) && forall j :: i < j < |p| ==> p[j].1 != raw)
    ensures r.None? <==> forall i :: 0 <= i < |choices| ==> choices[i].1 != raw
    ensures r.Some? ==> exists i :: 0 <= i < |choices| && choices[i] == (r.value, raw) &&
                                    forall j :: i < j < |choices| ==> choices[j].1 != raw
  {
    var n := |choices|;
    var p := choices[..n - 1];
    if r.None? {
      forall i | 0 <= i < n
        ensures choices[i].1 != raw
      {
        if i < n - 1 {
          assert p[i] == choices[i];
        }
      }
    } else {
      var i :| 0 <= i < |p| && p[i] == (r.value, raw) && forall j :: i < j < |p| ==> p[j].1 != raw;
      assert choices[i] == p[i];
      forall j | i < j < n
        ensures choices[j].1 != raw
      {
        if j < n - 1 {
          assert p[j] == choices[j];
        }
      }
    }
  }

  /** The message `key` of the variable's table, with its parameters. */
  function Msg(v: Variable, key: string, params: map<string, Value>): Message
    requires Constructed(v) && key in DefaultErrorMessages
  {
    Message(v.errorMessages[key], params)
  }

  /** A value that can be a dictionary key: every value but a list. */
  predicate Hashable(x: Value)
  {
    !x.Items?
  }

  /** `dict((v, k) for (k, v) in choices)` can be built: no configured value is a list. */
  predicate ChoicesHashable(choices: seq<(Value, Value)>)
  {
    forall i :: 0 <= i < |choices| ==> Hashable(choices[i].1)
  }

  /**
   * `get_single_value`: through the choices when there are any, else
   * through the converter.  Building the reversed choice dictionary, or
   * looking a list up in it, raises the TypeError that `except KeyError`
   * lets through.
   */
  function SingleValue(v: Variable, raw: Value): (r: Result<Value, Refusal>)
    requires Constructed(v)
  {
    if v.choices != [] then
      if !ChoicesHashable(v.choices) || !Hashable(raw) then Err(Unhashable)
      else
        match ReverseLookup(v.choices, raw)
        case None => Err(Invalid(Msg(v, "invalid_choice", map["value" := raw])))
        case Some(value) => Ok(Call(value))
    else
      match v.converter(raw)
      case Err(e) => Err(Invalid(Msg(v, "unable_to_process", map["exc_type" := Text(e.excType), "exc_message" := Text(e.excMessage)])))
      case Ok(value) => Ok(Call(value))
  }

  /**
   * A single value raises the TypeError exactly when the variable has
   * choices and either a configured choice value or the entry is a list;
   * a converter catches everything.
   */
  lemma UnhashableListRaises(v: Variable, raw: Value)
    requires Constructed(v)
    ensures SingleValue(v, raw) == Err(Unhashable) <==>
            v.choices != [] && (!ChoicesHashable(v.choices) || raw.Items?)
  {
  }

  /** Python's type name of a value, as it appears in the TypeError of `iter`. */
  function TypeName(raw: Value): string
  {
    match raw
    case Text(_) => "unicode"
    case Number(_) => "int"
    case Items(_) => "list"
    case Nothing => "NoneType"
    case Callable(_) => "function"
  }

  /** `iter(raw)`: the elements of a list or the characters of a string; None when not iterable. */
  function Elements(raw: Value): (r: Option<seq<Value>>)
    ensures r.None? <==> !raw.Text? && !raw.Items?
    ensures raw.Items? ==> r == Some(raw.items)
    ensures raw.Text? ==> r.Some? && |r.value| == |raw.s| && forall i :: 0 <= i < |raw.s| ==> r.value[i] == Text([raw.s[i]])
  {
    match raw
    case Items(xs) => Some(xs)
    case Text(s) => Some(seq(|s|, i requires 0 <= i < |s| => Text([s[i]])))
    case _ => None
  }

  /** The single values of the elements, in order; the first failing element's message otherwise. */
  function SingleValues(v: Variable, xs: seq<Value>): (r: Result<seq<Value>, Refusal>)
    requires Constructed(v)
    ensures r.Ok? <==> forall i :: 0 <= i < |xs| ==> SingleValue(v, xs[i]).Ok?
    ensures r.Ok? ==> |r.value| == |xs| && forall i :: 0 <= i < |xs| ==> r.value[i] == SingleValue(v, xs[i]).value
    ensures r.Err? ==> exists i :: 0 <= i < |xs| && SingleValue(v, xs[i]) == Err(r.error) &&
                                   forall j :: 0 <= j < i ==> SingleValue(v, xs[j]).Ok?
  {
    if xs == [] then Ok([])
    else
      var first :- SingleValue(v, xs[0]);
      match SingleValues(v, xs[1..])
      case Err(m) =>
        var i :| 0 <= i < |xs[1..]| && SingleValue(v, xs[1..][i]) == Err(m) &&
                 forall j :: 0 <= j < i ==> SingleValue(v, xs[1..][j]).Ok?;
        assert forall j :: 1 <= j < i + 1 ==> xs[j] == xs[1..][j - 1];
        Err(m)
      case Ok(rest) =>
        assert forall i :: 1 <= i < |xs| ==> xs[i] == xs[1..][i - 1];
        Ok([first] + rest)
  }

  /** `get_multiple_values`: every element through `get_single_value`; a non-iterable is refused. */
  function MultipleValues(v: Variable, raw: Value): (r: Result<Value, Refusal>)
    requires Constructed(v)
  {
    match Elements(raw)
    case None =>
      Err(Invalid(Msg(v, "unable_to_process", map["exc_type" := Text("TypeError"),
                                                  "exc_message" := Text("'" + TypeName(raw) + "' object is not iterable")])))
    case Some(xs) =>
      var values :- SingleValues(v, xs);
      Ok(Items(values))
  }

  /** The converted value of a present configuration entry. */
  function Converted(v: Variable, raw: Value): Result<Value, Refusal>
    requires Constructed(v)
  {
    if v.multiple then MultipleValues(v, raw) else SingleValue(v, raw)
  }

  /**
   * `get_value`: the converted entry, or the default when it is absent or
   * refused with a ValidationError; the TypeError of an unhashable list
   * escapes.
   */
  function GetValue(v: Variable, data: map<string, Value>): Result<Value, ConfigError>
    requires Constructed(v)
  {
    if v.name !in data then Ok(DefaultValue(v))
    else
      match Converted(v, data[v.name])
      case Ok(value) => Ok(value)
      case Err(Invalid(_)) => Ok(DefaultValue(v))
      case Err(Unhashable) => Err(TypeError(UNHASHABLE_LIST))
  }

  /** `run_basic_validation`: a missing required entry, or a failed conversion, is an error. */
  function BasicValidation(v: Variable, data: map<string, Value>): (r: Result<Value, Refusal>)
    requires Constructed(v)
    ensures v.name !in data ==> (r.Err? <==> v.required)
    ensures v.name !in data && v.required ==> r == Err(Invalid(Msg(v, "required", map[])))
    ensures v.name !in data && !v.required ==> r == Ok(DefaultValue(v))
    ensures v.name in data ==> r == Converted(v, data[v.name])
  {
    if v.name !in data then
      if v.required then Err(Invalid(Msg(v, "required", map[]))) else Ok(DefaultValue(v))
    else Converted(v, data[v.name])
  }

  /**
   * `get_value` gives what validation accepts and the default wherever
   * validation finds a ValidationError; it raises the TypeError exactly
   * where validation does.
   */
  lemma GetValueAgreesWithValidation(v: Variable, data: map<string, Value>)
    requires Constructed(v)
    ensures BasicValidation(v, data).Ok? ==> GetValue(v, data) == Ok(BasicValidation(v, data).value)
    ensures BasicValidation(v, data).Err? && BasicValidation(v, data).error.Invalid? ==> GetValue(v, data) == Ok(DefaultValue(v))
    ensures BasicValidation(v, data) == Err(Unhashable) <==> GetValue(v, data) == Err(TypeError(UNHASHABLE_LIST))
  {
  }

  /** A list entry of a single-valued variable with choices makes `get_value` raise instead of falling back to the default. */
  lemma ListEntryWithChoicesRaises(v: Variable, data: map<string, Value>)
    requires Constructed(v) && v.choices != [] && !v.multiple
    requires v.name in data && data[v.name].Items?
    ensures GetValue(v, data) == Err(TypeError(UNHASHABLE_LIST))
  {
  }

  /**
   * With choices, a configured value maps back to the stored value of its
   * (last) choice, unless some configured value is a list and the reversed
   * dictionary cannot be built.
   */
  lemma ChoiceMapsBack(v: Variable, i: nat)
    requires Constructed(v) && i < |v.choices|
    requires forall j :: i < j < |v.choices| ==> v.choices[j].1 != v.choices[i].1
    ensures ChoicesHashable(v.choices) ==> SingleValue(v, v.choices[i].1) == Ok(Call(v.choices[i].0))
    ensures !ChoicesHashable(v.choices) ==> SingleValue(v, v.choices[i].1) == Err(Unhashable)
  {
    var raw := v.choices[i].1;
    if ChoicesHashable(v.choices) {
      var r := ReverseLookup(v.choices, raw);
      var k :| 0 <= k < |v.choices| && v.choices[k] == (r.value, raw) &&
               forall j :: k < j < |v.choices| ==> v.choices[j].1 != raw;
    }
  }

  /**
   * With choices, a value that is not among them is refused with
   * `invalid_choice`; a list, or choices with a list value, raise the
   * TypeError instead.
   */
  lemma UnknownChoiceRefused(v: Variable, raw: Value)
    requires Constructed(v) && v.choices != []
    requires forall i :: 0 <= i < |v.choices| ==> v.choices[i].1 != raw
    ensures ChoicesHashable(v.choices) && Hashable(raw) ==>
            SingleValue(v, raw) == Err(Invalid(Message(v.errorMessages["invalid_choice"], map["value" := raw])))
    ensures !(ChoicesHashable(v.choices) && Hashable(raw)) ==> SingleValue(v, raw) == Err(Unhashable)
  {
  }

  /** A multiple variable converts each element of a list, in order. */
  lemma MultipleConvertsEach(v: Variable, xs: seq<Value>)
    requires Constructed(v) && v.multiple
    requires forall i :: 0 <= i < |xs| ==> SingleValue(v, xs[i]).Ok?
    ensures Converted(v, Items(xs)).Ok?
    ensures var values := Converted(v, Items(xs)).value.items;
      |values| == |xs| && forall i :: 0 <= i < |xs| ==> values[i] == SingleValue(v, xs[i]).value
  {
  }

  /** A multiple variable refuses a value that cannot be iterated, such as a number. */
  lemma MultipleRefusesNumber(v: Variable, n: int)
    requires Constructed(v) && v.multiple
    ensures Converted(v, Number(n)).Err? && Converted(v, Number(n)).error.Invalid?
    ensures Converted(v, Number(n)).error.message.template == v.errorMessages["unable_to_process"]
  {
  }

  // ---------------------------------------------------------------------
  // Validation
  // ---------------------------------------------------------------------

  /** What the validators report about `value`, in validator order. */
  function ValidatorMessages(validators: seq<Value -> Option<Rejection>>, messages: map<string, string>, value: Value): seq<Message>
  {
    if validators == [] then []
    else
      var n := |validators|;
      ValidatorMessages(validators[..n - 1], messages, value) + RejectionMessages(validators[n - 1](value), messages)
  }

  /** The messages of one validator's verdict: the table's message for a known code, else its own. */
  function RejectionMessages(verdict: Option<Rejection>, messages: map<string, string>): seq<Message>
  {
    match verdict
    case None => []
    case Some(e) =>
      if e.code.Some? && e.code.value in messages then [Message(messages[e.code.value], e.params)]
      else e.messages
  }

  /** A validator that has nothing to report about `value`. */
  predicate Passes(validator: Value -> Option<Rejection>, messages: map<string, string>, value: Value)
  {
    RejectionMessages(validator(value), messages) == []
  }

  /** The validators report nothing exactly when each of them has nothing to report. */
  lemma {:induction false} ValidatorMessagesEmpty(validators: seq<Value -> Option<Rejection>>, messages: map<string, string>, value: Value)
    ensures ValidatorMessages(validators, messages, value) == [] <==>
            forall i :: 0 <= i < |validators| ==> Passes(validators[i], messages, value)
  {
    if validators != [] {
      var n := |validators|;
      var prefix := validators[..n - 1];
      ValidatorMessagesEmpty(prefix, messages, value);
      if ValidatorMessages(validators, messages, value) == [] {
        forall i | 0 <= i < n
          ensures Passes(validators[i], messages, value)
        {
          if i < n - 1 {
            assert prefix[i] == validators[i];
          }
        }
      }
    }
  }

  /** `run_validators`: every validator is run, and their messages collected in order. */
  method RunValidators(v: Variable, value: Value) returns (errors: seq<Message>)
    ensures errors == ValidatorMessages(v.validators, v.errorMessages, value)
  {
    errors := [];
    var i := 0;
    while i < |v.validators|
      invariant 0 <= i <= |v.validators|
      invariant errors == ValidatorMessages(v.validators[..i], v.errorMessages, value)
    {
      assert v.validators[..i + 1][..i] == v.validators[..i];
      errors := errors + RejectionMessages(v.validators[i](value), v.errorMessages);
      i := i + 1;
    }
    assert v.validators[..i] == v.validators;
  }

  /** `validate_value` raises the TypeError of an unhashable list. */
  predicate Raises(v: Variable, data: map<string, Value>)
    requires Constructed(v)
  {
    BasicValidation(v, data) == Err(Unhashable)
  }

  /** A variable whose validation raises nothing and reports nothing. */
  predicate Clean(v: Variable, data: map<string, Value>)
    requires Constructed(v)
  {
    !Raises(v, data) && ValueMessages(v, data) == []
  }

  /**
   * The messages of `validate_value`'s ValidationError: those of the basic
   * validation, else the validators' on the converted value (none when it
   * raises the TypeError instead).
   */
  function ValueMessages(v: Variable, data: map<string, Value>): seq<Message>
    requires Constructed(v)
  {
    match BasicValidation(v, data)
    case Err(Invalid(m)) => [m]
    case Err(Unhashable) => []
    case Ok(value) => ValidatorMessages(v.validators, v.errorMessages, value)
  }

  /** `'{0}: {1}'.format(name, message)` for each message, in order. */
  function Prefixed(name: string, messages: seq<Message>): (r: seq<Issue>)
    ensures |r| == |messages|
    ensures forall j :: 0 <= j < |r| ==> r[j] == Issue(name, messages[j])
  {
    if messages == [] then []
    else Prefixed(name, messages[..|messages| - 1]) + [Issue(name, messages[|messages| - 1])]
  }

  /** What `validate_value` reports for each declared variable. */
  function Reports(byName: map<string, Variable>, data: map<string, Value>): (r: map<string, seq<Message>>)
    requires forall name :: name in byName ==> Constructed(byName[name])
    ensures r.Keys == byName.Keys
    ensures forall name :: name in r ==> r[name] == ValueMessages(byName[name], data)
  {
    map name | name in byName :: ValueMessages(byName[name], data)
  }

  /** The report for `name`; nothing for a name without one. */
  function ReportOf(reports: map<string, seq<Message>>, name: string): seq<Message>
  {
    if name in reports then reports[name] else []
  }

  /** The report of a declared variable is what `validate_value` gives for it. */
  lemma ReportOfDeclared(byName: map<string, Variable>, data: map<string, Value>, name: string)
    requires forall n :: n in byName ==> Constructed(byName[n])
    requires name in byName
    ensures ReportOf(Reports(byName, data), name) == ValueMessages(byName[name], data)
  {
  }

  /** The issues of the named variables, in order, each message prefixed by its variable's name. */
  function Issues(names: seq<string>, reports: map<string, seq<Message>>): seq<Issue>
  {
    if names == [] then []
    else
      var n := |names|;
      Issues(names[..n - 1], reports) + Prefixed(names[n - 1], ReportOf(reports, names[n - 1]))
  }

  /** The issues of one more name are those of the name appended. */
  lemma IssuesStep(names: seq<string>, reports: map<string, seq<Message>>, i: nat)
    requires i < |names|
    ensures Issues(names[..i + 1], reports) == Issues(names[..i], reports) + Prefixed(names[i], ReportOf(reports, names[i]))
  {
    assert names[..i + 1][..i] == names[..i];
  }

  /** There are no issues exactly when no named variable reports a message. */
  lemma {:induction false} IssuesEmpty(names: seq<string>, reports: map<string, seq<Message>>)
    ensures Issues(names, reports) == [] <==> forall i :: 0 <= i < |names| ==> ReportOf(reports, names[i]) == []
  {
    if names != [] {
      var n := |names|;
      var prefix := names[..n - 1];
      var last := ReportOf(reports, names[n - 1]);
      IssuesEmpty(prefix, reports);
      IssuesUnfold(names, reports);
      assert |Issues(names, reports)| == |Issues(prefix, reports)| + |last|;
      if forall i :: 0 <= i < n ==> ReportOf(reports, names[i]) == [] {
        forall i | 0 <= i < n - 1
          ensures ReportOf(reports, prefix[i]) == []
        {
          assert prefix[i] == names[i];
        }
      } else {
        var i :| 0 <= i < n && ReportOf(reports, names[i]) != [];
        if i < n - 1 {
          assert prefix[i] == names[i];
        }
      }
    }
  }

  /** The issues of a non-empty list: those of all names but the last, then the last one's. */
  lemma IssuesUnfold(names: seq<string>, reports: map<string, seq<Message>>)
    requires names != []
    ensures Issues(names, reports) ==
            Issues(names[..|names| - 1], reports) + Prefixed(names[|names| - 1], ReportOf(reports, names[|names| - 1]))
  {
  }

  /** Every issue names a variable and carries one of that variable's messages. */
  lemma IssuesComeFromVariables(names: seq<string>, reports: map<string, seq<Message>>)
    ensures forall e :: e in Issues(names, reports) ==> e.name in names && e.message in ReportOf(reports, e.name)
  {
    forall e | e in Issues(names, reports)
      ensures e.name in names && e.message in ReportOf(reports, e.name)
    {
      IssueComesFromVariable(names, reports, e);
    }
  }

  /** One issue names a variable and carries one of that variable's messages. */
  lemma {:induction false} IssueComesFromVariable(names: seq<string>, reports: map<string, seq<Message>>, e: Issue)
    requires e in Issues(names, reports)
    ensures e.name in names && e.message in ReportOf(reports, e.name)
  {
    var n := |names|;
    var prefix := names[..n - 1];
    IssuesUnfold(names, reports);
    if e in Prefixed(names[n - 1], ReportOf(reports, names[n - 1])) {
      IssueOfLastPrefixed(names, reports, e);
    } else {
      assert e in Issues(prefix, reports);
      IssueComesFromVariable(prefix, reports, e);
      var i :| 0 <= i < |prefix| && prefix[i] == e.name;
      assert names[i] == e.name;
    }
  }

  /** An issue among the last name's prefixed messages belongs to that name. */
  lemma IssueOfLastPrefixed(names: seq<string>, reports: map<string, seq<Message>>, e: Issue)
    requires names != []
    requires e in Prefixed(names[|names| - 1], ReportOf(reports, names[|names| - 1]))
    ensures e.name in names && e.message in ReportOf(reports, e.name)
  {
    var tail := Prefixed(names[|names| - 1], ReportOf(reports, names[|names| - 1]));
    var j :| 0 <= j < |tail| && tail[j] == e;
    assert e.name == names[|names| - 1];
  }

  /** A message of a named variable appears among the issues under that name. */
  lemma {:induction false} IssueOfMessage(names: seq<string>, reports: map<string, seq<Message>>, name: string, m: Message)
    requires name in names && m in ReportOf(reports, name)
    ensures Issue(name, m) in Issues(names, reports)
  {
    var n := |names|;
    if names[n - 1] == name {
      IssueOfLastName(names, reports, m);
    } else {
      var k :| 0 <= k < n && names[k] == name;
      assert names[..n - 1][k] == name;
      IssueOfMessage(names[..n - 1], reports, name, m);
      IssueOfEarlierName(names, reports, Issue(name, m));
    }
  }

  /** A message of the last name appears among the issues. */
  lemma IssueOfLastName(names: seq<string>, reports: map<string, seq<Message>>, m: Message)
    requires names != [] && m in ReportOf(reports, names[|names| - 1])
    ensures Issue(names[|names| - 1], m) in Issues(names, reports)
  {
    IssuesUnfold(names, reports);
    PrefixedHas(names[|names| - 1], ReportOf(reports, names[|names| - 1]), m);
  }

  /** An issue of the names but the last is an issue of all of them. */
  lemma IssueOfEarlierName(names: seq<string>, reports: map<string, seq<Message>>, e: Issue)
    requires names != [] && e in Issues(names[..|names| - 1], reports)
    ensures e in Issues(names, reports)
  {
    IssuesUnfold(names, reports);
  }

  /** A message appears, under the name, among its prefixed issues. */
  lemma PrefixedHas(name: string, messages: seq<Message>, m: Message)
    requires m in messages
    ensures Issue(name, m) in Prefixed(name, messages)
  {
    var j :| 0 <= j < |messages| && messages[j] == m;
    assert Prefixed(name, messages)[j] == Issue(name, m);
  }

  /** Each message of a named variable appears among the issues under that name. */
  lemma IssueOfEachMessage(names: seq<string>, reports: map<string, seq<Message>>, name: string)
    requires name in names
    ensures forall m :: m in ReportOf(reports, name) ==> Issue(name, m) in Issues(names, reports)
  {
    forall m | m in ReportOf(reports, name)
      ensures Issue(name, m) in Issues(names, reports)
    {
      IssueOfMessage(names, reports, name, m);
    }
  }

  /** The last of the variables named `name`. */
  function LastNamed(variables: seq<Variable>, name: string): Option<Variable>
  {
    if variables == [] then None
    else if variables[|variables| - 1].name == name then Some(variables[|variables| - 1])
    else LastNamed(variables[..|variables| - 1], name)
  }

  /** The variables by name: a later variable with a repeated name replaces the earlier one. */
  function ByName(variables: seq<Variable>): (r: map<string, Variable>)
    ensures forall name :: name in r <==> LastNamed(variables, name).Some?
    ensures forall name :: name in r ==> r[name] == LastNamed(variables, name).value
  {
    if variables == [] then map[]
    else ByName(variables[..|variables| - 1])[variables[|variables| - 1].name := variables[|variables| - 1]]
  }

  /** The last variable of a name is one of the variables, and carries that name. */
  lemma {:induction false} LastNamedIsListed(variables: seq<Variable>, name: string)
    requires LastNamed(variables, name).Some?
    ensures exists i :: 0 <= i < |variables| && variables[i] == LastNamed(variables, name).value
    ensures LastNamed(variables, name).value.name == name
  {
    var n := |variables|;
    if variables[n - 1].name != name {
      LastNamedIsListed(variables[..n - 1], name);
      var i :| 0 <= i < n - 1 && variables[..n - 1][i] == LastNamed(variables[..n - 1], name).value;
      assert variables[i] == variables[..n - 1][i];
    }
  }

  /** `validate_value`: the TypeError, or the messages of the basic validation, or else of the validators. */
  method ValidateValue(v: Variable, data: map<string, Value>) returns (r: Result<seq<Message>, ConfigError>)
    requires Constructed(v)
    ensures r.Err? <==> Raises(v, data)
    ensures r.Err? ==> r.error == TypeError(UNHASHABLE_LIST)
    ensures r.Ok? ==> r.value == ValueMessages(v, data)
  {
    var basic := BasicValidation(v, data);
    match basic
    case Err(Unhashable) =>
      r := Err(TypeError(UNHASHABLE_LIST));
    case Err(Invalid(m)) =>
      r := Ok([m]);
    case Ok(value) =>
      var messages := RunValidators(v, value);
      r := Ok(messages);
  }

  /** The `for message in e.messages` loop of `validate`: one issue per message, appended in order. */
  method AppendIssues(errors: seq<Issue>, name: string, messages: seq<Message>) returns (r: seq<Issue>)
    ensures r == errors + Prefixed(name, messages)
  {
    r := errors;
    var k := 0;
    while k < |messages|
      invariant 0 <= k <= |messages|
      invariant r == errors + Prefixed(name, messages[..k])
    {
      assert messages[..k + 1][..k] == messages[..k];
      r := r + [Issue(name, messages[k])];
      k := k + 1;
    }
    assert messages[..k] == messages;
  }

  /**
   * The loop of `validate` over the declared names: each variable's
   * messages, prefixed, in order; a variable that raises the TypeError
   * ends the loop with it.
   */
  method CollectIssues(byName: map<string, Variable>, data: map<string, Value>, names: seq<string>)
    returns (r: Result<seq<Issue>, ConfigError>)
    requires forall n :: n in byName ==> Constructed(byName[n])
    requires forall i :: 0 <= i < |names| ==> names[i] in byName
    ensures r.Ok? <==> NoneRaises(byName, data, names)
    ensures r.Err? ==> r.error == TypeError(UNHASHABLE_LIST)
    ensures r.Ok? ==> r.value == Issues(names, Reports(byName, data))
  {
    ghost var reports := Reports(byName, data);
    var errors := [];
    var i := 0;
    while i < |names|
      invariant 0 <= i <= |names|
      invariant errors == Issues(names[..i], reports)
      invariant NoneRaises(byName, data, names[..i])
    {
      var outcome := CollectOne(byName, data, names, i, errors);
      if outcome.Err? {
        return outcome;
      }
      errors := outcome.value;
      i := i + 1;
    }
    assert names[..i] == names;
    r := Ok(errors);
  }

  /** One round of the loop of `validate`: the variable's TypeError, or the issues so far with its messages appended. */
  method CollectOne(byName: map<string, Variable>, data: map<string, Value>, names: seq<string>, i: nat, errors: seq<Issue>)
    returns (r: Result<seq<Issue>, ConfigError>)
    requires forall n :: n in byName ==> Constructed(byName[n])
    requires i < |names| && names[i] in byName
    requires errors == Issues(names[..i], Reports(byName, data))
    requires NoneRaises(byName, data, names[..i])
    ensures r.Err? <==> Raises(byName[names[i]], data)
    ensures r.Err? ==> r.error == TypeError(UNHASHABLE_LIST) && !NoneRaises(byName, data, names)
    ensures r.Ok? ==> r.value == Issues(names[..i + 1], Reports(byName, data)) && NoneRaises(byName, data, names[..i + 1])
  {
    var outcome := ValidateValue(byName[names[i]], data);
    if outcome.Err? {
      RaiseBreaks(byName, data, names, i);
      return Err(outcome.error);
    }
    NoneRaisesStep(byName, data, names, i);
    ReportOfDeclared(byName, data, names[i]);
    IssuesStep(names, Reports(byName, data), i);
    var appended := AppendIssues(errors, names[i], outcome.value);
    r := Ok(appended);
  }

  /** A listed variable that raises means that not all of them are free of the TypeError. */
  lemma RaiseBreaks(byName: map<string, Variable>, data: map<string, Value>, names: seq<string>, i: nat)
    requires forall n :: n in byName ==> Constructed(byName[n])
    requires i < |names| && names[i] in byName && Raises(byName[names[i]], data)
    ensures !NoneRaises(byName, data, names)
  {
  }

  /** No listed variable raises exactly when no declared one does, when the names are exactly the declared ones. */
  lemma RaisesAmongNames(byName: map<string, Variable>, data: map<string, Value>, names: seq<string>)
    requires forall n :: n in byName ==> Constructed(byName[n])
    requires forall i :: 0 <= i < |names| ==> names[i] in byName
    requires forall n :: n in byName ==> n in names
    ensures NoneRaises(byName, data, names) <==> forall n :: n in byName ==> !Raises(byName[n], data)
  {
    if NoneRaises(byName, data, names) {
      forall n | n in byName
        ensures !Raises(byName[n], data)
      {
        var i :| 0 <= i < |names| && names[i] == n;
      }
    }
  }

  /** None of the variables of `names` raises the TypeError. */
  predicate NoneRaises(byName: map<string, Variable>, data: map<string, Value>, names: seq<string>)
    requires forall n :: n in byName ==> Constructed(byName[n])
  {
    forall k :: 0 <= k < |names| ==> names[k] in byName && !Raises(byName[names[k]], data)
  }

  /** One more variable that does not raise extends `NoneRaises` by its name. */
  lemma NoneRaisesStep(byName: map<string, Variable>, data: map<string, Value>, names: seq<string>, i: nat)
    requires forall n :: n in byName ==> Constructed(byName[n])
    requires i < |names| && names[i] in byName && !Raises(byName[names[i]], data)
    requires NoneRaises(byName, data, names[..i])
    ensures NoneRaises(byName, data, names[..i + 1])
  {
    var longer := names[..i + 1];
    forall k | 0 <= k < |longer|
      ensures longer[k] in byName && !Raises(byName[longer[k]], data)
    {
      if k < i {
        assert longer[k] == names[..i][k];
      }
    }
  }

  /** The configuration of one registry item: its variables and its data. */
  class Config {
    var variableByName: map<string, Variable>
    const data: map<string, Value>

    /** Every variable went through the variable constructor. */
    predicate Valid()
      reads this
    {
      forall name :: name in variableByName ==> Constructed(variableByName[name])
    }

    /** `Config.__init__`: the variables filed by name, one at a time. */
    constructor(variables: seq<Variable>, data: map<string, Value>)
      requires forall i :: 0 <= i < |variables| ==> Constructed(variables[i])
      ensures variableByName == ByName(variables)
      ensures this.data == data
      ensures Valid()
    {
      this.data := data;
      variableByName := map[];
      new;
      var i := 0;
      while i < |variables|
        invariant 0 <= i <= |variables|
        invariant variableByName == ByName(variables[..i])
        invariant this.data == data
      {
        assert variables[..i + 1][..i] == variables[..i];
        variableByName := variableByName[variables[i].name := variables[i]];
        i := i + 1;
      }
      assert variables[..i] == variables;
      forall name | name in variableByName
        ensures Constructed(variableByName[name])
      {
        LastNamedIsListed(variables, name);
      }
    }

    /**
     * `Config.get`: the value of a declared variable; an undeclared name is
     * an error, and the TypeError of `get_value` passes through.
     */
    function Get(name: string): (r: Result<Value, ConfigError>)
      reads this
      requires Valid()
      ensures name !in variableByName ==> r == Err(UndefinedVariable(name))
      ensures name in variableByName ==> r == GetValue(variableByName[name], data)
      ensures r.Err? ==> r.error == UndefinedVariable(name) || r.error == TypeError(UNHASHABLE_LIST)
    {
      if name !in variableByName then Err(UndefinedVariable(name))
      else GetValue(variableByName[name], data)
    }

    /** The declared names, in the order `validate` visits them. */
    function Names(): (names: seq<string>)
      reads this
      requires Valid()
      ensures forall i :: 0 <= i < |names| ==> names[i] in variableByName
      ensures forall name :: name in variableByName ==> name in names
    {
      Sorted(variableByName.Keys)
    }

    /**
     * `Config.validate`: the TypeError when some variable raises it;
     * otherwise the issues of every variable, collected in a list, and
     * `ok` is false (the ValidationError is raised) exactly when the list
     * is not empty.
     */
    method Validate() returns (ok: bool, r: Result<seq<Issue>, ConfigError>)
      requires Valid()
      ensures r.Ok? <==> forall name :: name in variableByName ==> !Raises(variableByName[name], data)
      ensures r.Err? ==> r.error == TypeError(UNHASHABLE_LIST)
      ensures r.Ok? ==> r.value == Issues(Names(), Reports(variableByName, data))
      ensures ok <==> r == Ok([])
    {
      var names := Names();
      r := CollectIssues(variableByName, data, names);
      ok := r == Ok([]);
      RaisesAmongNames(variableByName, data, names);
    }
  }

  /** The configuration is accepted exactly when every declared variable validates cleanly. */
  lemma ValidateAcceptsClean(byName: map<string, Variable>, data: map<string, Value>, names: seq<string>)
    requires forall name :: name in byName ==> Constructed(byName[name])
    requires forall name :: name in byName ==> name in names
    ensures (forall name :: name in byName ==> !Raises(byName[name], data)) && Issues(names, Reports(byName, data)) == [] <==>
            forall name :: name in byName ==> Clean(byName[name], data)
  {
    NoIssuesIffSilent(byName, data, names);
  }

  /** There are no issues exactly when no declared variable reports a message. */
  lemma NoIssuesIffSilent(byName: map<string, Variable>, data: map<string, Value>, names: seq<string>)
    requires forall name :: name in byName ==> Constructed(byName[name])
    requires forall name :: name in byName ==> name in names
    ensures Issues(names, Reports(byName, data)) == [] <==> forall name :: name in byName ==> ValueMessages(byName[name], data) == []
  {
    var reports := Reports(byName, data);
    IssuesEmpty(names, reports);
    if Issues(names, reports) == [] {
      forall name | name in byName
        ensures ValueMessages(byName[name], data) == []
      {
        var i :| 0 <= i < |names| && names[i] == name;
      }
    }
  }

  /** A required variable missing from the data is reported under its name with the `required` message. */
  lemma MissingRequiredReported(byName: map<string, Variable>, data: map<string, Value>, names: seq<string>, name: string)
    requires forall n :: n in byName ==> Constructed(byName[n])
    requires name in names && name in byName && Constructed(byName[name]) && byName[name].name == name && name !in data && byName[name].required
    ensures Issue(name, Message(byName[name].errorMessages["required"], map[])) in Issues(names, Reports(byName, data))
  {
    IssueOfEachMessage(names, Reports(byName, data), name);
  }
}
