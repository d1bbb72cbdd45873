/*
 * The `.page` file format (powerpages/sync.py:156-169 and 229-236): a JSON
 * metadata block with sorted keys, indented by two spaces, then the line
 * `## TEMPLATE SOURCE: ##`, then the raw template.  The JSON text is written
 * out here for the shape `json.dumps(..., indent=2, separators=(',', ': '))`
 * produces when every value is a string or null (ASCII output, `\uXXXX`
 * escapes), with a decoder for that shape.  The processor config is one
 * such string here, where the source writes its mapping as a nested object.
 */
module SyncCodec {
  import opened Outcomes
  import opened Strings
  import opened SyncFields

  const FILE_DELIMITER := "## TEMPLATE SOURCE: ##"
  const FILE_DELIMITER_LINE := "\n" + FILE_DELIMITER + "\n"

  /** The metadata keys in the order `sorted` puts them. */
  const META_KEYS: seq<string> :=
    ["alias", "description", "keywords", "page_processor", "page_processor_config", "title"]

  // ---------------------------------------------------------------------
  // Hexadecimal digits of `\uXXXX` escapes
  // ---------------------------------------------------------------------

  /** A lower-case hexadecimal digit, as `'{0:04x}'.format` writes it. */
  function HexDigit(d: nat): (c: char)
    requires d < 16
    ensures ' ' <= c <= '~'
  {
    if d < 10 then ('0' as int + d) as char else ('a' as int + d - 10) as char
  }

  /** The value of a hexadecimal digit of either case. */
  function HexValue(c: char): (r: Option<nat>)
    ensures r.Some? ==> r.value < 16
  {
    if '0' <= c <= '9' then Some(c as int - '0' as int)
    else if 'a' <= c <= 'f' then Some(c as int - 'a' as int + 10)
    else if 'A' <= c <= 'F' then Some(c as int - 'A' as int + 10)
    else None
  }

  lemma HexValueOfDigit(d: nat)
    requires d < 16
    ensures HexValue(HexDigit(d)) == Some(d)
  {
  }

  /** Four hexadecimal digits of a 16-bit value. */
  function Hex4(n: nat): (s: string)
    requires n < 0x10000
    ensures |s| == 4 && forall k :: 0 <= k < 4 ==> ' ' <= s[k] <= '~'
  {
    [HexDigit(n / 0x10 / 0x10 / 0x10), HexDigit(n / 0x10 / 0x10 % 0x10), HexDigit(n / 0x10 % 0x10), HexDigit(n % 0x10)]
  }

  /** The 16-bit value of four hexadecimal digits. */
  function ParseHex4(s: string): (r: Option<nat>)
    requires |s| >= 4
    ensures r.Some? ==> r.value < 0x10000
  {
    var d0 :- HexValue(s[0]);
    var d1 :- HexValue(s[1]);
    var d2 :- HexValue(s[2]);
    var d3 :- HexValue(s[3]);
    Some(((d0 * 0x10 + d1) * 0x10 + d2) * 0x10 + d3)
  }

  lemma Hex4Digits(n: nat)
    requires n < 0x10000
    ensures ((n / 0x10 / 0x10 / 0x10 * 0x10 + n / 0x10 / 0x10 % 0x10) * 0x10 + n / 0x10 % 0x10) * 0x10 + n % 0x10 == n
  {
    var q1 := n / 0x10;
    var q2 := q1 / 0x10;
    assert n == q1 * 0x10 + n % 0x10;
    assert q1 == q2 * 0x10 + q1 % 0x10;
    assert q2 == q2 / 0x10 * 0x10 + q2 % 0x10;
  }

  lemma ParseHex4Inverse(n: nat, rest: string)
    requires n < 0x10000
    ensures |Hex4(n) + rest| >= 4 && ParseHex4(Hex4(n) + rest) == Some(n)
  {
    var s := Hex4(n) + rest;
    HexValueOfDigit(n / 0x10 / 0x10 / 0x10);
    HexValueOfDigit(n / 0x10 / 0x10 % 0x10);
    HexValueOfDigit(n / 0x10 % 0x10);
    HexValueOfDigit(n % 0x10);
    assert s[0] == HexDigit(n / 0x10 / 0x10 / 0x10) && s[1] == HexDigit(n / 0x10 / 0x10 % 0x10);
    assert s[2] == HexDigit(n / 0x10 % 0x10) && s[3] == HexDigit(n % 0x10);
    Hex4Digits(n);
  }

  // ---------------------------------------------------------------------
  // JSON strings
  // ---------------------------------------------------------------------

  predicate IsSurrogate(v: int)
  {
    0xD800 <= v < 0xE000
  }

  /** A `\uXXXX` escape of a 16-bit value. */
  function UnicodeEscape(n: nat): (s: string)
    requires n < 0x10000
  {
    "\\u" + Hex4(n)
  }

  /**
   * How `json.dumps` (with `ensure_ascii`) writes one character: short
   * escapes for the quote, the backslash and five control characters, the
   * printable ASCII range as it is, and a `\uXXXX` escape (a surrogate pair
   * above U+FFFF) for everything else.
   */
  function EscapeChar(c: char): (s: string)
    ensures |s| >= 1 && s[0] != '"'
    ensures forall k :: 0 <= k < |s| ==> ' ' <= s[k] <= '~'
  {
    if c == '"' then "\\\""
    else if c == '\\' then "\\\\"
    else if c == '\n' then "\\n"
    else if c == '\r' then "\\r"
    else if c == '\t' then "\\t"
    else if c == '\U{8}' then "\\b"
    else if c == '\U{C}' then "\\f"
    else if ' ' <= c <= '~' then [c]
    else if c as int < 0x10000 then UnicodeEscape(c as int)
    else PairEscape(c)
  }

  /** The surrogate-pair escape of a character above U+FFFF. */
  function PairEscape(c: char): string
    requires c as int >= 0x10000
  {
    var v := c as int - 0x10000;
    UnicodeEscape(0xD800 + v / 0x400) + UnicodeEscape(0xDC00 + v % 0x400)
  }

  /** The body of a JSON string literal (without the quotes). */
  function EncodeString(s: string): (r: string)
    ensures forall k :: 0 <= k < |r| ==> ' ' <= r[k] <= '~'
  {
    if s == [] then [] else EscapeChar(s[0]) + EncodeString(s[1..])
  }

  /**
   * Decodes the four hexadecimal digits that follow `\u` at the start of
   * `s`, joining a high surrogate with an immediately following `\u` low
   * surrogate; a lone surrogate is refused, since it is not a character.
   * Gives the character and how many characters of `s` it used.
   */
  function DecodeUnicode(s: string): (r: Option<(char, nat)>)
    requires |s| >= 4
    ensures r.Some? ==> 4 <= r.value.1 <= |s|
  {
    var v :- ParseHex4(s);
    if 0xD800 <= v < 0xDC00 && |s| >= 10 && s[4] == '\\' && s[5] == 'u'
       && ParseHex4(s[6..]).Some? && 0xDC00 <= ParseHex4(s[6..]).value < 0xE000
    then
      Some(((0x10000 + (v - 0xD800) * 0x400 + (ParseHex4(s[6..]).value - 0xDC00)) as char, 10))
    else if IsSurrogate(v) then None
    else Some((v as char, 4))
  }

  /**
   * Decodes the escape sequence that starts `s`: the character and how many
   * characters of `s` it used.
   */
  function DecodeEscape(s: string): (r: Option<(char, nat)>)
    requires |s| >= 1 && s[0] == '\\'
    ensures r.Some? ==> 2 <= r.value.1 <= |s|
  {
    if |s| < 2 then None
    else if s[1] == '"' then Some(('"', 2))
    else if s[1] == '\\' then Some(('\\', 2))
    else if s[1] == '/' then Some(('/', 2))
    else if s[1] == 'b' then Some(('\U{8}', 2))
    else if s[1] == 'f' then Some(('\U{C}', 2))
    else if s[1] == 'n' then Some(('\n', 2))
    else if s[1] == 'r' then Some(('\r', 2))
    else if s[1] == 't' then Some(('\t', 2))
    else if s[1] == 'u' && |s| >= 6 then
      var (c, n) :- DecodeUnicode(s[2..]);
      Some((c, n + 2))
    else None
  }

  /**
   * The characters of a JSON string literal up to its closing quote, and the
   * text after that quote; None when the literal is not terminated or holds
   * an invalid escape or a raw control character.
   */
  function DecodeChars(s: string): (r: Option<(string, string)>)
    ensures r.Some? ==> |r.value.1| < |s|
    decreases |s|
  {
    if s == [] then None
    else if s[0] == '"' then Some(([], s[1..]))
    else if s[0] < ' ' then None
    else
      var (c, n) :- if s[0] == '\\' then DecodeEscape(s) else Some((s[0], 1));
      var (tail, rest) :- DecodeChars(s[n..]);
      Some(([c] + tail, rest))
  }

  /** The two halves of a surrogate pair, and the character they stand for. */
  lemma SurrogateHalves(c: char)
    requires c as int >= 0x10000
    ensures var v := c as int - 0x10000;
            var hi := 0xD800 + v / 0x400;
            var lo := 0xDC00 + v % 0x400;
            && 0xD800 <= hi < 0xDC00 && 0xDC00 <= lo < 0xE000
            && 0x10000 + (hi - 0xD800) * 0x400 + (lo - 0xDC00) == c as int
  {
  }

  lemma DecodePair(hi: nat, lo: nat, rest: string)
    requires 0xD800 <= hi < 0xDC00 && 0xDC00 <= lo < 0xE000
    ensures var s := Hex4(hi) + (UnicodeEscape(lo) + rest);
            |s| >= 10
            && DecodeUnicode(s) == Some(((0x10000 + (hi - 0xD800) * 0x400 + (lo - 0xDC00)) as char, 10))
  {
    var t := UnicodeEscape(lo) + rest;
    var s := Hex4(hi) + t;
    ParseHex4Inverse(hi, t);
    assert s[4..] == t;
    assert t[2..] == Hex4(lo) + rest;
    assert s[6..] == t[2..];
    ParseHex4Inverse(lo, rest);
  }

  lemma DecodeBmpEscape(c: char, rest: string)
    requires c as int < 0x10000 && !IsSurrogate(c as int)
    ensures var s := UnicodeEscape(c as int) + rest;
            |s| >= 6 && s[0] == '\\' && s[1] == 'u' && DecodeUnicode(s[2..]) == Some((c, 4))
  {
    var s := UnicodeEscape(c as int) + rest;
    assert s[2..] == Hex4(c as int) + rest;
    ParseHex4Inverse(c as int, rest);
  }

  lemma DecodeSurrogatePair(c: char, rest: string)
    requires c as int >= 0x10000
    ensures var s := PairEscape(c) + rest;
            |s| >= 12 && s[0] == '\\' && s[1] == 'u' && DecodeUnicode(s[2..]) == Some((c, 10))
  {
    var v := c as int - 0x10000;
    var hi := 0xD800 + v / 0x400;
    var lo := 0xDC00 + v % 0x400;
    SurrogateHalves(c);
    var u := UnicodeEscape(lo);
    assert PairEscape(c) == ("\\u" + Hex4(hi)) + u;
    Associative("\\u" + Hex4(hi), u, rest);
    Associative("\\u", Hex4(hi), u + rest);
    DropPrefix("\\u", Hex4(hi) + (u + rest));
    DecodePair(hi, lo, rest);
  }

  /** Decoding the escape of a character gives the character back. */
  lemma DecodeEscapeChar(c: char, rest: string)
    ensures var s := EscapeChar(c) + rest;
            s != [] && s[0] != '"' && s[0] >= ' '
            && (if s[0] == '\\' then DecodeEscape(s) else Some((s[0], 1))) == Some((c, |EscapeChar(c)|))
  {
    var e := EscapeChar(c);
    var s := e + rest;
    assert s[0] == e[0];
    if c == '"' || c == '\\' || c == '\n' || c == '\r' || c == '\t' || c == '\U{8}' || c == '\U{C}' {
      assert s[1] == e[1];
    } else if ' ' <= c <= '~' {
    } else if c as int < 0x10000 {
      DecodeBmpEscape(c, rest);
    } else {
      assert e == PairEscape(c);
      DecodeSurrogatePair(c, rest);
    }
  }

  /** A JSON string literal decodes to the string that was encoded. */
  lemma {:induction false} DecodeEncodeString(s: string, rest: string)
    ensures DecodeChars(EncodeString(s) + "\"" + rest) == Some((s, rest))
  {
    if s == [] {
      assert EncodeString(s) + "\"" + rest == "\"" + rest;
    } else {
      var e := EscapeChar(s[0]);
      var x := EncodeString(s) + "\"" + rest;
      assert x == e + (EncodeString(s[1..]) + "\"" + rest);
      DecodeEscapeChar(s[0], EncodeString(s[1..]) + "\"" + rest);
      assert x[|e|..] == EncodeString(s[1..]) + "\"" + rest;
      DecodeEncodeString(s[1..], rest);
      assert [s[0]] + s[1..] == s;
    }
  }

  // ---------------------------------------------------------------------
  // JSON values and the metadata object
  // ---------------------------------------------------------------------

  /** `null` or a string literal. */
  function EncodeValue(v: Option<string>): (r: string)
    ensures forall k :: 0 <= k < |r| ==> ' ' <= r[k] <= '~'
  {
    match v
    case None => "null"
    case Some(s) => "\"" + EncodeString(s) + "\""
  }

  /** The value that starts `s`, and the text after it. */
  function DecodeValue(s: string): (r: Option<(Option<string>, string)>)
  {
    if StartsWith(s, "null") then Some((None, s[4..]))
    else if s != [] && s[0] == '"' then
      var (body, rest) :- DecodeChars(s[1..]);
      Some((Some(body), rest))
    else None
  }

  lemma DecodeEncodeValue(v: Option<string>, rest: string)
    ensures DecodeValue(EncodeValue(v) + rest) == Some((v, rest))
  {
    var x := EncodeValue(v) + rest;
    match v
    case None =>
      assert x[..4] == "null" && x[4..] == rest;
    case Some(s) =>
      assert x[0] == '"';
      assert !StartsWith(x, "null");
      assert x[1..] == EncodeString(s) + "\"" + rest;
      DecodeEncodeString(s, rest);
  }

  /** The text that introduces one entry: a new line, two spaces, the key. */
  function EntryHead(key: string): string
  {
    "\n  \"" + key + "\": "
  }

  /**
   * The entries of the metadata object, one per line, separated by commas.
   * Keys are written as they are, which is their JSON form for plain keys.
   */
  function EncodeEntries(keys: seq<string>, vals: seq<Option<string>>): string
    requires |keys| == |vals| >= 1
    decreases |keys|
  {
    EntryHead(keys[0]) + (EncodeValue(vals[0])
    + (if |keys| == 1 then [] else "," + EncodeEntries(keys[1..], vals[1..])))
  }

  lemma Associative(a: string, b: string, c: string)
    ensures (a + b) + c == a + (b + c)
  {
  }

  lemma DropPrefix(a: string, b: string)
    ensures (a + b)[|a|..] == b
  {
  }

  /** `s` with `prefix` removed, if `s` starts with it. */
  function Expect(s: string, prefix: string): (r: Option<string>)
    ensures r.Some? ==> StartsWith(s, prefix) && r.value == s[|prefix|..]
  {
    if StartsWith(s, prefix) then Some(s[|prefix|..]) else None
  }

  lemma ExpectPrefix(prefix: string, rest: string)
    ensures Expect(prefix + rest, prefix) == Some(rest)
  {
    assert (prefix + rest)[..|prefix|] == prefix;
  }

  /** Reads one entry for the given key: its value and the text after it. */
  function DecodeEntry(key: string, s: string): (r: Option<(Option<string>, string)>)
  {
    var afterHead :- Expect(s, EntryHead(key));
    DecodeValue(afterHead)
  }

  lemma DecodeEncodeEntry(key: string, v: Option<string>, rest: string)
    ensures DecodeEntry(key, EntryHead(key) + (EncodeValue(v) + rest)) == Some((v, rest))
  {
    ExpectPrefix(EntryHead(key), EncodeValue(v) + rest);
    DecodeEncodeValue(v, rest);
  }

  /** Reads the entries for the given keys, in that order. */
  function DecodeEntries(keys: seq<string>, s: string): (r: Option<(seq<Option<string>>, string)>)
    requires |keys| >= 1
    ensures r.Some? ==> |r.value.0| == |keys|
    decreases |keys|
  {
    var first :- DecodeEntry(keys[0], s);
    if |keys| == 1 then Some(([first.0], first.1))
    else
      var afterComma :- Expect(first.1, ",");
      var more :- DecodeEntries(keys[1..], afterComma);
      Some(([first.0] + more.0, more.1))
  }

  lemma DecodeEncodeLastEntry(keys: seq<string>, vals: seq<Option<string>>, rest: string)
    requires |keys| == |vals| == 1
    ensures DecodeEntries(keys, EncodeEntries(keys, vals) + rest) == Some((vals, rest))
  {
    var head := EntryHead(keys[0]);
    var value := EncodeValue(vals[0]);
    assert EncodeEntries(keys, vals) == head + value;
    Associative(head, value, rest);
    DecodeEncodeEntry(keys[0], vals[0], rest);
    assert [vals[0]] == vals;
  }

  lemma DecodeEncodeNextEntry(keys: seq<string>, vals: seq<Option<string>>, rest: string)
    requires |keys| == |vals| >= 2
    requires DecodeEntries(keys[1..], EncodeEntries(keys[1..], vals[1..]) + rest) == Some((vals[1..], rest))
    ensures DecodeEntries(keys, EncodeEntries(keys, vals) + rest) == Some((vals, rest))
  {
    var more := EncodeEntries(keys[1..], vals[1..]) + rest;
    EncodeNextEntry(keys, vals, rest);
    DecodeEncodeEntry(keys[0], vals[0], "," + more);
    DecodeEntriesStep(keys, vals, EncodeEntries(keys, vals) + rest, more, rest);
  }

  /** An entry, a comma, then the entries of the remaining keys. */
  lemma DecodeEntriesStep(keys: seq<string>, vals: seq<Option<string>>, s: string, more: string, rest: string)
    requires |keys| == |vals| >= 2
    requires DecodeEntry(keys[0], s) == Some((vals[0], "," + more))
    requires DecodeEntries(keys[1..], more) == Some((vals[1..], rest))
    ensures DecodeEntries(keys, s) == Some((vals, rest))
  {
    ExpectPrefix(",", more);
    assert [vals[0]] + vals[1..] == vals;
  }

  /** The encoding of two or more entries, followed by `rest`, regrouped around the first. */
  lemma EncodeNextEntry(keys: seq<string>, vals: seq<Option<string>>, rest: string)
    requires |keys| == |vals| >= 2
    ensures EncodeEntries(keys, vals) + rest ==
            EntryHead(keys[0]) + (EncodeValue(vals[0]) + ("," + (EncodeEntries(keys[1..], vals[1..]) + rest)))
  {
    var head := EntryHead(keys[0]);
    var value := EncodeValue(vals[0]);
    var more := EncodeEntries(keys[1..], vals[1..]);
    assert EncodeEntries(keys, vals) == head + (value + ("," + more));
    Associative(head, value + ("," + more), rest);
    Associative(value, "," + more, rest);
    Associative(",", more, rest);
  }

  lemma {:induction false} DecodeEncodeEntries(keys: seq<string>, vals: seq<Option<string>>, rest: string)
    requires |keys| == |vals| >= 1
    ensures DecodeEntries(keys, EncodeEntries(keys, vals) + rest) == Some((vals, rest))
    decreases |keys|
  {
    if |keys| == 1 {
      DecodeEncodeLastEntry(keys, vals, rest);
    } else {
      DecodeEncodeEntries(keys[1..], vals[1..], rest);
      DecodeEncodeNextEntry(keys, vals, rest);
    }
  }

  /** The metadata values, in the order of META_KEYS. */
  function MetaValues(f: Fields): (vals: seq<Option<string>>)
    ensures |vals| == |META_KEYS|
  {
    [f.alias, Some(f.description), Some(f.keywords), Some(f.pageProcessor), f.pageProcessorConfig, Some(f.title)]
  }

  /** `json.dumps` of the sorted metadata (sync.py:160-166). */
  function EncodeMeta(f: Fields): string
  {
    "{" + EncodeEntries(META_KEYS, MetaValues(f)) + "\n}"
  }

  /**
   * `json.loads` of metadata in the layout EncodeMeta writes; any other text
   * is refused.  The template is not part of the metadata.
   */
  function DecodeMeta(s: string): (r: Option<RawFields>)
    ensures r.Some? ==> r.value.template.None?
  {
    var body :- Expect(s, "{");
    var (vals, rest) :- DecodeEntries(META_KEYS, body);
    if rest == "\n}" then
      Some(RawFields(alias := vals[0], title := vals[5], description := vals[1], keywords := vals[2],
                     template := None, pageProcessor := vals[3], pageProcessorConfig := vals[4]))
    else None
  }

  lemma DecodeEncodeMeta(f: Fields)
    ensures DecodeMeta(EncodeMeta(f)) == Some(ToRaw(f).(template := None))
  {
    var entries := EncodeEntries(META_KEYS, MetaValues(f));
    assert EncodeMeta(f) == "{" + (entries + "\n}");
    ExpectPrefix("{", entries + "\n}");
    DecodeEncodeEntries(META_KEYS, MetaValues(f), "\n}");
  }

  // ---------------------------------------------------------------------
  // The delimiter line cannot occur inside the metadata
  // ---------------------------------------------------------------------

  /** Every new line of `s` is followed, inside `s`, by a character other than '#'. */
  predicate NewlinesGuarded(s: string)
  {
    forall k :: 0 <= k < |s| && s[k] == '\n' ==> k + 1 < |s| && s[k + 1] != '#'
  }

  lemma GuardedConcat(a: string, b: string)
    requires NewlinesGuarded(a) && NewlinesGuarded(b)
    ensures NewlinesGuarded(a + b)
  {
    var x := a + b;
    forall k | 0 <= k < |x| && x[k] == '\n'
      ensures k + 1 < |x| && x[k + 1] != '#'
    {
      if k < |a| {
        assert a[k] == '\n';
      } else {
        assert b[k - |a|] == '\n';
      }
    }
  }

  lemma PrintableGuarded(s: string)
    requires forall k :: 0 <= k < |s| ==> ' ' <= s[k] <= '~'
    ensures NewlinesGuarded(s)
  {
  }

  lemma {:induction false} EntriesGuarded(keys: seq<string>, vals: seq<Option<string>>)
    requires |keys| == |vals| >= 1
    requires forall i :: 0 <= i < |keys| ==> '\n' !in keys[i]
    ensures NewlinesGuarded(EncodeEntries(keys, vals))
    decreases |keys|
  {
    var head := EntryHead(keys[0]);
    assert head == "\n " + (" \"" + keys[0] + "\": ");
    assert NewlinesGuarded(" \"" + keys[0] + "\": ") by {
      var t := " \"" + keys[0] + "\": ";
      forall k | 0 <= k < |t|
        ensures t[k] != '\n'
      {
        if 2 <= k < 2 + |keys[0]| {
          assert t[k] == keys[0][k - 2];
        }
      }
    }
    GuardedConcat("\n ", " \"" + keys[0] + "\": ");
    PrintableGuarded(EncodeValue(vals[0]));
    GuardedConcat(head, EncodeValue(vals[0]));
    if |keys| > 1 {
      EntriesGuarded(keys[1..], vals[1..]);
      GuardedConcat(",", EncodeEntries(keys[1..], vals[1..]));
      GuardedConcat(head + EncodeValue(vals[0]), "," + EncodeEntries(keys[1..], vals[1..]));
    } else {
      assert head + EncodeValue(vals[0]) + [] == head + EncodeValue(vals[0]);
    }
  }

  lemma MetaKeysSingleLine()
    ensures forall i :: 0 <= i < |META_KEYS| ==> '\n' !in META_KEYS[i]
  {
    assert META_KEYS[0] == "alias" && META_KEYS[1] == "description" && META_KEYS[2] == "keywords";
    assert META_KEYS[3] == "page_processor" && META_KEYS[4] == "page_processor_config";
    assert META_KEYS[5] == "title";
  }

  lemma MetaGuarded(f: Fields)
    ensures NewlinesGuarded(EncodeMeta(f))
  {
    var entries := EncodeEntries(META_KEYS, MetaValues(f));
    MetaKeysSingleLine();
    EntriesGuarded(META_KEYS, MetaValues(f));
    GuardedConcat("{", entries);
    assert NewlinesGuarded("\n}");
    GuardedConcat("{" + entries, "\n}");
  }

  /** In `e + FILE_DELIMITER_LINE + t`, the first delimiter line is the one after `e`. */
  lemma FirstDelimiter(e: string, t: string)
    requires NewlinesGuarded(e)
    ensures Find(e + FILE_DELIMITER_LINE + t, FILE_DELIMITER_LINE) == Some(|e|)
  {
    var x := e + FILE_DELIMITER_LINE + t;
    var d := FILE_DELIMITER_LINE;
    assert x[|e|..|e| + |d|] == d;
    forall k | 0 <= k < |e|
      ensures !OccursAt(x, d, k)
    {
      assert d[0] == '\n' && d[1] == '#';
      if e[k] == '\n' {
        assert x[k + 1] == e[k + 1] != '#';
      } else {
        assert x[k] == e[k];
      }
    }
    assert OccursAt(x, d, |e|);
  }

  // ---------------------------------------------------------------------
  // File contents
  // ---------------------------------------------------------------------

  /** `PageFileDumper.dump(page_fields)` (sync.py:156-169). */
  function Dump(f: Fields): string
  {
    EncodeMeta(f) + FILE_DELIMITER_LINE + f.template
  }

  /**
   * `FilePageLoader.load(file_contents)` (sync.py:229-236): split at the
   * first delimiter line only; None stands for the ValueError raised when
   * there is no delimiter or the metadata does not decode.
   */
  function Load(text: string): (r: Option<RawFields>)
    ensures r.Some? ==> r.value.template.Some?
    ensures (forall k :: 0 <= k <= |text| ==> !OccursAt(text, FILE_DELIMITER_LINE, k)) ==> r.None?
  {
    match Find(text, FILE_DELIMITER_LINE)
    case None => None
    case Some(k) =>
      var meta :- DecodeMeta(text[..k]);
      Some(meta.(template := Some(text[k + |FILE_DELIMITER_LINE|..])))
  }

  /** Text made of guarded metadata, the delimiter line and a template splits there. */
  lemma LoadSplit(e: string, t: string)
    requires NewlinesGuarded(e)
    ensures Load(e + FILE_DELIMITER_LINE + t)
         == (match DecodeMeta(e)
             case None => None
             case Some(meta) => Some(meta.(template := Some(t))))
  {
    var x := e + FILE_DELIMITER_LINE + t;
    FirstDelimiter(e, t);
    assert x[..|e|] == e;
    assert x[|e| + |FILE_DELIMITER_LINE|..] == t;
  }

  /**
   * Loading dumped fields gives exactly those fields back, whatever the
   * template holds (the delimiter line included).
   */
  lemma LoadDump(f: Fields)
    ensures Load(Dump(f)) == Some(ToRaw(f))
  {
    MetaGuarded(f);
    LoadSplit(EncodeMeta(f), f.template);
    DecodeEncodeMeta(f);
  }

  /** `normalize(load(dump(F))) == F` for normalised F. */
  lemma LoadDumpNormal(f: Fields)
    requires IsNormal(f)
    ensures Load(Dump(f)).Some? && Normalize(Load(Dump(f)).value) == f
  {
    LoadDump(f);
    NormalFieldsFixed(f);
  }
}
