/**
 * Small utilities of both library generations: response unwrapping
 * (solarwinds/utils.py and pysolarwinds/utils.py), numeric-string
 * sanitising of SWIS records, CamelCase to snake_case conversion and the
 * brace-free dictionary rendering used in log messages.
 */
module Utils {
  import opened Wrappers
  import opened PyValue
  import opened Text

  /** A decoded SWIS JSON response: only its "results" member is read. */
  type Response = map<string, seq<Props>>

  /** What the older `parse_response` hands back. */
  datatype Parsed = NoRows | OneRow(row: Props) | ManyRows(rows: seq<Props>)

  /** solarwinds/utils.py `parse_response`. */
  function LegacyParseResponse(response: Option<Response>): (r: Result<Parsed>)
    ensures response.None? ==> r == Ok(NoRows)
    ensures response.Some? && "results" !in response.value ==> r == Err(TypeError)
    ensures response.Some? && "results" in response.value ==>
      var rows := response.value["results"];
      && (r == Ok(NoRows) <==> |rows| == 0)
      && (r.Ok? && r.value.OneRow? <==> |rows| == 1)
      && (r.Ok? && r.value.OneRow? ==> r.value.row == rows[0])
      && (r.Ok? && r.value.ManyRows? <==> |rows| > 1)
      && (r.Ok? && r.value.ManyRows? ==> r.value.rows == rows)
  {
    match response
    case None => Ok(NoRows)
    case Some(resp) =>
      if "results" !in resp then Err(TypeError)
      else
        var rows := resp["results"];
        if |rows| == 0 then Ok(NoRows)
        else if |rows| == 1 then Ok(OneRow(rows[0]))
        else Ok(ManyRows(rows))
  }

  /** pysolarwinds/utils.py `parse_response`: a non-empty result list comes back whole. */
  function ParseResponse(response: Option<Response>): (r: Result<Option<seq<Props>>>)
    ensures (response.None? || |response.value| == 0) ==> r == Ok(None)
    ensures response.Some? && |response.value| > 0 && "results" !in response.value ==> r == Err(TypeError)
    ensures response.Some? && "results" in response.value ==>
      var rows := response.value["results"];
      && (|rows| == 0 ==> r == Ok(None))
      && (|rows| > 0 ==> r == Ok(Some(rows)))
  {
    match response
    case None => Ok(None)
    case Some(resp) =>
      if |resp| == 0 then Ok(None)
      else if "results" !in resp then Err(TypeError)
      else if |resp["results"]| == 0 then Ok(None)
      else Ok(Some(resp["results"]))
  }

  /**
   * The two generations differ only on a single row: the older one unwraps
   * it, the newer one returns the one-element list.
   */
  lemma ParseGenerationsOnOneRow(resp: Response)
    requires "results" in resp && |resp["results"]| == 1
    ensures LegacyParseResponse(Some(resp)) == Ok(OneRow(resp["results"][0]))
    ensures ParseResponse(Some(resp)) == Ok(Some([resp["results"][0]]))
  {
    assert resp["results"] == [resp["results"][0]];
  }

  /**
   * Text matched by `^\d+$`: digits, where `$` also matches before one
   * trailing newline.
   */
  predicate NumericText(s: string)
  {
    AllDigits(s) || (|s| >= 2 && s[|s| - 1] == '\n' && AllDigits(s[..|s| - 1]))
  }

  /** Python's `int(s)` on such a text (int ignores the trailing newline). */
  function NumericValue(s: string): nat
    requires NumericText(s)
  {
    if AllDigits(s) then DigitsValue(s) else DigitsValue(s[..|s| - 1])
  }

  function SanitizedValue(v: Value): (r: Value)
    ensures v.Str? && NumericText(v.s) ==> r == Int(NumericValue(v.s))
    ensures !(v.Str? && NumericText(v.s)) ==> r == v
  {
    if v.Str? && NumericText(v.s) then Int(NumericValue(v.s)) else v
  }

  /** The record after `sanitize_swdata`. */
  function Sanitized(m: Props): (r: Props)
    ensures r.Keys == m.Keys
    ensures forall k :: k in m ==> r[k] == SanitizedValue(m[k])
  {
    map k | k in m :: SanitizedValue(m[k])
  }

  /**
   * solarwinds/utils.py `sanitize_swdata`: overwrites, key by key, every
   * all-digit string with its integer value, and returns the dictionary.
   */
  method SanitizeSwdata(swdata: Props) returns (r: Props)
    ensures r == Sanitized(swdata)
  {
    r := swdata;
    var todo := swdata.Keys;
    while todo != {}
      invariant todo <= swdata.Keys
      invariant r.Keys == swdata.Keys
      invariant forall k :: k in r ==> r[k] == if k in todo then swdata[k] else SanitizedValue(swdata[k])
      decreases |todo|
    {
      var k :| k in todo;
      var v := r[k];
      if v.Str? && NumericText(v.s) {
        r := r[k := Int(NumericValue(v.s))];
      }
      todo := todo - {k};
    }
  }

  /** A sanitised record is left alone by a second pass. */
  lemma SanitizeIdempotent(m: Props)
    ensures Sanitized(Sanitized(m)) == Sanitized(m)
  {
  }

  // camel_to_snake: two left-to-right regular-expression substitutions followed by lower().

  /** Length of the run of lower-case letters at the start of `s`. */
  function LowerRun(s: string): (n: nat)
    ensures n <= |s|
    ensures forall i :: 0 <= i < n ==> IsLower(s[i])
    ensures n < |s| ==> !IsLower(s[n])
  {
    if s != [] && IsLower(s[0]) then 1 + LowerRun(s[1..]) else 0
  }

  /** `re.sub("(.)([A-Z][a-z]+)", r"\1_\2", s)`: `.` is any character but a newline. */
  function SplitWords(s: string): string
    decreases |s|
  {
    if |s| >= 3 && s[0] != '\n' && IsUpper(s[1]) && IsLower(s[2]) then
      var n := 2 + LowerRun(s[2..]);
      [s[0], '_'] + s[1..n] + SplitWords(s[n..])
    else if s == [] then []
    else [s[0]] + SplitWords(s[1..])
  }

  /** `re.sub("([a-z0-9])([A-Z])", r"\1_\2", s)`. */
  function SplitCaps(s: string): string
    decreases |s|
  {
    if |s| >= 2 && (IsLower(s[0]) || IsDigit(s[0])) && IsUpper(s[1]) then
      [s[0], '_', s[1]] + SplitCaps(s[2..])
    else if s == [] then []
    else [s[0]] + SplitCaps(s[1..])
  }

  /** solarwinds/utils.py `camel_to_snake`. */
  function CamelToSnake(name: string): string
  {
    Lower(SplitCaps(SplitWords(name)))
  }

  /** `s` with every underscore removed. */
  function Unscored(s: string): (r: string)
    ensures forall i :: 0 <= i < |r| ==> r[i] != '_'
  {
    if s == [] then [] else (if s[0] == '_' then [] else [s[0]]) + Unscored(s[1..])
  }

  lemma {:induction false} UnscoredAppend(a: string, b: string)
    ensures Unscored(a + b) == Unscored(a) + Unscored(b)
  {
    if a == [] {
      assert a + b == b;
    } else {
      assert (a + b)[0] == a[0];
      assert (a + b)[1..] == a[1..] + b;
      UnscoredAppend(a[1..], b);
    }
  }

  lemma {:induction false} UnscoredLower(s: string)
    ensures Unscored(Lower(s)) == Lower(Unscored(s))
  {
    if s != [] {
      assert Lower(s)[1..] == Lower(s[1..]);
      UnscoredLower(s[1..]);
      assert Lower([s[0]] + Unscored(s[1..])) == [LowerChar(s[0])] + Lower(Unscored(s[1..]));
    }
  }

  /** An underscore put after `c` is all one step of `SplitWords` adds. */
  lemma InsertUnderscore(c: char, head: string, x: string, y: string)
    requires Unscored(x) == Unscored(y)
    ensures Unscored([c, '_'] + head + x) == Unscored([c] + (head + y))
  {
    assert Unscored([c, '_']) == Unscored([c]) by {
      assert [c, '_'][1..] == ['_'];
      assert Unscored(['_']) == [];
    }
    UnscoredAround([c, '_'], [c], head, x, y);
  }

  lemma UnscoredJoin(a: string, b: string, a': string, b': string)
    requires Unscored(a) == a' && Unscored(b) == b'
    ensures Unscored(a + b) == a' + b'
  {
    UnscoredAppend(a, b);
  }

  /** Pieces with the same letters, joined around a common middle, have the same letters. */
  lemma UnscoredAround(p: string, q: string, head: string, x: string, y: string)
    requires Unscored(p) == Unscored(q) && Unscored(x) == Unscored(y)
    ensures Unscored(p + head + x) == Unscored(q + (head + y))
  {
    var a, h, t := Unscored(p), Unscored(head), Unscored(x);
    UnscoredJoin(p, head, a, h);
    UnscoredJoin(p + head, x, a + h, t);
    UnscoredJoin(head, y, h, t);
    UnscoredJoin(q, head + y, a, h + t);
    assert (a + h) + t == a + (h + t);
  }

  lemma {:induction false} SplitWordsOnlyAddsUnderscores(s: string)
    ensures Unscored(SplitWords(s)) == Unscored(s)
    decreases |s|
  {
    if |s| >= 3 && s[0] != '\n' && IsUpper(s[1]) && IsLower(s[2]) {
      var n := 2 + LowerRun(s[2..]);
      SplitWordsOnlyAddsUnderscores(s[n..]);
      InsertUnderscore(s[0], s[1..n], SplitWords(s[n..]), s[n..]);
      assert s == [s[0]] + (s[1..n] + s[n..]);
    } else if s != [] {
      SplitWordsOnlyAddsUnderscores(s[1..]);
      UnscoredAppend([s[0]], SplitWords(s[1..]));
      UnscoredAppend([s[0]], s[1..]);
      assert s == [s[0]] + s[1..];
    }
  }

  lemma {:induction false} SplitCapsOnlyAddsUnderscores(s: string)
    ensures Unscored(SplitCaps(s)) == Unscored(s)
    decreases |s|
  {
    if |s| >= 2 && (IsLower(s[0]) || IsDigit(s[0])) && IsUpper(s[1]) {
      assert s == [s[0], s[1]] + s[2..];
      assert Unscored(SplitCaps(s[2..])) == Unscored(s[2..]) by {
        SplitCapsOnlyAddsUnderscores(s[2..]);
      }
      assert Unscored([s[0], '_', s[1]]) == Unscored([s[0], s[1]]) by {
        assert [s[0], '_', s[1]] == [s[0]] + ['_', s[1]];
      }
      UnscoredAppend([s[0], '_', s[1]], SplitCaps(s[2..]));
      UnscoredAppend([s[0], s[1]], s[2..]);
    } else if s != [] {
      assert s == [s[0]] + s[1..];
      assert Unscored(SplitCaps(s[1..])) == Unscored(s[1..]) by {
        SplitCapsOnlyAddsUnderscores(s[1..]);
      }
      UnscoredAppend([s[0]], SplitCaps(s[1..]));
      UnscoredAppend([s[0]], s[1..]);
    }
  }

  /**
   * `camel_to_snake` only inserts underscores and lower-cases: deleting all
   * underscores from its result gives the lower-cased input without its
   * underscores. Its result holds no upper-case letter.
   */
  lemma CamelToSnakeShape(name: string)
    ensures Unscored(CamelToSnake(name)) == Lower(Unscored(name))
    ensures forall i :: 0 <= i < |CamelToSnake(name)| ==> !IsUpper(CamelToSnake(name)[i])
  {
    SplitWordsOnlyAddsUnderscores(name);
    SplitCapsOnlyAddsUnderscores(SplitWords(name));
    UnscoredLower(SplitCaps(SplitWords(name)));
  }

  /** Whether `camel_to_snake` puts an underscore between `a` and the `b` after it: a lower-case letter or digit before a capital. */
  predicate Breaks(a: char, b: char)
  {
    (IsLower(a) || IsDigit(a)) && IsUpper(b)
  }

  /** `s` with an underscore after each character that `Breaks` with the next one. */
  function UnderscoreBefore(s: string): (r: string)
    ensures |s| > 0 ==> |r| > 0 && r[0] == s[0]
  {
    if |s| < 2 then s
    else [s[0]] + (if Breaks(s[0], s[1]) then "_" else "") + UnderscoreBefore(s[1..])
  }

  /** Underscores placed in a joined text: those of each part, and one at the seam when the seam breaks. */
  lemma {:induction false} UnderscoreBeforeAppend(a: string, b: string)
    requires a != [] && b != []
    ensures UnderscoreBefore(a + b) ==
      UnderscoreBefore(a) + (if Breaks(a[|a| - 1], b[0]) then "_" else "") + UnderscoreBefore(b)
  {
    if |a| == 1 {
      assert (a + b)[1..] == b;
    } else {
      assert (a + b)[1..] == a[1..] + b;
      assert (a + b)[1] == a[1];
      UnderscoreBeforeAppend(a[1..], b);
    }
  }

  /** The second substitution of `camel_to_snake` puts its underscores exactly where `UnderscoreBefore` does. */
  lemma {:induction false} SplitCapsMeaning(s: string)
    ensures SplitCaps(s) == UnderscoreBefore(s)
    decreases |s|
  {
    if |s| >= 2 && (IsLower(s[0]) || IsDigit(s[0])) && IsUpper(s[1]) {
      SplitCapsMeaning(s[2..]);
      assert s[1..][1..] == s[2..];
      if |s| == 2 {
        assert s[2..] == [];
      }
    } else if |s| >= 2 {
      SplitCapsMeaning(s[1..]);
    }
  }

  /** A camel-case name: letters and digits only, never two capitals in a row. */
  predicate Camel(s: string)
  {
    && (forall i :: 0 <= i < |s| ==> IsLower(s[i]) || IsUpper(s[i]) || IsDigit(s[i]))
    && (forall i :: 0 <= i < |s| - 1 ==> !(IsUpper(s[i]) && IsUpper(s[i + 1])))
  }

  /** `SplitWords` keeps the first character. */
  lemma SplitWordsHead(s: string)
    requires s != []
    ensures SplitWords(s) != [] && SplitWords(s)[0] == s[0]
  {
  }

  /** A camel-case name stays one when its start is cut off. */
  lemma CamelSuffix(s: string, k: nat)
    requires Camel(s) && k <= |s|
    ensures Camel(s[k..])
  {
    var t := s[k..];
    forall i | 0 <= i < |t| - 1 ensures !(IsUpper(t[i]) && IsUpper(t[i + 1])) {
      assert t[i] == s[k + i] && t[i + 1] == s[k + i + 1];
    }
  }

  /** A word split off after `c` puts the underscore `UnderscoreBefore` puts there too. */
  lemma WordStep(c: char, m: string, rest: string, w: string)
    requires m != [] && Breaks(c, m[0])
    requires rest == [] <==> w == []
    requires rest != [] ==> w[0] == rest[0]
    requires UnderscoreBefore(w) == UnderscoreBefore(rest)
    ensures UnderscoreBefore([c, '_'] + (m + w)) == UnderscoreBefore([c] + (m + rest))
  {
    SameAfterWord(m, rest, w);
    UnderscoreKept(c, m + w);
    assert (m + rest)[0] == m[0];
    UnderscoreAdded(c, m + rest);
  }

  /** An underscore already written after `c` is kept, and no other is added there. */
  lemma UnderscoreKept(c: char, x: string)
    requires x != []
    ensures UnderscoreBefore([c, '_'] + x) == [c, '_'] + UnderscoreBefore(x)
  {
    ConsBefore('_', x);
    ConsBefore(c, ['_'] + x);
    assert [c, '_'] + x == [c] + (['_'] + x);
  }

  /** The underscore `UnderscoreBefore` adds after a character that breaks with the next. */
  lemma UnderscoreAdded(c: char, y: string)
    requires y != [] && Breaks(c, y[0])
    ensures UnderscoreBefore([c] + y) == [c, '_'] + UnderscoreBefore(y)
  {
    ConsBefore(c, y);
  }

  /** One character put in front of a non-empty text. */
  lemma ConsBefore(c: char, y: string)
    requires y != []
    ensures UnderscoreBefore([c] + y) == [c] + (if Breaks(c, y[0]) then "_" else "") + UnderscoreBefore(y)
  {
    assert ([c] + y)[1..] == y;
  }

  /** Texts that agree, after a common word. */
  lemma SameAfterWord(m: string, rest: string, w: string)
    requires m != []
    requires rest == [] <==> w == []
    requires rest != [] ==> w[0] == rest[0]
    requires UnderscoreBefore(w) == UnderscoreBefore(rest)
    ensures UnderscoreBefore(m + w) == UnderscoreBefore(m + rest)
  {
    if rest == [] {
      assert m + w == m && m + rest == m;
    } else {
      UnderscoreBeforeAppend(m, w);
      UnderscoreBeforeAppend(m, rest);
    }
  }

  /** A character kept as it is, before texts that agree. */
  lemma PlainStep(c: char, rest: string, w: string)
    requires rest != [] && w != [] && w[0] == rest[0]
    requires UnderscoreBefore(w) == UnderscoreBefore(rest)
    ensures UnderscoreBefore([c] + w) == UnderscoreBefore([c] + rest)
  {
    UnderscoreBeforeAppend([c], w);
    UnderscoreBeforeAppend([c], rest);
  }

  /** On a camel-case name the first substitution adds no underscore the second would not have added. */
  lemma {:induction false} SplitWordsInCamel(s: string)
    requires Camel(s)
    ensures UnderscoreBefore(SplitWords(s)) == UnderscoreBefore(s)
    decreases |s|
  {
    if WordAt(s) {
      var n := 2 + LowerRun(s[2..]);
      CamelSuffix(s, n);
      SplitWordsInCamel(s[n..]);
      CamelBreaks(s);
      WordCase(s);
    } else if |s| >= 2 {
      CamelSuffix(s, 1);
      SplitWordsInCamel(s[1..]);
      PlainCase(s);
    }
  }

  /** Whether `SplitWords` splits a word off at the start of `s`. */
  predicate WordAt(s: string)
  {
    |s| >= 3 && s[0] != '\n' && IsUpper(s[1]) && IsLower(s[2])
  }

  /** The step of `SplitWordsInCamel` where a word is split off. */
  lemma WordCase(s: string)
    requires WordAt(s) && Breaks(s[0], s[1])
    requires var n := 2 + LowerRun(s[2..]); UnderscoreBefore(SplitWords(s[n..])) == UnderscoreBefore(s[n..])
    ensures UnderscoreBefore(SplitWords(s)) == UnderscoreBefore(s)
  {
    var n := 2 + LowerRun(s[2..]);
    var m, rest := s[1..n], s[n..];
    var w := SplitWords(rest);
    assert s == [s[0]] + (m + rest);
    assert SplitWords(s) == [s[0], '_'] + (m + w) by {
      WordUnfold(s);
    }
    assert UnderscoreBefore([s[0], '_'] + (m + w)) == UnderscoreBefore([s[0]] + (m + rest)) by {
      if rest != [] {
        SplitWordsHead(rest);
      }
      assert m[0] == s[1];
      WordStep(s[0], m, rest, w);
    }
  }

  /** In a camel-case name, the character before a capital is a lower-case letter or a digit. */
  lemma CamelBreaks(s: string)
    requires Camel(s) && |s| >= 2 && IsUpper(s[1])
    ensures Breaks(s[0], s[1])
  {
    var a, b := s[0], s[1];
    assert IsLower(a) || IsUpper(a) || IsDigit(a);
    assert !(IsUpper(a) && IsUpper(b));
  }

  /** `SplitWords` on a text that starts with a word to split off. */
  lemma WordUnfold(s: string)
    requires WordAt(s)
    ensures var n := 2 + LowerRun(s[2..]); SplitWords(s) == [s[0], '_'] + (s[1..n] + SplitWords(s[n..]))
  {
    var n := 2 + LowerRun(s[2..]);
    assert [s[0], '_'] + s[1..n] + SplitWords(s[n..]) == [s[0], '_'] + (s[1..n] + SplitWords(s[n..]));
  }

  /** The step of `SplitWordsInCamel` where the first character is kept. */
  lemma PlainCase(s: string)
    requires |s| >= 2 && !WordAt(s)
    requires UnderscoreBefore(SplitWords(s[1..])) == UnderscoreBefore(s[1..])
    ensures UnderscoreBefore(SplitWords(s)) == UnderscoreBefore(s)
  {
    var rest := s[1..];
    SplitWordsHead(rest);
    assert SplitWords(s) == [s[0]] + SplitWords(rest);
    PlainStep(s[0], rest, SplitWords(rest));
    assert s == [s[0]] + rest;
  }

  /**
   * On a camel-case name, `camel_to_snake` lower-cases the name after
   * putting an underscore between each lower-case letter or digit and the
   * capital that follows it, and nowhere else.
   */
  lemma CamelToSnakeMeaning(name: string)
    requires Camel(name)
    ensures CamelToSnake(name) == Lower(UnderscoreBefore(name))
  {
    SplitCapsMeaning(SplitWords(name));
    SplitWordsInCamel(name);
  }

  // print_dict

  /**
   * Python's `repr` of a value. Strings are shown between single quotes
   * as they are, which is `repr` only for text that needs no escaping
   * (`Plain` below); for other text `repr` picks other quotes or escapes.
   */
  function ValueRepr(v: Value): string
  {
    match v
    case Null => "None"
    case Bool(b) => if b then "True" else "False"
    case Int(i) => IntText(i)
    case Str(s) => "'" + s + "'"
  }

  /** The text between the braces of `str(d)`, entries in insertion order. */
  function EntriesRepr(entries: seq<(string, Value)>): string
  {
    if entries == [] then ""
    else
      var head := "'" + entries[0].0 + "': " + ValueRepr(entries[0].1);
      if |entries| == 1 then head else head + ", " + EntriesRepr(entries[1..])
  }

  /** `str(d)` for the dictionary with these entries. */
  function DictRepr(entries: seq<(string, Value)>): string
  {
    "{" + EntriesRepr(entries) + "}"
  }

  predicate Decoration(c: char) { c == '{' || c == '}' || c == '\'' }

  function Undecorated(s: string): (r: string)
    ensures forall i :: 0 <= i < |r| ==> !Decoration(r[i])
  {
    if s == [] then [] else (if Decoration(s[0]) then [] else [s[0]]) + Undecorated(s[1..])
  }

  /** solarwinds/utils.py `print_dict`. */
  function PrintDict(entries: seq<(string, Value)>): (r: string)
    ensures forall i :: 0 <= i < |r| ==> !Decoration(r[i])
  {
    Undecorated(DictRepr(entries))
  }

  /** The plain rendering `k: v, k: v` of entries, values shown without quotes. */
  function PlainEntries(entries: seq<(string, Value)>): string
  {
    if entries == [] then ""
    else
      var head := entries[0].0 + ": " + PlainValue(entries[0].1);
      if |entries| == 1 then head else head + ", " + PlainEntries(entries[1..])
  }

  function PlainValue(v: Value): string
  {
    match v
    case Null => "None"
    case Bool(b) => if b then "True" else "False"
    case Int(i) => IntText(i)
    case Str(s) => s
  }

  /**
   * A character `repr` shows as itself and `print_dict` keeps: printable
   * ASCII other than a backslash, a brace or a single quote.
   */
  predicate PlainChar(c: char) { ' ' <= c <= '~' && c != '\\' && !Decoration(c) }

  predicate Plain(s: string) { forall i :: 0 <= i < |s| ==> PlainChar(s[i]) }

  predicate PlainEntry(e: (string, Value)) { Plain(e.0) && (e.1.Str? ==> Plain(e.1.s)) }

  lemma {:induction false} UndecoratedAppend(a: string, b: string)
    ensures Undecorated(a + b) == Undecorated(a) + Undecorated(b)
  {
    if a == [] {
      assert a + b == b;
    } else {
      assert (a + b)[0] == a[0];
      assert (a + b)[1..] == a[1..] + b;
      UndecoratedAppend(a[1..], b);
    }
  }

  lemma {:induction false} UndecoratedPlain(s: string)
    requires Plain(s)
    ensures Undecorated(s) == s
  {
    if s != [] {
      UndecoratedPlain(s[1..]);
      assert s == [s[0]] + s[1..];
    }
  }

  lemma UndecoratedValue(v: Value)
    requires v.Str? ==> Plain(v.s)
    ensures Undecorated(ValueRepr(v)) == PlainValue(v)
  {
    match v
    case Null =>
      PlainWords();
      UndecoratedPlain("None");
    case Bool(b) =>
      PlainWords();
      UndecoratedPlain("True");
      UndecoratedPlain("False");
    case Int(i) =>
      PlainNumber(i);
      UndecoratedPlain(IntText(i));
    case Str(s) =>
      UndecoratedAppend("'" + s, "'");
      UndecoratedAppend("'", s);
      UndecoratedPlain(s);
  }

  lemma PlainWords()
    ensures Plain("None") && Plain("True") && Plain("False")
  {
  }

  lemma PlainNumber(i: int)
    ensures Plain(IntText(i))
  {
    if i < 0 {
      assert IntText(i) == "-" + NatText(-i);
    }
  }

  /** One rendered entry `'k': v` loses its quotes. */
  lemma UndecoratedJoin(a: string, b: string, a': string, b': string)
    requires Undecorated(a) == a' && Undecorated(b) == b'
    ensures Undecorated(a + b) == a' + b'
  {
    UndecoratedAppend(a, b);
  }

  lemma UndecoratedEntry(k: string, v: Value)
    requires PlainEntry((k, v))
    ensures Undecorated("'" + k + "': " + ValueRepr(v)) == k + ": " + PlainValue(v)
  {
    var quote, sep := "'", "': ";
    assert Undecorated(quote) == [];
    assert Undecorated(quote + k) == k by {
      UndecoratedPlain(k);
      UndecoratedJoin(quote, k, [], k);
    }
    assert Undecorated(sep) == ": " by {
      UndecoratedPlain(": ");
      UndecoratedJoin(quote, ": ", [], ": ");
      assert sep == quote + ": ";
    }
    assert Undecorated(quote + k + sep) == k + ": " by {
      UndecoratedJoin(quote + k, sep, k, ": ");
    }
    assert Undecorated(ValueRepr(v)) == PlainValue(v) by {
      UndecoratedValue(v);
    }
    UndecoratedJoin(quote + k + sep, ValueRepr(v), k + ": ", PlainValue(v));
  }

  lemma {:induction false} UndecoratedEntries(entries: seq<(string, Value)>)
    requires forall i :: 0 <= i < |entries| ==> PlainEntry(entries[i])
    ensures Undecorated(EntriesRepr(entries)) == PlainEntries(entries)
  {
    if entries != [] {
      var k, v := entries[0].0, entries[0].1;
      assert PlainEntry(entries[0]);
      UndecoratedEntry(k, v);
      var head := "'" + k + "': " + ValueRepr(v);
      if |entries| > 1 {
        UndecoratedEntries(entries[1..]);
        UndecoratedAppend(head + ", ", EntriesRepr(entries[1..]));
        UndecoratedAppend(head, ", ");
        UndecoratedPlain(", ");
      }
    }
  }

  /**
   * For keys and string values of printable ASCII free of backslashes,
   * braces and single quotes, `print_dict` renders exactly `k: v` pairs
   * separated by ", ".
   */
  lemma PrintDictPlain(entries: seq<(string, Value)>)
    requires forall i :: 0 <= i < |entries| ==> PlainEntry(entries[i])
    ensures PrintDict(entries) == PlainEntries(entries)
  {
    var inner := EntriesRepr(entries);
    var plain := PlainEntries(entries);
    UndecoratedEntries(entries);
    BracesUndecorated();
    UndecoratedJoin("{", inner, [], plain);
    UndecoratedJoin("{" + inner, "}", plain, []);
    assert plain + [] == plain;
  }

  /** The braces of `str(d)` are removed. */
  lemma BracesUndecorated()
    ensures Undecorated("{") == [] && Undecorated("}") == []
  {
    assert "{"[1..] == [] && "}"[1..] == [];
  }
}
