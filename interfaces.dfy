/**
 * The interfaces of a node, as the newest entity layer keeps them
 * (`InterfaceList` of pysolarwinds/entities/orion/interfaces.py), together
 * with what the older endpoint lists share with it: interface objects,
 * the abbreviated-name lookup, `list.remove`-style deletion and the
 * records found by SNMP discovery.
 */
module Interfaces {
  import opened Wrappers
  import opened PyValue
  import opened Transport
  import opened Lists
  import Text

  // ---------------------------------------------------------------------
  // Python conversions used by the interface properties
  // ---------------------------------------------------------------------

  /**
   * The digits of an integer literal as `int` reads them: decimal digits,
   * with single underscores allowed between two digits.
   */
  predicate Numeral(d: string)
  {
    && d != [] && Text.IsDigit(d[0]) && NumeralChars(d)
    && forall i :: 0 <= i < |d| && d[i] == '_' ==> i + 1 < |d| && Text.IsDigit(d[i + 1])
  }

  predicate NumeralChars(d: string)
  {
    forall i :: 0 <= i < |d| ==> Text.IsDigit(d[i]) || d[i] == '_'
  }

  /** The digits of a numeral, its underscores left out. */
  function NumeralDigits(d: string): (r: string)
    requires NumeralChars(d)
    ensures forall i :: 0 <= i < |r| ==> Text.IsDigit(r[i])
  {
    if d == [] then []
    else (if d[0] == '_' then [] else [d[0]]) + NumeralDigits(d[1..])
  }

  /** A numeral without underscores is its own digits. */
  lemma {:induction false} PlainNumeral(d: string)
    requires forall i :: 0 <= i < |d| ==> Text.IsDigit(d[i])
    ensures NumeralDigits(d) == d
    decreases |d|
  {
    if d != [] {
      assert forall i :: 0 <= i < |d[1..]| ==> Text.IsDigit(d[1..][i]);
      PlainNumeral(d[1..]);
    }
  }

  /**
   * Python's `int(t)` on stripped ASCII text: an optional sign followed by
   * a numeral; anything else is a ValueError.
   */
  function IntOfText(t: string): (r: Result<int>)
    ensures r.Err? ==> r.error == ValueError
    ensures Text.AllDigits(t) ==> r == Ok(Text.DigitsValue(t))
    ensures r.Ok? ==> t != [] && var d := if t[0] == '+' || t[0] == '-' then t[1..] else t;
      Numeral(d) && r.value == if t[0] == '-' then -(Text.DigitsValue(NumeralDigits(d)) as int) else Text.DigitsValue(NumeralDigits(d))
  {
    var d := if t != [] && (t[0] == '+' || t[0] == '-') then t[1..] else t;
    if Text.AllDigits(t) then PlainNumeral(t); Ok(Text.DigitsValue(t))
    else if Numeral(d) then
      var n: int := Text.DigitsValue(NumeralDigits(d));
      Ok(if t[0] == '-' then -n else n)
    else Err(ValueError)
  }

  /**
   * Python's `int(v)`: booleans are 0 and 1, text is stripped of
   * whitespace first, None is a TypeError and any other failure a
   * ValueError.
   */
  function IntOf(v: Value): (r: Result<int>)
    ensures v.Int? ==> r == Ok(v.i)
    ensures v.Null? <==> r == Err(TypeError)
    ensures v.Str? ==> r == IntOfText(Text.Strip(v.s))
    ensures v.Str? && Text.AllDigits(v.s) ==> r == Ok(Text.DigitsValue(v.s))
    ensures r.Err? && !v.Null? ==> r.error == ValueError
  {
    match v
    case Null => Err(TypeError)
    case Bool(b) => Ok(if b then 1 else 0)
    case Int(i) => Ok(i)
    case Str(s) =>
      if Text.AllDigits(s) then
        DigitsUnstripped(s);
        IntOfText(Text.Strip(s))
      else IntOfText(Text.Strip(s))
  }

  lemma Digits161()
    ensures Text.AllDigits("161") && Text.DigitsValue("161") == 161
  {
    assert "161"[..2] == "16" && "16"[..1] == "1" && "1"[..0] == "";
  }

  /** `int(" 161 ")`: whitespace around the digits is stripped. */
  lemma IntOfSpaced()
    ensures IntOf(Str(" 161 ")) == Ok(161)
  {
    Digits161();
    assert Text.StripLeft(" 161 ") == "161 ";
    assert "161 "[..3] == "161";
    assert Text.Strip(" 161 ") == "161";
  }

  /** `int("+" + d)` and `int("-" + d)` for a digit text `d`: the sign is read. */
  lemma IntOfSignedText(d: string)
    requires Text.AllDigits(d)
    ensures IntOfText("+" + d) == Ok(Text.DigitsValue(d))
    ensures IntOfText("-" + d) == Ok(-(Text.DigitsValue(d) as int))
  {
    PlainNumeral(d);
    var p, m := "+" + d, "-" + d;
    assert p[0] == '+' && p[1..] == d;
    assert m[0] == '-' && m[1..] == d;
  }

  /** Leaving the underscores out of two numeral pieces one after the other. */
  lemma {:induction false} NumeralDigitsAppend(x: string, y: string)
    requires NumeralChars(x) && NumeralChars(y)
    ensures NumeralChars(x + y)
    ensures NumeralDigits(x + y) == NumeralDigits(x) + NumeralDigits(y)
    decreases |x|
  {
    if x != [] {
      assert (x + y)[0] == x[0];
      assert (x + y)[1..] == x[1..] + y;
      assert NumeralChars(x[1..]);
      NumeralDigitsAppend(x[1..], y);
      var h := if x[0] == '_' then [] else [x[0]];
      calc {
        NumeralDigits(x + y);
        h + NumeralDigits((x + y)[1..]);
        h + (NumeralDigits(x[1..]) + NumeralDigits(y));
        (h + NumeralDigits(x[1..])) + NumeralDigits(y);
        NumeralDigits(x) + NumeralDigits(y);
      }
    } else {
      assert x + y == y;
    }
  }

  /** `int(a + "_" + b)` for digit texts `a` and `b`: the underscore is skipped. */
  lemma IntOfUnderscoredText(a: string, b: string)
    requires Text.AllDigits(a) && Text.AllDigits(b)
    ensures IntOfText(a + "_" + b) == Ok(Text.DigitsValue(a + b))
  {
    var t := a + "_" + b;
    assert !Text.AllDigits(t) by { assert t[|a|] == '_'; }
    UnderscoreBetween(a, b);
    assert t[0] != '+' && t[0] != '-' by { assert t[0] == a[0]; }
    UnderscoreDigits(a, b);
  }

  lemma UnderscoreDigits(a: string, b: string)
    requires Text.AllDigits(a) && Text.AllDigits(b)
    ensures NumeralChars(a + "_" + b) && NumeralDigits(a + "_" + b) == a + b
  {
    assert NumeralChars(a) && NumeralChars(b) && NumeralChars("_");
    NumeralDigitsAppend(a, "_");
    NumeralDigitsAppend(a + "_", b);
    assert NumeralDigits("_") == [];
    PlainNumeral(a);
    PlainNumeral(b);
  }

  lemma UnderscoreBetween(a: string, b: string)
    requires Text.AllDigits(a) && Text.AllDigits(b)
    ensures Numeral(a + "_" + b)
  {
    var t := a + "_" + b;
    forall i | 0 <= i < |t|
      ensures Text.IsDigit(t[i]) || (t[i] == '_' && i + 1 < |t| && Text.IsDigit(t[i + 1]))
    {
      if i < |a| {
        assert t[i] == a[i];
      } else if i > |a| {
        assert t[i] == b[i - |a| - 1];
      } else {
        assert t[i + 1] == b[0];
      }
    }
  }

  /** `int(d + "__" + e)`: two underscores in a row are refused. */
  lemma IntOfDoubleUnderscore(a: string, b: string)
    requires Text.AllDigits(a) && Text.AllDigits(b)
    ensures IntOfText(a + "__" + b) == Err(ValueError)
  {
    var t := a + "__" + b;
    assert t[|a|] == '_' && t[|a| + 1] == '_';
  }

  /** Stripping text that starts and ends with something other than whitespace keeps it. */
  lemma Unstripped(t: string)
    requires t != [] && !Text.IsSpace(t[0]) && !Text.IsSpace(t[|t| - 1])
    ensures Text.Strip(t) == t
  {
    assert Text.StripLeft(t) == t;
    assert Text.StripRight(t) == t;
  }

  lemma DigitsUnstripped(s: string)
    requires Text.AllDigits(s)
    ensures Text.Strip(s) == s
  {
    assert Text.IsDigit(s[0]) && Text.IsDigit(s[|s| - 1]);
    Unstripped(s);
  }

  /** `int(str(i)) == i`: the decimal text of an integer converts back to it. */
  lemma IntTextRoundTrip(i: int)
    ensures IntOf(Str(Text.IntText(i))) == Ok(i)
  {
    var t := Text.IntText(i);
    if i < 0 {
      var d := Text.NatText(-i);
      assert t == "-" + d;
      assert Text.IsDigit(t[|t| - 1]);
      Unstripped(t);
      assert !Text.IsDigit(t[0]);
      assert t[1..] == d;
      IntOfSignedText(d);
      assert IntOfText(Text.Strip(t)) == Ok(i);
    } else {
      assert Text.AllDigits(t);
    }
  }

  // ---------------------------------------------------------------------
  // Interfaces
  // ---------------------------------------------------------------------

  /**
   * A monitored interface. Its record, URI and name are read once; the
   * name is an error when the record cannot supply one. Python objects
   * without `__eq__` compare by identity, as Dafny objects do.
   */
  class Iface {
    const data: Props
    const uri: Value
    const name: Result<string>

    constructor (data: Props, uri: Value, name: Result<string>)
      ensures this.data == data && this.uri == uri && this.name == name
    {
      this.data := data;
      this.uri := uri;
      this.name := name;
    }
  }

  /**
   * The `name` of an entity interface, `data["Name"]`, as the lookups use
   * it: a missing key is a KeyError and a value that is not text has no
   * `lower`.
   */
  function RecordName(data: Props): (r: Result<string>)
    ensures r.Ok? <==> "Name" in data && data["Name"].Str?
    ensures r.Ok? ==> r.value == data["Name"].s
    ensures "Name" !in data ==> r == Err(KeyError)
  {
    if "Name" !in data then Err(KeyError)
    else if !data["Name"].Str? then Err(AttributeError)
    else Ok(data["Name"].s)
  }

  /**
   * Why an interface cannot be built from a fetched record: an empty
   * record identifies nothing (ValueError), and the id is
   * `int(data["InterfaceID"])`.
   */
  function RecordError(data: Props): (r: Option<Error>)
    ensures data == map[] ==> r == Some(ValueError)
    ensures data != map[] && "InterfaceID" !in data ==> r == Some(KeyError)
    ensures r.None? <==> data != map[] && "InterfaceID" in data && IntOf(data["InterfaceID"]).Ok?
  {
    if data == map[] then Some(ValueError)
    else if "InterfaceID" !in data then Some(KeyError)
    else match IntOf(data["InterfaceID"])
      case Err(e) => Some(e)
      case Ok(_) => None
  }

  /** The duplex names by `DuplexMode`: not applicable, then unknown, half and full. */
  const DuplexNames: seq<Value> := [Null, Str("unknown"), Str("half"), Str("full")]

  /**
   * `duplex`: `DuplexMode` indexes the duplex names, Python-style (a
   * negative mode counts from the end, a boolean is 0 or 1); a missing
   * mode is a KeyError, a mode out of range an IndexError and a mode that
   * is not an integer a TypeError.
   */
  function Duplex(data: Props): (r: Result<Value>)
    ensures "DuplexMode" !in data ==> r == Err(KeyError)
    ensures "DuplexMode" in data && data["DuplexMode"].Int? && 0 <= data["DuplexMode"].i < 4 ==>
      r == Ok(DuplexNames[data["DuplexMode"].i])
    ensures "DuplexMode" in data && data["DuplexMode"].Int? && -4 <= data["DuplexMode"].i < 0 ==>
      r == Ok(DuplexNames[data["DuplexMode"].i + 4])
    ensures "DuplexMode" in data && data["DuplexMode"].Int? && !(-4 <= data["DuplexMode"].i < 4) ==>
      r == Err(IndexError)
    ensures "DuplexMode" in data && (data["DuplexMode"].Null? || data["DuplexMode"].Str?) ==> r == Err(TypeError)
    ensures r.Ok? ==> r.value in DuplexNames
  {
    if "DuplexMode" !in data then Err(KeyError)
    else
      match data["DuplexMode"]
      case Null => Err(TypeError)
      case Str(_) => Err(TypeError)
      case Bool(b) => Ok(DuplexNames[if b then 1 else 0])
      case Int(i) =>
        var p := PyIndex(i, |DuplexNames|);
        if p.Some? then Ok(DuplexNames[p.value]) else Err(IndexError)
  }

  /** The interface built from one fetched record, with its URI from the record's "Uri". */
  method NewInterface(data: Props) returns (r: Result<Iface>)
    ensures RecordError(data).Some? ==> r == Err(RecordError(data).value)
    ensures RecordError(data).None? ==> r.Ok? && fresh(r.value)
    ensures r.Ok? ==> r.value.data == data && r.value.uri == Get(data, "Uri") && r.value.name == RecordName(data)
  {
    var e := RecordError(data);
    if e.Some? {
      return Err(e.value);
    }
    var i := new Iface(data, Get(data, "Uri"), RecordName(data));
    return Ok(i);
  }

  /** The interfaces are the fetched records, one each, in order. */
  predicate BuiltFrom(ifaces: seq<Iface>, rows: seq<Props>)
  {
    && |ifaces| == |rows|
    && forall i :: 0 <= i < |rows| ==>
        ifaces[i].data == rows[i] && ifaces[i].uri == Get(rows[i], "Uri") && ifaces[i].name == RecordName(rows[i])
  }

  /**
   * The list after a `fetch` that read `rows`, from the list `before`: built
   * from the records when there are some and every one builds an
   * interface, otherwise (no records, or one that fails) the list kept.
   */
  predicate Refetched(before: seq<Iface>, rows: seq<Props>, after: seq<Iface>)
  {
    if rows != [] && forall i :: 0 <= i < |rows| ==> RecordError(rows[i]).None?
    then BuiltFrom(after, rows)
    else after == before
  }

  /** `swis.delete([x.uri for x in ifaces])`: the URIs sent, as text. */
  function Uris(ifaces: seq<Iface>): (r: seq<string>)
    ensures |r| == |ifaces| && forall i :: 0 <= i < |ifaces| ==> r[i] == StrOf(ifaces[i].uri)
  {
    seq(|ifaces|, i requires 0 <= i < |ifaces| => StrOf(ifaces[i].uri))
  }

  /** The query for a node's monitored interfaces. */
  function ListQuery(nodeId: Value): Query
  {
    Query("Orion.NPM.Interfaces", [("NodeID", nodeId)])
  }

  // ---------------------------------------------------------------------
  // Abbreviated names
  // ---------------------------------------------------------------------

  /** A character of the class `[a-z\-]`. */
  predicate IsWordChar(c: char) { 'a' <= c <= 'z' || c == '-' }

  /** A character of the class `[\d\/\:]`. */
  predicate IsPortChar(c: char) { '0' <= c <= '9' || c == '/' || c == ':' }

  predicate AllWord(s: string) { forall i :: 0 <= i < |s| ==> IsWordChar(s[i]) }

  predicate AllPort(s: string) { forall i :: 0 <= i < |s| ==> IsPortChar(s[i]) }

  /** The length of the longest prefix of word characters. */
  function WordRun(s: string): (k: nat)
    ensures k <= |s| && AllWord(s[..k])
    ensures k < |s| ==> !IsWordChar(s[k])
  {
    if s == [] || !IsWordChar(s[0]) then 0
    else
      var k := 1 + WordRun(s[1..]);
      assert s[..k] == [s[0]] + s[1..][..k - 1];
      k
  }

  /** A split point other than the end of the longest word prefix cannot split `a`. */
  lemma NoSplitAt(a: string, j: nat)
    requires 0 < j < |a| && j != WordRun(a)
    ensures !(AllWord(a[..j]) && AllPort(a[j..]))
  {
    var k := WordRun(a);
    if j < k {
      assert a[..k][j] == a[j];
      assert IsWordChar(a[j]) && !IsPortChar(a[j]);
      assert a[j..][0] == a[j];
    } else {
      assert !IsWordChar(a[k]);
      assert a[..j][k] == a[k];
    }
  }

  /** When the longest word prefix does not split `a`, no other split does either. */
  lemma NoOtherSplit(a: string)
    requires var k := WordRun(a); !(0 < k < |a| && AllPort(a[k..]))
    ensures forall j | 0 < j < |a| :: !(AllWord(a[..j]) && AllPort(a[j..]))
  {
    forall j | 0 < j < |a|
      ensures !(AllWord(a[..j]) && AllPort(a[j..]))
    {
      if j != WordRun(a) {
        NoSplitAt(a, j);
      }
    }
  }

  /**
   * The text before the end that Python's `$` matches: `$` also matches
   * just before one final newline.
   */
  function Chomped(s: string): (r: string)
    ensures s == r || s == r + "\n"
    ensures s != [] && s[|s| - 1] == '\n' ==> r == s[..|s| - 1]
    ensures !(s != [] && s[|s| - 1] == '\n') ==> r == s
  {
    if s != [] && s[|s| - 1] == '\n' then s[..|s| - 1] else s
  }

  /** The split of `a` into a word run and a port run, when there is one. */
  function Split(a: string): (r: Option<(string, string)>)
    ensures r.Some? ==>
      && a == r.value.0 + r.value.1
      && r.value.0 != [] && r.value.1 != [] && AllWord(r.value.0) && AllPort(r.value.1)
    ensures r.None? ==> forall j | 0 < j < |a| :: !(AllWord(a[..j]) && AllPort(a[j..]))
  {
    var k := WordRun(a);
    if 0 < k < |a| && AllPort(a[k..]) then
      assert a == a[..k] + a[k..];
      Some((a[..k], a[k..]))
    else
      NoOtherSplit(a);
      None
  }

  /**
   * The two groups of `^([a-z\-]+)([\d\/\:]+)$` in the lower-cased
   * abbreviation, or None when it does not have that shape. The two
   * classes share no character, so the split is unique; one final newline
   * may follow the second group.
   */
  function AbbrParts(abbr: string): (r: Option<(string, string)>)
    ensures r.Some? ==>
      && (Text.Lower(abbr) == r.value.0 + r.value.1 || Text.Lower(abbr) == r.value.0 + r.value.1 + "\n")
      && r.value.0 != [] && r.value.1 != [] && AllWord(r.value.0) && AllPort(r.value.1)
    ensures r.None? ==>
      var a := Text.Lower(abbr);
      forall j | 0 < j < |a| :: !(AllWord(a[..j]) && AllPort(a[j..]))
    ensures r.None? && Text.Lower(abbr) != [] && Text.Lower(abbr)[|abbr| - 1] == '\n' ==>
      var a := Text.Lower(abbr)[..|abbr| - 1];
      forall j | 0 < j < |a| :: !(AllWord(a[..j]) && AllPort(a[j..]))
  {
    var l := Text.Lower(abbr);
    if l != [] && l[|l| - 1] == '\n' then
      NoSplitBeforeNewline(l);
      var c := l[..|l| - 1];
      assert l == c + "\n";
      Split(c)
    else
      Split(l)
  }

  /** A text ending in a newline has no split: neither class holds a newline. */
  lemma NoSplitBeforeNewline(a: string)
    requires a != [] && a[|a| - 1] == '\n'
    ensures forall j | 0 < j < |a| :: !(AllWord(a[..j]) && AllPort(a[j..]))
  {
    forall j | 0 < j < |a|
      ensures !(AllWord(a[..j]) && AllPort(a[j..]))
    {
      assert a[j..][|a| - 1 - j] == '\n';
    }
  }

  /** `<begin>[a-z\-]+<end>` spanning all of `n`. */
  predicate Surrounds(begin: string, end: string, n: string)
  {
    && |begin| + |end| < |n|
    && n[..|begin|] == begin && n[|n| - |end|..] == end
    && AllWord(n[|begin|..|n| - |end|])
  }

  /** `^<begin>[a-z\-]+<end>$` matched case-insensitively against a name. */
  predicate Expands(begin: string, end: string, name: string)
  {
    Surrounds(begin, end, Chomped(Text.Lower(name)))
  }

  /** `n` is spanned exactly when it is the two groups around one or more word characters. */
  lemma SurroundsMeaning(begin: string, end: string, n: string)
    ensures Surrounds(begin, end, n) <==> exists m :: m != [] && AllWord(m) && n == begin + m + end
  {
    if Surrounds(begin, end, n) {
      var m := n[|begin|..|n| - |end|];
      assert n == n[..|begin|] + m + n[|n| - |end|..];
    }
    if exists m :: m != [] && AllWord(m) && n == begin + m + end {
      var m :| m != [] && AllWord(m) && n == begin + m + end;
      assert n[..|begin|] == begin;
      assert n[|n| - |end|..] == end;
      assert n[|begin|..|n| - |end|] == m;
    }
  }

  /** The groups around a word run never end in a newline. */
  lemma NoFinalNewline(begin: string, m: string, end: string)
    requires m != [] && AllWord(m) && AllPort(end)
    ensures var c := begin + m + end; c[|c| - 1] != '\n'
  {
    var c := begin + m + end;
    if end == [] {
      assert c[|c| - 1] == m[|m| - 1];
    } else {
      assert c[|c| - 1] == end[|end| - 1];
    }
  }

  /**
   * A name expands an abbreviation exactly when, lower-cased, it is the
   * two groups around one or more word characters, with at most one
   * newline after them.
   */
  lemma ExpandsMeaning(begin: string, end: string, name: string)
    requires AllWord(begin) && AllPort(end)
    ensures Expands(begin, end, name) <==>
      exists m :: m != [] && AllWord(m) &&
        (Text.Lower(name) == begin + m + end || Text.Lower(name) == begin + m + end + "\n")
  {
    var l := Text.Lower(name);
    var n := Chomped(l);
    SurroundsMeaning(begin, end, n);
    if exists m :: m != [] && AllWord(m) && (l == begin + m + end || l == begin + m + end + "\n") {
      var m :| m != [] && AllWord(m) && (l == begin + m + end || l == begin + m + end + "\n");
      NoFinalNewline(begin, m, end);
      if l == begin + m + end + "\n" {
        assert l[..|l| - 1] == begin + m + end;
      }
      assert n == begin + m + end;
    }
  }

  /** The positions holding true, from first to last. */
  function Positions(hits: seq<bool>): (r: seq<nat>)
    ensures forall i :: 0 <= i < |r| ==> r[i] < |hits| && hits[r[i]]
  {
    if hits == [] then []
    else
      var n := |hits| - 1;
      var r := Positions(hits[..n]);
      assert forall i :: 0 <= i < |r| ==> hits[..n][r[i]] == hits[r[i]];
      r + (if hits[n] then [n] else [])
  }

  /** Every position holding true is listed. */
  lemma {:induction false} PositionsComplete(hits: seq<bool>, j: nat)
    requires j < |hits| && hits[j]
    ensures j in Positions(hits)
    decreases |hits|
  {
    var n := |hits| - 1;
    if j < n {
      assert hits[..n][j] == hits[j];
      PositionsComplete(hits[..n], j);
    }
  }

  /** No position holds true: no positions. */
  lemma {:induction false} NoPositions(hits: seq<bool>)
    requires forall j :: 0 <= j < |hits| ==> !hits[j]
    ensures Positions(hits) == []
    decreases |hits|
  {
    if hits != [] {
      var n := |hits| - 1;
      assert forall j :: 0 <= j < n ==> hits[..n][j] == hits[j];
      NoPositions(hits[..n]);
    }
  }

  /** Exactly position `k` holds true: the positions are `[k]`. */
  lemma {:induction false} OnePosition(hits: seq<bool>, k: nat)
    requires k < |hits| && hits[k]
    requires forall j :: 0 <= j < |hits| && j != k ==> !hits[j]
    ensures Positions(hits) == [k]
    decreases |hits|
  {
    var n := |hits| - 1;
    assert forall j :: 0 <= j < n ==> hits[..n][j] == hits[j];
    if k == n {
      NoPositions(hits[..n]);
    } else {
      OnePosition(hits[..n], k);
    }
  }

  /** There is one position exactly when one position holds true. */
  lemma {:induction false} SinglePosition(hits: seq<bool>)
    ensures |Positions(hits)| == 1 <==>
      (exists k :: 0 <= k < |hits| && hits[k] && forall j :: 0 <= j < |hits| && hits[j] ==> j == k)
  {
    var x := Positions(hits);
    if |x| == 1 {
      forall j | 0 <= j < |hits| && hits[j]
        ensures j == x[0]
      {
        PositionsComplete(hits, j);
      }
    }
    if exists k :: 0 <= k < |hits| && hits[k] && forall j :: 0 <= j < |hits| && hits[j] ==> j == k {
      var k :| 0 <= k < |hits| && hits[k] && forall j :: 0 <= j < |hits| && hits[j] ==> j == k;
      OnePosition(hits, k);
    }
  }

  /** Whether each name expands the abbreviation. */
  function Hits(names: seq<string>, begin: string, end: string): (h: seq<bool>)
    ensures |h| == |names| && forall k :: 0 <= k < |names| ==> h[k] == Expands(begin, end, names[k])
  {
    seq(|names|, k requires 0 <= k < |names| => Expands(begin, end, names[k]))
  }

  /** `_get_iface_by_abbr`: the one interface an abbreviation expands to; none or several are an IndexError. */
  function AbbrLookup<T>(ifaces: seq<T>, names: seq<string>, abbr: string): (r: Result<T>)
    requires |names| == |ifaces|
    ensures r.Err? ==> r.error == IndexError
  {
    match AbbrParts(abbr)
    case None => Err(IndexError)
    case Some((begin, end)) =>
      var x := Positions(Hits(names, begin, end));
      if |x| == 1 then
        assert x[0] in x;
        Ok(ifaces[x[0]])
      else Err(IndexError)
  }

  /**
   * An abbreviation finds an interface exactly when it has the
   * abbreviation shape and exactly one name expands it; the interface
   * found is the one with that name.
   */
  lemma AbbrLookupMeaning<T>(ifaces: seq<T>, names: seq<string>, abbr: string)
    requires |names| == |ifaces|
    ensures var r := AbbrLookup(ifaces, names, abbr);
      r.Ok? <==> (AbbrParts(abbr).Some? &&
                  var h := Hits(names, AbbrParts(abbr).value.0, AbbrParts(abbr).value.1);
                  exists k :: 0 <= k < |h| && h[k] && forall j :: 0 <= j < |h| && h[j] ==> j == k)
    ensures var r := AbbrLookup(ifaces, names, abbr);
      r.Ok? ==> (exists k :: 0 <= k < |names| && r.value == ifaces[k] &&
                   Expands(AbbrParts(abbr).value.0, AbbrParts(abbr).value.1, names[k]))
  {
    if AbbrParts(abbr).Some? {
      var (begin, end) := AbbrParts(abbr).value;
      var h := Hits(names, begin, end);
      SinglePosition(h);
      var x := Positions(h);
      if |x| == 1 {
        assert x[0] in x;
        assert h[x[0]];
      }
    }
  }

  /** The groups of "gi0/1" followed by a newline. */
  lemma NewlineParts()
    ensures AbbrParts("gi0/1\n") == Some(("gi", "0/1"))
  {
    var abbr := "gi0/1\n";
    var c := "gi0/1";
    assert Text.Lower(abbr) == abbr;
    assert abbr[..|abbr| - 1] == c;
    assert WordRun(c[2..]) == 0;
    assert WordRun(c[1..]) == 1;
    assert c[..2] == "gi" && c[2..] == "0/1";
  }

  /** Gig0/1 expands gi and 0/1. */
  lemma GigExpands()
    ensures Expands("gi", "0/1", "Gig0/1")
  {
    var n := Text.Lower("Gig0/1");
    assert n == "gig0/1";
    assert Chomped(n) == n;
    assert n[2..3] == "g";
  }

  /** `$` before a final newline: "gi0/1\n" still finds Gig0/1. */
  lemma AbbrBeforeNewline<T>(x: T)
    ensures AbbrLookup([x], ["Gig0/1"], "gi0/1\n") == Ok(x)
  {
    NewlineParts();
    GigExpands();
    var h := Hits(["Gig0/1"], "gi", "0/1");
    assert |h| == 1 && h[0];
    OnePosition(h, 0);
  }

  /** The position of the first name equal to `s` ignoring case, or the length. */
  function FirstExact(names: seq<string>, s: string): (k: nat)
    ensures k <= |names|
    ensures k < |names| ==> Text.Lower(names[k]) == Text.Lower(s)
    ensures forall j :: 0 <= j < k ==> Text.Lower(names[j]) != Text.Lower(s)
  {
    if names == [] then 0
    else if Text.Lower(names[0]) == Text.Lower(s) then 0
    else 1 + FirstExact(names[1..], s)
  }

  /** The first match is the position before which nothing matches. */
  lemma {:induction false} FirstExactIs(names: seq<string>, s: string, k: nat)
    requires k <= |names| && (k < |names| ==> Text.Lower(names[k]) == Text.Lower(s))
    requires forall j :: 0 <= j < k ==> Text.Lower(names[j]) != Text.Lower(s)
    ensures FirstExact(names, s) == k
    decreases |names|
  {
    if names != [] && Text.Lower(names[0]) != Text.Lower(s) {
      assert k >= 1;
      FirstExactIs(names[1..], s, k - 1);
    }
  }

  /** The name of each interface, as read. */
  function NameResults(ifaces: seq<Iface>): (r: seq<Result<string>>)
    ensures |r| == |ifaces| && forall i :: 0 <= i < |ifaces| ==> r[i] == ifaces[i].name
  {
    seq(|ifaces|, i requires 0 <= i < |ifaces| => ifaces[i].name)
  }

  /**
   * `x.name` of an interface as `monitor(names)` lists it: `data["Name"]`
   * whatever its type, a KeyError when the record has none.
   */
  function ListedName(x: Iface): (r: Result<Value>)
    ensures r.Ok? <==> "Name" in x.data
    ensures r.Ok? ==> r.value == x.data["Name"]
  {
    if "Name" in x.data then Ok(x.data["Name"]) else Err(KeyError)
  }

  /** `[x.name for x in ifaces]`, one result per interface. */
  function ListedNames(ifaces: seq<Iface>): (r: seq<Result<Value>>)
    ensures |r| == |ifaces| && forall i :: 0 <= i < |ifaces| ==> r[i] == ListedName(ifaces[i])
  {
    seq(|ifaces|, i requires 0 <= i < |ifaces| => ListedName(ifaces[i]))
  }

  /** Requested names as the values they are compared with. */
  function Strs(names: seq<string>): (r: seq<Value>)
    ensures |r| == |names| && forall i :: 0 <= i < |names| ==> r[i] == Str(names[i])
  {
    seq(|names|, i requires 0 <= i < |names| => Str(names[i]))
  }

  /** The names read in order, or the error of the first one that cannot be read. */
  function NamesOf<T>(rs: seq<Result<T>>): (r: Result<seq<T>>)
    ensures r.Ok? <==> forall i :: 0 <= i < |rs| ==> rs[i].Ok?
    ensures r.Ok? ==> |r.value| == |rs| && forall i :: 0 <= i < |rs| ==> rs[i] == Ok(r.value[i])
    ensures r.Err? ==> (exists i :: 0 <= i < |rs| && rs[i] == Err(r.error) &&
                          forall j :: 0 <= j < i ==> rs[j].Ok?)
  {
    if rs == [] then Ok([])
    else
      var n := |rs| - 1;
      assert forall j :: 0 <= j < n ==> rs[..n][j] == rs[j];
      match NamesOf(rs[..n])
      case Err(e) => Err(e)
      case Ok(ns) =>
        match rs[n]
        case Err(e) => Err(e)
        case Ok(x) => Ok(ns + [x])
  }

  /** A `__getitem__` key: an int position or a name. */
  datatype Key = Position(i: int) | Named(s: string)

  /**
   * `__getitem__` over items with the given names: an int is a position
   * (negative from the end); a name is the first case-insensitive exact
   * match, failing that the abbreviation lookup. Every name is read before
   * any is compared, so a name that cannot be read fails every name lookup.
   */
  function LookupIn<T>(items: seq<T>, names: Result<seq<string>>, key: Key): (r: Result<T>)
    requires names.Ok? ==> |names.value| == |items|
  {
    match key
    case Position(i) =>
      var p := PyIndex(i, |items|);
      if p.Some? then Ok(items[p.value]) else Err(IndexError)
    case Named(s) =>
      match names
      case Err(e) => Err(e)
      case Ok(ns) =>
        var k := FirstExact(ns, s);
        if k < |ns| then Ok(items[k]) else AbbrLookup(items, ns, s)
  }

  /** `__getitem__` on a list of interfaces. */
  function Lookup(ifaces: seq<Iface>, key: Key): (r: Result<Iface>)
  {
    LookupIn(ifaces, NamesOf(NameResults(ifaces)), key)
  }

  /** An int key is Python's `xs[i]`: a position from either end, else an IndexError. */
  lemma LookupPosition<T>(items: seq<T>, names: Result<seq<string>>, i: int)
    requires names.Ok? ==> |names.value| == |items|
    ensures 0 <= i < |items| ==> LookupIn(items, names, Position(i)) == Ok(items[i])
    ensures -|items| <= i < 0 ==> LookupIn(items, names, Position(i)) == Ok(items[|items| + i])
    ensures !(-|items| <= i < |items|) ==> LookupIn(items, names, Position(i)) == Err(IndexError)
  {
  }

  /** A name that some item carries, up to case, finds the first such item and never reaches the abbreviation. */
  lemma LookupExact<T>(items: seq<T>, names: seq<string>, s: string, k: nat)
    requires |names| == |items| && k < |items|
    requires Text.Lower(names[k]) == Text.Lower(s)
    requires forall j :: 0 <= j < k ==> Text.Lower(names[j]) != Text.Lower(s)
    ensures LookupIn(items, Ok(names), Named(s)) == Ok(items[k])
  {
    FirstExactIs(names, s, k);
  }

  /** The abbreviation lookup decides only for a name no item carries exactly. */
  lemma LookupByAbbr<T>(items: seq<T>, names: seq<string>, s: string)
    requires |names| == |items|
    requires forall j :: 0 <= j < |items| ==> Text.Lower(names[j]) != Text.Lower(s)
    ensures LookupIn(items, Ok(names), Named(s)) == AbbrLookup(items, names, s)
  {
    FirstExactIs(names, s, |names|);
  }

  // ---------------------------------------------------------------------
  // Deletion
  // ---------------------------------------------------------------------

  /** `for x in given: if x in xs: xs.remove(x)`. */
  function RemoveEach<T(==)>(xs: seq<T>, given: seq<T>): (r: seq<T>)
    ensures multiset(r) <= multiset(xs)
  {
    if given == [] then xs
    else
      var rest := RemoveEach(xs, given[..|given| - 1]);
      var x := given[|given| - 1];
      if x in rest then RemoveFirst(rest, x) else rest
  }

  /** No object occurs twice. */
  predicate Distinct<T(==)>(xs: seq<T>)
  {
    forall i :: 0 <= i < |xs| ==> multiset(xs)[xs[i]] == 1
  }

  /** On a list without repeats, removing `y` removes exactly `y` and keeps the list without repeats. */
  lemma RemoveFirstDistinct<T>(xs: seq<T>, y: T)
    requires Distinct(xs) && y in xs
    ensures Distinct(RemoveFirst(xs, y))
    ensures forall x :: x in RemoveFirst(xs, y) <==> x in xs && x != y
  {
    var r := RemoveFirst(xs, y);
    assert multiset(r) + multiset{y} == multiset(xs);
    forall x
      ensures x in r <==> x in xs && x != y
    {
      assert multiset(r)[x] + multiset{y}[x] == multiset(xs)[x];
      if x in xs {
        var k :| 0 <= k < |xs| && xs[k] == x;
      }
    }
    forall i | 0 <= i < |r|
      ensures multiset(r)[r[i]] == 1
    {
      var x := r[i];
      assert multiset(r)[x] + multiset{y}[x] == multiset(xs)[x];
      assert x in multiset(xs);
      var k :| 0 <= k < |xs| && xs[k] == x;
    }
  }

  /**
   * Deleting from a list without repeats leaves exactly the interfaces
   * that were listed and not given, still without repeats.
   */
  lemma {:induction false} RemoveEachDistinct<T>(xs: seq<T>, given: seq<T>)
    requires Distinct(xs)
    ensures Distinct(RemoveEach(xs, given))
    ensures forall x :: x in RemoveEach(xs, given) <==> x in xs && x !in given
    decreases |given|
  {
    if given != [] {
      var g := given[..|given| - 1];
      var y := given[|given| - 1];
      RemoveEachDistinct(xs, g);
      var rest := RemoveEach(xs, g);
      assert given == g + [y];
      if y in rest {
        RemoveFirstDistinct(rest, y);
      }
    }
  }

  /** One more given interface, removed after the earlier ones. */
  lemma RemoveEachStep<T>(xs: seq<T>, given: seq<T>, i: nat)
    requires i < |given|
    ensures var rest := RemoveEach(xs, given[..i]);
      RemoveEach(xs, given[..i + 1]) == if given[i] in rest then RemoveFirst(rest, given[i]) else rest
  {
    assert given[..i + 1][..i] == given[..i];
  }

  // ---------------------------------------------------------------------
  // Discovery
  // ---------------------------------------------------------------------

  /** The separator `\s(\-|\·)\s` at position `i`. */
  predicate SeparatorAt(s: string, i: nat)
  {
    i + 3 <= |s| && Text.IsSpace(s[i]) && (s[i + 1] == '-' || s[i + 1] == '\U{00B7}') && Text.IsSpace(s[i + 2])
  }

  /** The first separator at or after `i`, or the length. */
  function FirstSeparator(s: string, i: nat): (k: nat)
    requires i <= |s|
    ensures i <= k <= |s|
    ensures k < |s| ==> SeparatorAt(s, k)
    ensures forall j :: i <= j < k ==> !SeparatorAt(s, j)
    decreases |s| - i
  {
    if i + 3 > |s| then |s|
    else if SeparatorAt(s, i) then i
    else FirstSeparator(s, i + 1)
  }

  /** `re.split(r"\s(\-|\·)\s", caption)[0]`: the caption up to its first separator. */
  function CaptionName(caption: string): (r: string)
    ensures |r| <= |caption| && r == caption[..|r|]
    ensures |r| < |caption| ==> SeparatorAt(caption, |r|)
    ensures forall j :: 0 <= j < |r| ==> !SeparatorAt(caption, j)
  {
    caption[..FirstSeparator(caption, 0)]
  }

  /** A `DiscoveredInterface`: the discovery record with its caption, short name and operational status. */
  datatype Discovered = Discovered(data: Props, caption: string, name: string, operStatus: Value)

  /** The record keys a `DiscoveredInterface` reads after the caption. */
  const DiscoveredKeys: seq<string> :=
    ["InterfaceID", "Manageable", "ifAdminStatus", "ifIndex", "ifOperStatus", "ifSpeed", "ifSubType", "ifType"]

  /**
   * `DiscoveredInterface(data)`: the caption is read and split first (a
   * caption that is not text is a TypeError), then the other keys; a
   * missing key is a KeyError.
   */
  function DiscoveredOf(data: Props): (r: Result<Discovered>)
    ensures r.Ok? <==> "Caption" in data && data["Caption"].Str? && forall k :: k in DiscoveredKeys ==> k in data
    ensures r.Ok? ==> r.value.data == data && r.value.caption == data["Caption"].s
    ensures r.Ok? ==> r.value.name == CaptionName(data["Caption"].s) && r.value.operStatus == data["ifOperStatus"]
    ensures "Caption" !in data ==> r == Err(KeyError)
  {
    if "Caption" !in data then Err(KeyError)
    else if !data["Caption"].Str? then Err(TypeError)
    else if exists k :: k in DiscoveredKeys && k !in data then Err(KeyError)
    else Ok(Discovered(data, data["Caption"].s, CaptionName(data["Caption"].s), data["ifOperStatus"]))
  }

  /** `[DiscoveredInterface(data=r) for r in rows]`: the first failing record's error, or one per record. */
  function DiscoveredAll(rows: seq<Props>): (r: Result<seq<Discovered>>)
    ensures r.Ok? <==> forall i :: 0 <= i < |rows| ==> DiscoveredOf(rows[i]).Ok?
    ensures r.Ok? ==> |r.value| == |rows| && forall i :: 0 <= i < |rows| ==> DiscoveredOf(rows[i]) == Ok(r.value[i])
  {
    if rows == [] then Ok([])
    else
      var n := |rows| - 1;
      assert forall j :: 0 <= j < n ==> rows[..n][j] == rows[j];
      match DiscoveredAll(rows[..n])
      case Err(e) => Err(e)
      case Ok(ds) =>
        match DiscoveredOf(rows[n])
        case Err(e) => Err(e)
        case Ok(d) => Ok(ds + [d])
  }

  /** What `DiscoverInterfacesOnNode` answers: its "Result" code and its "DiscoveredInterfaces" records. */
  datatype DiscoveryAnswer = DiscoveryAnswer(code: Value, rows: seq<Props>)

  /**
   * The result codes of `discover`: 0 with records is a success, 0
   * without records and any code but 0 and 1 are discovery errors, and 1
   * is let through without touching anything.
   */
  function DiscoveryOutcome(answer: DiscoveryAnswer): (r: Result<Option<seq<Discovered>>>)
    ensures EqualsInt(answer.code, 0) && answer.rows == [] ==> r == Err(SWDiscoveryError)
    ensures !EqualsInt(answer.code, 0) && !EqualsInt(answer.code, 1) ==> r == Err(SWDiscoveryError)
    ensures EqualsInt(answer.code, 1) ==> r == Ok(None)
    ensures r.Ok? && r.value.Some? ==> EqualsInt(answer.code, 0) && DiscoveredAll(answer.rows) == Ok(r.value.value)
    ensures EqualsInt(answer.code, 0) && answer.rows != [] ==> (r.Ok? <==> DiscoveredAll(answer.rows).Ok?)
  {
    if EqualsInt(answer.code, 0) then
      if answer.rows == [] then Err(SWDiscoveryError)
      else match DiscoveredAll(answer.rows)
        case Err(e) => Err(e)
        case Ok(ds) => Ok(Some(ds))
    else if EqualsInt(answer.code, 1) then Ok(None)
    else Err(SWDiscoveryError)
  }

  /** The discovery verb, sent to the node's polling engine. */
  function DiscoverCall(nodeId: Value): Call
  {
    InvokeCall("Orion.NPM.Interfaces", "DiscoverInterfacesOnNode", [nodeId])
  }

  /** The verb that starts monitoring discovered interfaces, with default pollers. */
  function AddCall(nodeId: Value, rows: seq<Props>): Call
  {
    InvokeRowsCall("Orion.NPM.Interfaces", "AddInterfacesOnNode", nodeId, rows, "AddDefaultPollers")
  }

  /** `[x for x in discovered if x.oper_status == 1]`. */
  function Up(ds: seq<Discovered>): (r: seq<Discovered>)
    ensures forall d :: d in r <==> d in ds && EqualsInt(d.operStatus, 1)
  {
    if ds == [] then []
    else Up(ds[..|ds| - 1]) + (if EqualsInt(ds[|ds| - 1].operStatus, 1) then [ds[|ds| - 1]] else [])
  }

  /** `[x for x in discovered if x.name in requested]`. */
  function Requested(ds: seq<Discovered>, requested: seq<string>): (r: seq<Discovered>)
    ensures forall d :: d in r <==> d in ds && d.name in requested
  {
    if ds == [] then []
    else Requested(ds[..|ds| - 1], requested) + (if ds[|ds| - 1].name in requested then [ds[|ds| - 1]] else [])
  }

  /** The records of discovered interfaces. */
  function RecordsOf(ds: seq<Discovered>): (r: seq<Props>)
    ensures |r| == |ds| && forall i :: 0 <= i < |ds| ==> r[i] == ds[i].data
  {
    seq(|ds|, i requires 0 <= i < |ds| => ds[i].data)
  }

  /** What `add` is handed: discovered interfaces, or plain records. */
  datatype AddItem = Found(iface: Discovered) | Plain(record: Props)

  /** `[x.data for x in interfaces]`: a plain record has no `data` attribute. */
  function AddRows(items: seq<AddItem>): (r: Result<seq<Props>>)
    ensures r.Ok? <==> forall i :: 0 <= i < |items| ==> items[i].Found?
    ensures r.Ok? ==> |r.value| == |items| && forall i :: 0 <= i < |items| ==> r.value[i] == items[i].iface.data
    ensures r.Err? ==> r.error == AttributeError
  {
    if exists i :: 0 <= i < |items| && items[i].Plain? then Err(AttributeError)
    else Ok(seq(|items|, i requires 0 <= i < |items| => items[i].iface.data))
  }

  /** `[x for x in requested if x not in present]`. */
  function Missing<T(==,!new)>(requested: seq<T>, present: seq<T>): (r: seq<T>)
    ensures forall x :: x in r <==> x in requested && x !in present
  {
    if requested == [] then []
    else
      var n := |requested| - 1;
      Missing(requested[..n], present) + (if requested[n] !in present then [requested[n]] else [])
  }

  /** `[x for x in existing if x.name not in requested]`, given the names in list order. */
  function Extraneous<T, N(==)>(ifaces: seq<T>, names: seq<N>, requested: seq<N>): (r: seq<T>)
    requires |names| == |ifaces|
    ensures forall i :: 0 <= i < |ifaces| && names[i] !in requested ==> ifaces[i] in r
    ensures forall x :: x in r ==> exists i :: 0 <= i < |ifaces| && ifaces[i] == x && names[i] !in requested
  {
    if ifaces == [] then []
    else
      var n := |ifaces| - 1;
      assert forall j :: 0 <= j < n ==> ifaces[..n][j] == ifaces[j] && names[..n][j] == names[j];
      Extraneous(ifaces[..n], names[..n], requested) + (if names[n] !in requested then [ifaces[n]] else [])
  }

  /** The interfaces picked as extraneous are taken from the list, no more often than it holds them. */
  lemma {:induction false} ExtraneousWithin<T, N>(ifaces: seq<T>, names: seq<N>, requested: seq<N>)
    requires |names| == |ifaces|
    ensures multiset(Extraneous(ifaces, names, requested)) <= multiset(ifaces)
    decreases |ifaces|
  {
    if ifaces != [] {
      var n := |ifaces| - 1;
      ExtraneousWithin(ifaces[..n], names[..n], requested);
      assert ifaces == ifaces[..n] + [ifaces[n]];
      assert multiset(ifaces) == multiset(ifaces[..n]) + multiset{ifaces[n]};
    }
  }

  /**
   * `monitor(names)` as written hands `add` the records of the requested
   * discovered interfaces, which `add` then asks for a `data` attribute.
   */
  function MonitorAddAsWritten(discovered: seq<Discovered>, requested: seq<string>): Result<seq<Props>>
  {
    var picked := Requested(discovered, requested);
    AddRows(seq(|picked|, i requires 0 <= i < |picked| => Plain(picked[i].data)))
  }

  /** As written, naming any discovered interface makes `monitor` fail before anything is added. */
  lemma MonitorNeverAdds(discovered: seq<Discovered>, requested: seq<string>)
    requires Requested(discovered, requested) != []
    ensures MonitorAddAsWritten(discovered, requested) == Err(AttributeError)
  {
    var picked := Requested(discovered, requested);
    var items := seq(|picked|, i requires 0 <= i < |picked| => Plain(picked[i].data));
    assert items[0].Plain?;
  }

  /** The add call for the given discovered interfaces, when there are any. */
  function AddedFor(nodeId: Value, ds: seq<Discovered>): seq<Call>
  {
    if ds != [] then [AddCall(nodeId, RecordsOf(ds))] else []
  }

  /** The writes of a named `monitor`: discovery and the add when names are missing, then the bulk delete. */
  function NamedWrites<M>(nodeId: Value, missing: seq<M>, toAdd: seq<Discovered>, deleteExtraneous: bool,
                       extraneous: seq<Iface>): seq<Call>
  {
    (if missing != [] then [DiscoverCall(nodeId)] + AddedFor(nodeId, toAdd) else [])
    + (if deleteExtraneous && extraneous != [] then [DeleteCall(Uris(extraneous))] else [])
  }

  /**
   * `InterfaceList`: a node's monitored interfaces (`_existing`), the
   * interfaces found by the last discovery (`_discovered`) and its result
   * code. The node contributes its id and its polling method.
   */
  class InterfaceList {
    const swis: Swis
    const nodeId: Value
    const pollingMethod: Value
    var existing: seq<Iface>
    var discovered: seq<Discovered>
    var responseCode: Value

    constructor (swis: Swis, nodeId: Value, pollingMethod: Value)
      ensures this.swis == swis && this.nodeId == nodeId && this.pollingMethod == pollingMethod
      ensures existing == [] && discovered == [] && responseCode == Null
    {
      this.swis := swis;
      this.nodeId := nodeId;
      this.pollingMethod := pollingMethod;
      existing := [];
      discovered := [];
      responseCode := Null;
    }

    /** `add`: one invoke with the records of the given interfaces; a plain record fails before it. */
    method Add(items: seq<AddItem>) returns (r: Result<()>)
      modifies swis`log
      ensures AddRows(items).Err? ==> r == Err(AttributeError) && swis.log == old(swis.log)
      ensures AddRows(items).Ok? ==> r == Ok(()) && swis.log == old(swis.log) + [AddCall(nodeId, AddRows(items).value)]
    {
      var rows := AddRows(items);
      if rows.Err? {
        return Err(AttributeError);
      }
      swis.InvokeRows("Orion.NPM.Interfaces", "AddInterfacesOnNode", nodeId, rows.value, "AddDefaultPollers");
      return Ok(());
    }

    /**
     * `fetch`: the node's interfaces, one per record; no records keeps the
     * list, and a record that builds no interface fails with the list kept.
     */
    method Fetch() returns (r: Result<()>)
      modifies this`existing, swis`log
      ensures swis.log == old(swis.log) + [QueryCall(ListQuery(nodeId))]
      ensures var rows := swis.RowsFor(ListQuery(nodeId));
        && (rows == [] ==> r == Ok(()) && existing == old(existing))
        && (r.Ok? <==> forall i :: 0 <= i < |rows| ==> RecordError(rows[i]).None?)
        && (r.Err? ==> existing == old(existing) && FirstFailure(rows, r.error))
        && (r.Ok? && rows != [] ==> BuiltFrom(existing, rows) && forall i :: 0 <= i < |rows| ==> fresh(existing[i]))
    {
      var rows := swis.RunQuery(ListQuery(nodeId));
      if rows == [] {
        return Ok(());
      }
      var built := BuildAll(rows);
      if built.Err? {
        return Err(built.error);
      }
      existing := built.value;
      return Ok(());
    }

    /** `delete`: one bulk delete of the given interfaces, then each listed one is dropped from the list. */
    method Delete(given: seq<Iface>)
      modifies this`existing, swis`log
      ensures swis.log == old(swis.log) + [DeleteCall(Uris(given))]
      ensures existing == RemoveEach(old(existing), given)
    {
      swis.Delete(Uris(given));
      existing := RemoveAll(existing, given);
    }

    /** `delete_all`: a non-empty list is deleted in one call and emptied; an empty one sends nothing. */
    method DeleteAll()
      modifies this`existing, swis`log
      ensures existing == []
      ensures old(existing) == [] ==> swis.log == old(swis.log)
      ensures old(existing) != [] ==> swis.log == old(swis.log) + [DeleteCall(Uris(old(existing)))]
    {
      if existing != [] {
        swis.Delete(Uris(existing));
        existing := [];
      }
    }

    /**
     * `discover`: only a node polled by SNMP can be discovered; the answer's
     * code decides, and a successful discovery replaces the discovered list.
     */
    method Discover(answer: DiscoveryAnswer) returns (r: Result<()>)
      modifies this`discovered, this`responseCode, swis`log
      ensures pollingMethod != Str("snmp") ==>
        && r == Err(SWObjectPropertyError) && swis.log == old(swis.log)
        && discovered == old(discovered) && responseCode == old(responseCode)
      ensures pollingMethod == Str("snmp") ==>
        && swis.log == old(swis.log) + [DiscoverCall(nodeId)] && responseCode == answer.code
        && (r.Ok? <==> DiscoveryOutcome(answer).Ok?)
        && (r.Err? ==> r.error == DiscoveryOutcome(answer).error && discovered == old(discovered))
        && (r.Ok? ==> discovered == (if DiscoveryOutcome(answer).value.Some? then DiscoveryOutcome(answer).value.value else old(discovered)))
    {
      if pollingMethod != Str("snmp") {
        return Err(SWObjectPropertyError);
      }
      var _ := swis.Invoke("Orion.NPM.Interfaces", "DiscoverInterfacesOnNode", [nodeId]);
      responseCode := answer.code;
      var outcome := DiscoveryOutcome(answer);
      if outcome.Err? {
        return Err(outcome.error);
      }
      if outcome.value.Some? {
        discovered := outcome.value.value;
      }
      return Ok(());
    }

    /** `monitor()` with no names: discover, add every discovered interface that is up, refetch. */
    method MonitorUp(answer: DiscoveryAnswer) returns (r: Result<()>)
      modifies this`existing, this`discovered, this`responseCode, swis`log
      ensures r.Ok? ==> SentSince(old(swis.log), swis.log, [DiscoverCall(nodeId), AddCall(nodeId, RecordsOf(Up(discovered)))])
      ensures r.Err? ==> Extends(old(swis.log), swis.log)
      ensures r.Ok? ==> Refetched(old(existing), swis.RowsFor(ListQuery(nodeId)), existing)
      ensures r.Err? ==> existing == old(existing)
    {
      ghost var log0 := swis.log;
      r := Discover(answer);
      if r.Err? {
        return;
      }
      ghost var log1 := swis.log;
      var up := Up(discovered);
      var items := seq(|up|, i requires 0 <= i < |up| => Found(up[i]));
      assert AddRows(items).value == RecordsOf(up);
      r := Add(items);
      assert swis.log == log0 + [DiscoverCall(nodeId), AddCall(nodeId, RecordsOf(up))];
      SentWrite(log0, DiscoverCall(nodeId));
      SentWrite(log1, AddCall(nodeId, RecordsOf(up)));
      SentSinceTrans(log0, log1, swis.log, [DiscoverCall(nodeId)], [AddCall(nodeId, RecordsOf(up))]);
      ghost var log2 := swis.log;
      var f := Fetch();
      SentReads(log2, [QueryCall(ListQuery(nodeId))]);
      SentSinceTrans(log0, log2, swis.log, [DiscoverCall(nodeId), AddCall(nodeId, RecordsOf(up))], []);
      if f.Err? {
        return f;
      }
    }

    /**
     * `monitor(names)`: requested names not present are discovered and the
     * requested discovered interfaces added (with their discovery
     * records); with `deleteExtraneous`, interfaces not requested are
     * deleted in one call. The list itself is left as it is. The add is
     * the intended one; as written it raises before adding anything
     * (`MonitorAddAsWritten`).
     */
    method MonitorNamed(requested: seq<string>, deleteExtraneous: bool, answer: DiscoveryAnswer) returns (r: Result<()>)
      modifies this`discovered, this`responseCode, swis`log
      ensures NamesOf(ListedNames(existing)).Err? ==> r == Err(NamesOf(ListedNames(existing)).error) && swis.log == old(swis.log)
      ensures r.Ok? ==> NamesOf(ListedNames(existing)).Ok?
      ensures r.Ok? ==>
        var names := NamesOf(ListedNames(existing)).value;
        var missing := Missing(Strs(requested), names);
        && (missing == [] ==> discovered == old(discovered))
        && SentSince(old(swis.log), swis.log,
             NamedWrites(nodeId, missing, Requested(discovered, requested), deleteExtraneous,
                         Extraneous(existing, names, Strs(requested))))
      ensures r.Err? ==> Extends(old(swis.log), swis.log)
    {
      var ns := NamesOf(ListedNames(existing));
      if ns.Err? {
        return Err(ns.error);
      }
      var names := ns.value;
      var missing := Missing(Strs(requested), names);
      var extraneous := Extraneous(existing, names, Strs(requested));
      ghost var log0 := swis.log;
      if missing != [] {
        r := AddRequested(requested, answer);
        if r.Err? {
          return;
        }
      } else {
        SentNothing(log0);
      }
      ghost var log1 := swis.log;
      ghost var w1 := if missing != [] then [DiscoverCall(nodeId)] + AddedFor(nodeId, Requested(discovered, requested)) else [];
      DeleteExtraneous(deleteExtraneous, extraneous);
      SentSinceTrans(log0, log1, swis.log, w1, if deleteExtraneous && extraneous != [] then [DeleteCall(Uris(extraneous))] else []);
      return Ok(());
    }

    /** The extraneous-interfaces step of `monitor(names)`: one bulk delete when asked for and there are any. */
    method DeleteExtraneous(deleteExtraneous: bool, extraneous: seq<Iface>)
      modifies swis`log
      ensures SentSince(old(swis.log), swis.log,
                        if deleteExtraneous && extraneous != [] then [DeleteCall(Uris(extraneous))] else [])
    {
      if deleteExtraneous && extraneous != [] {
        SentWrite(swis.log, DeleteCall(Uris(extraneous)));
        swis.Delete(Uris(extraneous));
      } else {
        SentNothing(swis.log);
      }
    }

    /** The missing-names step of `monitor(names)`: discover, then add the requested discovered interfaces. */
    method AddRequested(requested: seq<string>, answer: DiscoveryAnswer) returns (r: Result<()>)
      modifies this`discovered, this`responseCode, swis`log
      ensures r.Ok? ==> SentSince(old(swis.log), swis.log, [DiscoverCall(nodeId)] + AddedFor(nodeId, Requested(discovered, requested)))
      ensures r.Err? ==> Extends(old(swis.log), swis.log)
    {
      ghost var log0 := swis.log;
      r := Discover(answer);
      if r.Err? {
        assert swis.log[..|log0|] == log0;
        return;
      }
      SentWrite(log0, DiscoverCall(nodeId));
      ghost var log1 := swis.log;
      var picked := Requested(discovered, requested);
      if picked != [] {
        var items := seq(|picked|, i requires 0 <= i < |picked| => Found(picked[i]));
        assert AddRows(items).value == RecordsOf(picked);
        r := Add(items);
        SentWrite(log1, AddCall(nodeId, RecordsOf(picked)));
      } else {
        SentNothing(log1);
      }
      SentSinceTrans(log0, log1, swis.log, [DiscoverCall(nodeId)], AddedFor(nodeId, picked));
    }

    /** The first step of `monitor`: a list holding nothing is fetched, and a fetch that fails ends it. */
    method FetchIfEmpty() returns (r: Result<()>)
      modifies this`existing, swis`log
      ensures SentSince(old(swis.log), swis.log, [])
      ensures old(existing) == [] ==> swis.log == old(swis.log) + [QueryCall(ListQuery(nodeId))]
      ensures old(existing) != [] ==> r == Ok(()) && swis.log == old(swis.log)
      ensures Refetched(old(existing), if old(existing) == [] then swis.RowsFor(ListQuery(nodeId)) else [], existing)
    {
      if existing == [] {
        r := Fetch();
        SentReads(old(swis.log), [QueryCall(ListQuery(nodeId))]);
      } else {
        SentNothing(swis.log);
        r := Ok(());
      }
    }

    /** `monitor`: fetch first when nothing is listed, then monitor the up interfaces or the requested ones. */
    method Monitor(requested: Option<seq<string>>, deleteExtraneous: bool, answer: DiscoveryAnswer) returns (r: Result<()>)
      modifies this`existing, this`discovered, this`responseCode, swis`log
      ensures Extends(old(swis.log), swis.log)
      ensures old(existing) == [] ==> |swis.log| > |old(swis.log)| && swis.log[|old(swis.log)|] == QueryCall(ListQuery(nodeId))
      ensures old(existing) != [] && requested.Some? ==> existing == old(existing)
      ensures requested.Some? || r.Err? ==>
        Refetched(old(existing), if old(existing) == [] then swis.RowsFor(ListQuery(nodeId)) else [], existing)
      ensures requested.None? && r.Ok? ==> Refetched(old(existing), swis.RowsFor(ListQuery(nodeId)), existing)
      ensures requested.None? && r.Ok? ==>
        SentSince(old(swis.log), swis.log, [DiscoverCall(nodeId), AddCall(nodeId, RecordsOf(Up(discovered)))])
      ensures requested.Some? && r.Ok? ==>
        && NamesOf(ListedNames(existing)).Ok?
        && var names := NamesOf(ListedNames(existing)).value;
           SentSince(old(swis.log), swis.log,
                     NamedWrites(nodeId, Missing(Strs(requested.value), names), Requested(discovered, requested.value),
                                 deleteExtraneous, Extraneous(existing, names, Strs(requested.value))))
    {
      ghost var log0 := swis.log;
      r := FetchIfEmpty();
      if r.Err? {
        return;
      }
      ghost var log1 := swis.log;
      if requested.None? {
        r := MonitorUp(answer);
        if r.Ok? {
          ghost var w := [DiscoverCall(nodeId), AddCall(nodeId, RecordsOf(Up(discovered)))];
          SentSinceTrans(log0, log1, swis.log, [], w);
          assert [] + w == w;
        }
      } else {
        r := MonitorNamed(requested.value, deleteExtraneous, answer);
        if r.Ok? {
          ghost var names := NamesOf(ListedNames(existing)).value;
          ghost var w := NamedWrites(nodeId, Missing(Strs(requested.value), names), Requested(discovered, requested.value),
                                     deleteExtraneous, Extraneous(existing, names, Strs(requested.value)));
          SentSinceTrans(log0, log1, swis.log, [], w);
          assert [] + w == w;
        }
      }
      ExtendsTrans(log0, log1, swis.log);
    }

    /** `__getitem__`. */
    method GetItem(key: Key) returns (r: Result<Iface>)
      ensures r == Lookup(existing, key)
    {
      r := Find(existing, key);
    }
  }

  /** Record `i` is the first that builds no interface, and `e` is why. */
  predicate FirstFailure(rows: seq<Props>, e: Error)
  {
    exists i :: 0 <= i < |rows| && RecordError(rows[i]) == Some(e) && forall j :: 0 <= j < i ==> RecordError(rows[j]).None?
  }

  /** `[Interface(data=x) for x in rows]`: one new interface per record, or the first record's failure. */
  method BuildAll(rows: seq<Props>) returns (r: Result<seq<Iface>>)
    ensures r.Ok? <==> forall i :: 0 <= i < |rows| ==> RecordError(rows[i]).None?
    ensures r.Err? ==> FirstFailure(rows, r.error)
    ensures r.Ok? ==> BuiltFrom(r.value, rows) && forall i :: 0 <= i < |rows| ==> fresh(r.value[i])
  {
    var built: seq<Iface> := [];
    var i := 0;
    while i < |rows|
      invariant 0 <= i <= |rows| && |built| == i
      invariant forall j :: 0 <= j < i ==> RecordError(rows[j]).None?
      invariant BuiltFrom(built, rows[..i])
      invariant forall j :: 0 <= j < i ==> fresh(built[j])
    {
      var x := NewInterface(rows[i]);
      if x.Err? {
        return Err(x.error);
      }
      built := built + [x.value];
      i := i + 1;
    }
    assert rows[..i] == rows;
    return Ok(built);
  }

  /** `for x in given: if x in xs: xs.remove(x)`, one given item after another. */
  method RemoveAll<T(==)>(xs: seq<T>, given: seq<T>) returns (r: seq<T>)
    ensures r == RemoveEach(xs, given)
  {
    r := xs;
    var i := 0;
    while i < |given|
      invariant 0 <= i <= |given|
      invariant r == RemoveEach(xs, given[..i])
    {
      RemoveEachStep(xs, given, i);
      if given[i] in r {
        r := RemoveFirst(r, given[i]);
      }
      i := i + 1;
    }
    assert given[..i] == given;
  }

  /** The names, read one by one. */
  method CollectNames<T>(rs: seq<Result<T>>) returns (r: Result<seq<T>>)
    ensures r == NamesOf(rs)
  {
    var names: seq<T> := [];
    var i := 0;
    while i < |rs|
      invariant 0 <= i <= |rs|
      invariant NamesOf(rs[..i]) == Ok(names)
    {
      assert rs[..i + 1][..i] == rs[..i];
      if rs[i].Err? {
        NamesOfPrefixErr(rs, i);
        return Err(rs[i].error);
      }
      names := names + [rs[i].value];
      i := i + 1;
    }
    assert rs[..i] == rs;
    return Ok(names);
  }

  /** A failing name ends the names with its error when all before it were read. */
  lemma {:induction false} NamesOfPrefixErr<T>(rs: seq<Result<T>>, i: nat)
    requires i < |rs| && NamesOf(rs[..i]).Ok? && rs[i].Err?
    ensures NamesOf(rs) == Err(rs[i].error)
    decreases |rs|
  {
    var n := |rs| - 1;
    if i < n {
      assert rs[..n][..i] == rs[..i];
      NamesOfPrefixErr(rs[..n], i);
    } else {
      assert rs[..n] == rs[..i];
    }
  }

  /** The first case-insensitive exact match, scanning in order. */
  method FindExact(names: seq<string>, s: string) returns (k: nat)
    ensures k == FirstExact(names, s)
  {
    var target := Text.Lower(s);
    k := 0;
    while k < |names| && Text.Lower(names[k]) != target
      invariant k <= |names|
      invariant forall j :: 0 <= j < k ==> Text.Lower(names[j]) != target
    {
      k := k + 1;
    }
    FirstExactIs(names, s, k);
  }

  /** The positions of the names an abbreviation expands to, collected in order. */
  method FindExpansions(names: seq<string>, begin: string, end: string) returns (found: seq<nat>)
    ensures found == Positions(Hits(names, begin, end))
  {
    ghost var hits := Hits(names, begin, end);
    found := [];
    var i := 0;
    while i < |names|
      invariant 0 <= i <= |names|
      invariant found == Positions(hits[..i])
    {
      assert hits[..i + 1][..i] == hits[..i];
      if Expands(begin, end, names[i]) {
        found := found + [i];
      }
      i := i + 1;
    }
    assert hits[..i] == hits;
  }

  /** `__getitem__` over items whose names have been read. */
  method FindIn<T>(items: seq<T>, names: Result<seq<string>>, key: Key) returns (r: Result<T>)
    requires names.Ok? ==> |names.value| == |items|
    ensures r == LookupIn(items, names, key)
  {
    if key.Position? {
      var p := PyIndex(key.i, |items|);
      if p.None? {
        return Err(IndexError);
      }
      return Ok(items[p.value]);
    }
    if names.Err? {
      return Err(names.error);
    }
    var ns := names.value;
    var k := FindExact(ns, key.s);
    if k < |ns| {
      return Ok(items[k]);
    }
    var parts := AbbrParts(key.s);
    if parts.None? {
      return Err(IndexError);
    }
    var found := FindExpansions(ns, parts.value.0, parts.value.1);
    if |found| == 1 {
      assert found[0] in found;
      return Ok(items[found[0]]);
    }
    return Err(IndexError);
  }

  /** `__getitem__` on a list of interfaces. */
  method Find(ifaces: seq<Iface>, key: Key) returns (r: Result<Iface>)
    ensures r == Lookup(ifaces, key)
  {
    var names := CollectNames(NameResults(ifaces));
    r := FindIn(ifaces, names, key);
  }
}
