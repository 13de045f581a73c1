/**
 * `BaseList`, the collection base class of both generations
 * (pysolarwinds/list.py and solarwinds/list.py): a node's list of child
 * objects with lookup by name, by object and by position. Items are
 * objects compared by identity; `names` holds what each item's `name`
 * property answers, or the error it raises.
 */
module BaseLists {
  import opened Wrappers
  import opened PyValue

  /** What a caller passes to `get` or `[...]`. */
  datatype Key<T> = Text(s: string) | Item(x: T) | Position(n: int) | OtherKey

  /** What `[...]` answers: an item, a text, or None. */
  datatype Answer<T> = Element(x: T) | Name(s: string) | NoAnswer

  /**
   * Where a scan for the name `s` stops: the first item whose name either
   * cannot be read or is `s`, or the end of the list.
   */
  function FirstStop(names: seq<Result<Value>>, s: string): (k: nat)
    ensures k <= |names|
    ensures forall j :: 0 <= j < k ==> names[j].Ok? && names[j].value != Str(s)
    ensures k < |names| ==> names[k].Err? || names[k].value == Str(s)
    decreases |names|
  {
    if names == [] then 0
    else if names[0].Err? || names[0].value == Str(s) then 0
    else 1 + FirstStop(names[1..], s)
  }

  /**
   * `get`: with a text, the first item whose name is that text; with an
   * object, that object when it is listed; any other key finds nothing.
   * Only a text key reads names, and the first name that cannot be read
   * before a match raises.
   */
  function Get<T(==)>(items: seq<T>, names: seq<Result<Value>>, key: Key<T>): (r: Result<Option<T>>)
    requires |names| == |items|
    decreases |items|
  {
    if items == [] then Ok(None)
    else match key
      case Text(s) =>
        if names[0].Err? then Err(names[0].error)
        else if names[0].value == Str(s) then Ok(Some(items[0]))
        else Get(items[1..], names[1..], key)
      case Item(x) =>
        if items[0] == x then Ok(Some(items[0])) else Get(items[1..], names[1..], key)
      case _ => Ok(None)
  }

  /** `get` with a text answers the item where the name scan stops, its error, or None at the end. */
  lemma {:induction false} GetText<T>(items: seq<T>, names: seq<Result<Value>>, s: string)
    requires |names| == |items|
    ensures var k := FirstStop(names, s);
      Get(items, names, Text(s)) ==
        if k == |names| then Ok(None)
        else if names[k].Err? then Err(names[k].error)
        else Ok(Some(items[k]))
    decreases |items|
  {
    if items != [] && names[0].Ok? && names[0].value != Str(s) {
      GetText(items[1..], names[1..], s);
    }
  }

  /** `get` with an object answers that object exactly when it is listed. */
  lemma {:induction false} GetItem<T>(items: seq<T>, names: seq<Result<Value>>, x: T)
    requires |names| == |items|
    ensures Get(items, names, Item(x)) == if x in items then Ok(Some(x)) else Ok(None)
    decreases |items|
  {
    if items != [] && items[0] != x {
      GetItem(items[1..], names[1..], x);
      assert x in items <==> x in items[1..];
    }
  }

  /** `get` with a position or any other key finds nothing. */
  lemma GetOther<T>(items: seq<T>, names: seq<Result<Value>>, key: Key<T>)
    requires |names| == |items| && (key.Position? || key.OtherKey?)
    ensures Get(items, names, key) == Ok(None)
  {
  }

  /** `__len__`: the number of items. */
  function Length<T>(items: seq<T>): (n: nat)
  {
    |items|
  }

  /** `[n]` with an integer: Python indexing, negative positions from the end. */
  function AtPosition<T>(items: seq<T>, n: int): (r: Result<T>)
    ensures r.Ok? <==> -(Length(items) as int) <= n < Length(items)
    ensures r.Ok? ==> r.value == items[if n < 0 then n + |items| else n]
  {
    match PyIndex(n, |items|)
    case Some(k) => Ok(items[k])
    case None => Err(IndexError)
  }

  /**
   * `[...]` as it evidently is meant to work: a position indexes the list,
   * a text answers the first item of that name (KeyError when there is
   * none), and any other key answers None.
   */
  function Subscript<T>(items: seq<T>, names: seq<Result<Value>>, key: Key<T>): (r: Result<Answer<T>>)
    requires |names| == |items|
  {
    match key
    case Position(n) => (match AtPosition(items, n) case Ok(x) => Ok(Element(x)) case Err(e) => Err(e))
    case Text(s) =>
      var k := FirstStop(names, s);
      if k == |names| then Err(KeyError)
      else if names[k].Err? then Err(names[k].error)
      else Ok(Element(items[k]))
    case _ => Ok(NoAnswer)
  }

  /** A text key answers what `get` finds, with KeyError in place of None. */
  lemma SubscriptIsGet<T>(items: seq<T>, names: seq<Result<Value>>, s: string)
    requires |names| == |items|
    ensures Subscript(items, names, Text(s)) ==
      match Get(items, names, Text(s))
      case Ok(Some(x)) => Ok(Element(x))
      case Ok(None) => Err(KeyError)
      case Err(e) => Err(e)
  {
    GetText(items, names, s);
  }

  /**
   * `[...]` of pysolarwinds/list.py as written: a text key that some item
   * is named answers the key itself, not the item.
   */
  function SubscriptAsWritten<T>(items: seq<T>, names: seq<Result<Value>>, key: Key<T>): (r: Result<Answer<T>>)
    requires |names| == |items|
  {
    match key
    case Position(n) => (match AtPosition(items, n) case Ok(x) => Ok(Element(x)) case Err(e) => Err(e))
    case Text(s) =>
      var k := FirstStop(names, s);
      if k == |names| then Err(KeyError)
      else if names[k].Err? then Err(names[k].error)
      else Ok(Name(s))
    case _ => Ok(NoAnswer)
  }

  /** As written, finding an item by name answers its name instead of the item; every other answer agrees. */
  lemma SubscriptAnswersKey<T>(items: seq<T>, names: seq<Result<Value>>, key: Key<T>)
    requires |names| == |items|
    ensures key.Text? && Subscript(items, names, key).Ok? ==>
      SubscriptAsWritten(items, names, key) == Ok(Name(key.s)) && Subscript(items, names, key).value.Element?
    ensures !(key.Text? && Subscript(items, names, key).Ok?) ==>
      SubscriptAsWritten(items, names, key) == Subscript(items, names, key)
  {
  }

  /**
   * What `delete`, `disable` and `enable` of a list act on, as evidently
   * meant: for a text, the item `[...]` finds by that name; an item is
   * itself; anything else has no such method (AttributeError).
   */
  function Target<T>(items: seq<T>, names: seq<Result<Value>>, key: Key<T>): (r: Result<T>)
    requires |names| == |items|
    ensures key.Item? ==> r == Ok(key.x)
    ensures key.Position? || key.OtherKey? ==> r == Err(AttributeError)
    ensures key.Text? && r.Ok? ==>
      var k := FirstStop(names, key.s); k < |items| && r.value == items[k] && names[k] == Ok(Str(key.s))
  {
    match key
    case Text(_) =>
      (match Subscript(items, names, key)
       case Err(e) => Err(e)
       case Ok(a) => if a.Element? then Ok(a.x) else Err(KeyError))
    case Item(x) => Ok(x)
    case _ => Err(AttributeError)
  }

  /** For a text, the target is the item `get` finds under that name, KeyError when there is none. */
  lemma TargetText<T>(items: seq<T>, names: seq<Result<Value>>, s: string)
    requires |names| == |items|
    ensures Target(items, names, Text(s)) ==
      match Get(items, names, Text(s))
      case Ok(Some(x)) => Ok(x)
      case Ok(None) => Err(KeyError)
      case Err(e) => Err(e)
  {
    SubscriptIsGet(items, names, s);
  }

  /**
   * The same in pysolarwinds/list.py as written: `[...]` answers the text
   * itself, on which the method call fails with AttributeError.
   */
  function TargetAsWritten<T>(items: seq<T>, names: seq<Result<Value>>, key: Key<T>): (r: Result<T>)
    requires |names| == |items|
  {
    match key
    case Text(_) =>
      (match SubscriptAsWritten(items, names, key)
       case Err(e) => Err(e)
       case Ok(_) => Err(AttributeError))
    case Item(x) => Ok(x)
    case _ => Err(AttributeError)
  }

  /** As written, acting on an item by its name always fails, where the item is found; other keys act alike. */
  lemma TargetByNameFails<T>(items: seq<T>, names: seq<Result<Value>>, key: Key<T>)
    requires |names| == |items|
    ensures key.Text? ==> TargetAsWritten(items, names, key).Err?
    ensures key.Text? && Target(items, names, key).Ok? ==> TargetAsWritten(items, names, key) == Err(AttributeError)
    ensures !(key.Text? && Target(items, names, key).Ok?) ==> TargetAsWritten(items, names, key) == Target(items, names, key)
  {
    SubscriptAnswersKey(items, names, key);
  }

  /**
   * `[...]` of solarwinds/list.py as written: the loop variable takes the
   * key's name, so each item's name is compared with the item itself, which
   * a text never is; every text key raises KeyError. A position indexes the
   * list and any other key falls off the end (None).
   */
  function LegacySubscriptAsWritten<T>(items: seq<T>, key: Key<T>): (r: Result<Answer<T>>)
  {
    match key
    case Position(n) => (match AtPosition(items, n) case Ok(x) => Ok(Element(x)) case Err(e) => Err(e))
    case Text(_) => Err(KeyError)
    case _ => Ok(NoAnswer)
  }

  /** As written, the first generation never finds an item by name, even one that is listed. */
  lemma LegacyNeverFindsByName<T>(items: seq<T>, names: seq<Result<Value>>, s: string, i: nat)
    requires |names| == |items| && i < |items| && names[i] == Ok(Str(s))
    requires forall j :: 0 <= j < i ==> names[j].Ok? && names[j].value != Str(s)
    ensures Subscript(items, names, Text(s)) == Ok(Element(items[i]))
    ensures LegacySubscriptAsWritten(items, Text(s)) == Err(KeyError)
  {
  }

  /** Apart from text keys, the first generation's `[...]` answers as the corrected one. */
  lemma LegacyAgreesElsewhere<T>(items: seq<T>, names: seq<Result<Value>>, key: Key<T>)
    requires |names| == |items| && !key.Text?
    ensures LegacySubscriptAsWritten(items, key) == Subscript(items, names, key)
  {
  }
}
