/**
 * The first endpoint generation of a node's interfaces
 * (pysolarwinds/endpoints/orion/interface.py). An interface copies every
 * key of its record into an underscored attribute; deleting one clears its
 * URI and id. The list differs from the later endpoint list in checking that
 * the node exists before discovering, and in deleting each extraneous
 * interface through the interface itself.
 */
module LegacyInterfaces {
  import opened Wrappers
  import opened PyValue
  import opened Transport
  import Text
  import Interfaces
  import OrionInterfaces

  // ---------------------------------------------------------------------
  // Attributes of an interface
  // ---------------------------------------------------------------------

  /** The record keys whose attributes an interface starts with, all None. */
  const DefaultKeys: seq<string> := ["id", "name", "mtu", "mac_address", "duplex", "oper_status", "admin_status", "speed"]

  /**
   * The attributes after construction: the defaults None, overridden by the
   * record. The attribute `_k` that `setattr` creates for record key `k` is
   * kept here under `k` itself; the prefix only names it.
   */
  function Attrs(data: Props): (r: Props)
    ensures forall k :: k in data ==> k in r && r[k] == data[k]
  {
    Update(map k | k in DefaultKeys :: Null, data)
  }

  /** The attribute `_k`. */
  function Attr(attrs: Props, k: string): Value
  {
    Get(attrs, k)
  }

  /** A default attribute holds its record key's value, or None when the record lacks that key. */
  lemma AttrOf(data: Props, k: string)
    requires k in DefaultKeys
    ensures Attr(Attrs(data), k) == Get(data, k)
  {
  }

  /** `name`: the `_name` attribute stripped; an attribute that is not text has no `strip`. */
  function NameOf(attrs: Props): (r: Result<string>)
  {
    var v := Attr(attrs, "name");
    if v.Str? then Ok(Text.Strip(v.s)) else Err(AttributeError)
  }

  /** `enabled`: the administrative status is 1. */
  predicate EnabledOf(attrs: Props) { EqualsInt(Attr(attrs, "admin_status"), 1) }

  /** `up`: the operational status is 1. */
  predicate UpOf(attrs: Props) { EqualsInt(Attr(attrs, "oper_status"), 1) }

  /** `speed`: `int(self._speed)`. */
  function SpeedOf(attrs: Props): Result<int> { Interfaces.IntOf(Attr(attrs, "speed")) }

  /** `mtu`, evidently meant as `int(self._mtu)`. */
  function MtuOf(attrs: Props): Result<int> { Interfaces.IntOf(Attr(attrs, "mtu")) }

  /**
   * `mtu` as written returns `int(self.mtu)`, reading itself: each read
   * starts another until Python's recursion limit (`depth` calls left) is
   * spent.
   */
  function MtuAsWritten(attrs: Props, depth: nat): Result<int>
    decreases depth
  {
    if depth == 0 then Err(RecursionError)
    else match MtuAsWritten(attrs, depth - 1)
      case Err(e) => Err(e)
      case Ok(m) => Ok(m)
  }

  /** As written, `mtu` never answers, whatever the interface and however deep the stack. */
  lemma {:induction false} MtuNeverAnswers(attrs: Props, depth: nat)
    ensures MtuAsWritten(attrs, depth) == Err(RecursionError)
    decreases depth
  {
    if depth > 0 {
      MtuNeverAnswers(attrs, depth - 1);
    }
  }

  /** `name` is the record's "name", stripped; a missing or non-text name cannot be stripped. */
  lemma NameFromRecord(data: Props)
    ensures NameOf(Attrs(data)) == NameOf(data)
    ensures NameOf(data) ==
      if "name" in data && data["name"].Str? then Ok(Text.Strip(data["name"].s)) else Err(AttributeError)
  {
    AttrOf(data, "name");
  }

  /** `enabled` holds exactly when the record's "admin_status" is 1 (a missing one is None, not 1). */
  lemma EnabledFromRecord(data: Props)
    ensures EnabledOf(Attrs(data)) <==> EqualsInt(Get(data, "admin_status"), 1)
  {
    AttrOf(data, "admin_status");
  }

  /** `up` holds exactly when the record's "oper_status" is 1. */
  lemma UpFromRecord(data: Props)
    ensures UpOf(Attrs(data)) <==> EqualsInt(Get(data, "oper_status"), 1)
  {
    AttrOf(data, "oper_status");
  }

  /** `id`, `speed` and (meant) `mtu` convert the record's "id", "speed" and "mtu"; a missing one converts None. */
  lemma NumbersFromRecord(data: Props)
    ensures Interfaces.IntOf(Attr(Attrs(data), "id")) == Interfaces.IntOf(Get(data, "id"))
    ensures SpeedOf(Attrs(data)) == Interfaces.IntOf(Get(data, "speed"))
    ensures MtuOf(Attrs(data)) == Interfaces.IntOf(Get(data, "mtu"))
  {
    AttrOf(data, "id");
    AttrOf(data, "speed");
    AttrOf(data, "mtu");
  }

  /**
   * An `OrionInterface` of this generation: its record, whose keys it
   * copies into its attributes, its URI from the record's "uri" and its
   * `_id` attribute (tracked in `idAttr`, as the `id` setter and `delete`
   * change it).
   */
  class Interface {
    const data: Props
    var uri: Value
    var idAttr: Value

    constructor (data: Props)
      ensures this.data == data && uri == Get(data, "uri") && idAttr == Get(data, "id")
    {
      this.data := data;
      uri := Get(data, "uri");
      AttrOf(data, "id");
      idAttr := Attr(Attrs(data), "id");
    }

    /** The attributes as copied from the record. */
    function Attributes(): Props
    {
      Attrs(data)
    }

    /** `name`: the stripped name attribute, read from the record (as `NameFromRecord` shows it may be). */
    function Name(): Result<string>
    {
      NameOf(data)
    }

    /** The `id` setter: only `_id` changes. */
    method SetId(id: Value)
      modifies this`idAttr
      ensures idAttr == id && Id() == Interfaces.IntOf(id)
    {
      idAttr := id;
    }

    /** `id`: `int(self._id)`. */
    function Id(): Result<int>
      reads this
    {
      Interfaces.IntOf(idAttr)
    }

    /**
     * `delete`: an interface without a URI cannot look itself up (its class
     * names no query attributes); otherwise its URI is deleted and its URI
     * and id cleared, and the name is read for the log line afterwards.
     */
    method Delete(swis: Swis) returns (r: Result<bool>)
      modifies this, swis`log
      ensures !Truthy(old(uri)) ==> r == Err(SWObjectPropertyError) && swis.log == old(swis.log) && uri == old(uri) && idAttr == old(idAttr)
      ensures Truthy(old(uri)) ==>
        && swis.log == old(swis.log) + [DeleteCall([StrOf(old(uri))])] && uri == Null && idAttr == Null
        && r == (if Name().Ok? then Ok(true) else Err(Name().error))
    {
      if !Truthy(uri) {
        return Err(SWObjectPropertyError);
      }
      swis.Delete([StrOf(uri)]);
      uri := Null;
      idAttr := Null;
      var name := Name();
      if name.Err? {
        return Err(name.error);
      }
      return Ok(true);
    }
  }

  /** The interfaces built from the fetched records, one each, in order. */
  predicate BuiltFrom(ifaces: seq<Interface>, rows: seq<Props>)
    reads ifaces
  {
    && |ifaces| == |rows|
    && forall i :: 0 <= i < |rows| ==>
        ifaces[i].data == rows[i] && ifaces[i].uri == Get(rows[i], "uri") && ifaces[i].idAttr == Get(rows[i], "id")
  }

  /** `[x.uri for x in ifaces]`, as text. */
  function Uris(ifaces: seq<Interface>): (r: seq<string>)
    reads ifaces
    ensures |r| == |ifaces| && forall i :: 0 <= i < |ifaces| ==> r[i] == StrOf(ifaces[i].uri)
  {
    seq(|ifaces|, i reads ifaces requires 0 <= i < |ifaces| => StrOf(ifaces[i].uri))
  }

  /** The names of the interfaces, as read. */
  function NameResults(ifaces: seq<Interface>): (r: seq<Result<string>>)
    ensures |r| == |ifaces| && forall i :: 0 <= i < |ifaces| ==> r[i] == ifaces[i].Name()
  {
    seq(|ifaces|, i requires 0 <= i < |ifaces| => ifaces[i].Name())
  }

  /** The URIs the records of `ifaces` carry, as text. */
  function DataUris(ifaces: seq<Interface>): (r: seq<string>)
    ensures |r| == |ifaces| && forall i :: 0 <= i < |ifaces| ==> r[i] == StrOf(Get(ifaces[i].data, "uri"))
  {
    seq(|ifaces|, i requires 0 <= i < |ifaces| => StrOf(Get(ifaces[i].data, "uri")))
  }

  /** The extraneous interfaces of a list whose interfaces hold the URIs of their records hold those too. */
  lemma ListedDataUris(ifaces: seq<Interface>, names: seq<string>, requested: seq<string>)
    requires |names| == |ifaces|
    requires forall x :: x in ifaces ==> x.uri == Get(x.data, "uri")
    ensures Uris(Interfaces.Extraneous(ifaces, names, requested)) == DataUris(Interfaces.Extraneous(ifaces, names, requested))
  {
    var xs := Interfaces.Extraneous(ifaces, names, requested);
    forall i | 0 <= i < |xs|
      ensures xs[i].uri == Get(xs[i].data, "uri")
    {
      assert xs[i] in xs;
    }
  }

  /** A list freshly built from records (or left empty) holds the URIs of its records. */
  lemma FetchedUris(ifaces: seq<Interface>, rows: seq<Props>)
    requires rows == [] ==> ifaces == []
    requires rows != [] ==> BuiltFrom(ifaces, rows)
    ensures forall x :: x in ifaces ==> x.uri == Get(x.data, "uri")
  {
  }

  /** One delete per URI, in order. */
  function DeletesOf(uris: seq<string>): (r: seq<Call>)
    ensures |r| == |uris| && forall i :: 0 <= i < |uris| ==> r[i] == DeleteCall([uris[i]])
  {
    seq(|uris|, i requires 0 <= i < |uris| => DeleteCall([uris[i]]))
  }

  /** Two positions of a list without repeats hold two different objects. */
  lemma DistinctApart<T>(xs: seq<T>, i: nat, j: nat)
    requires Interfaces.Distinct(xs) && i < j < |xs|
    ensures xs[i] != xs[j]
  {
    assert xs == xs[..j] + xs[j..];
    assert xs[..j][i] == xs[i];
    assert xs[j..][0] == xs[j];
    assert multiset(xs) == multiset(xs[..j]) + multiset(xs[j..]);
    assert multiset(xs[..j])[xs[i]] >= 1 && multiset(xs[j..])[xs[j]] >= 1;
  }

  /** A list without repeats holds pairwise different objects. */
  lemma DistinctPairs<T>(xs: seq<T>)
    requires Interfaces.Distinct(xs)
    ensures forall j, k :: 0 <= j < k < |xs| ==> xs[j] != xs[k]
  {
    forall j, k | 0 <= j < k < |xs|
      ensures xs[j] != xs[k]
    {
      DistinctApart(xs, j, k);
    }
  }

  /** One more URI, one more delete. */
  lemma DeletesOfStep(uris: seq<string>, i: nat)
    requires i < |uris|
    ensures DeletesOf(uris[..i + 1]) == DeletesOf(uris[..i]) + [DeleteCall([uris[i]])]
  {
  }

  /** Extending a list without repeats by an element it lacks keeps it without repeats. */
  lemma FreshDistinct<T>(xs: seq<T>, k: nat)
    requires k <= |xs| && Interfaces.Distinct(xs[..k])
    requires k < |xs| ==> xs[k] !in xs[..k]
    ensures k < |xs| ==> Interfaces.Distinct(xs[..k + 1])
  {
    if k < |xs| {
      var p := xs[..k + 1];
      assert p == xs[..k] + [xs[k]];
      assert multiset(p) == multiset(xs[..k]) + multiset{xs[k]};
      forall i | 0 <= i < |p|
        ensures multiset(p)[p[i]] == 1
      {
        if i < k {
          assert p[i] == xs[..k][i];
          assert p[i] != xs[k];
        } else {
          assert xs[k] !in multiset(xs[..k]);
        }
      }
    }
  }

  /** A list whose positions hold pairwise different objects is without repeats. */
  lemma {:induction false} PairwiseDistinct<T>(xs: seq<T>)
    requires forall j, k :: 0 <= j < k < |xs| ==> xs[j] != xs[k]
    ensures Interfaces.Distinct(xs)
  {
    if xs != [] {
      var n := |xs| - 1;
      PairwiseDistinct(xs[..n]);
      assert xs[n] !in xs[..n];
      FreshDistinct(xs, n);
      assert xs[..n + 1] == xs;
    }
  }

  /** `[OrionInterface(node, data) for data in rows]`: one new interface per record; none of them fails. */
  method BuildAll(rows: seq<Props>) returns (r: seq<Interface>)
    ensures BuiltFrom(r, rows) && Interfaces.Distinct(r)
    ensures forall i :: 0 <= i < |r| ==> fresh(r[i])
  {
    r := [];
    var i := 0;
    while i < |rows|
      invariant 0 <= i <= |rows| && |r| == i
      invariant forall j :: 0 <= j < i ==> fresh(r[j])
      invariant forall j :: 0 <= j < i ==>
        r[j].data == rows[j] && r[j].uri == Get(rows[j], "uri") && r[j].idAttr == Get(rows[j], "id")
      invariant forall j, k :: 0 <= j < k < i ==> r[j] != r[k]
    {
      var x := new Interface(rows[i]);
      r := r + [x];
      i := i + 1;
    }
    PairwiseDistinct(r);
  }

  // ---------------------------------------------------------------------
  // The list
  // ---------------------------------------------------------------------

  /**
   * A delete that went out (`ok`) adds that delete to whatever was sent
   * since any earlier point; one that did not at least keeps the log.
   */
  lemma DeleteSent(before: seq<Call>, after: seq<Call>, uri: string, ok: bool)
    requires ok ==> after == before + [DeleteCall([uri])]
    requires !ok ==> Extends(before, after)
    ensures forall p, w :: SentSince(p, before, w) ==>
      if ok then SentSince(p, after, w + [DeleteCall([uri])]) else Extends(p, after)
  {
    forall p, w | SentSince(p, before, w)
      ensures if ok then SentSince(p, after, w + [DeleteCall([uri])]) else Extends(p, after)
    {
      if ok {
        SentWrite(before, DeleteCall([uri]));
        SentSinceTrans(p, before, after, w, [DeleteCall([uri])]);
      } else {
        ExtendsTrans(p, before, after);
      }
    }
  }

  /**
   * `OrionInterfaces` of this generation: the node's monitored interfaces
   * (`_existing`, never listing one object twice), the records found by
   * the last discovery (`_discovered`) and its result code.
   */
  class InterfaceList {
    const swis: Swis
    const nodeId: Value
    const pollingMethod: Value
    var existing: seq<Interface>
    var discovered: seq<Props>
    var responseCode: Value

    /** Every listed interface is listed once. */
    predicate Valid()
      reads this
    {
      Interfaces.Distinct(existing)
    }

    constructor (swis: Swis, nodeId: Value, pollingMethod: Value)
      ensures this.swis == swis && this.nodeId == nodeId && this.pollingMethod == pollingMethod
      ensures existing == [] && discovered == [] && responseCode == Null
      ensures Valid()
    {
      this.swis := swis;
      this.nodeId := nodeId;
      this.pollingMethod := pollingMethod;
      existing := [];
      discovered := [];
      responseCode := Null;
    }

    /** `add`: one invoke with the given records. */
    method Add(rows: seq<Props>)
      modifies swis`log
      ensures swis.log == old(swis.log) + [Interfaces.AddCall(nodeId, rows)]
    {
      swis.InvokeRows("Orion.NPM.Interfaces", "AddInterfacesOnNode", nodeId, rows, "AddDefaultPollers");
    }

    /** `fetch`: the node's interfaces, one per record; no records keeps the list. */
    method Fetch()
      requires Valid()
      modifies this`existing, swis`log
      ensures Valid()
      ensures swis.log == old(swis.log) + [QueryCall(Interfaces.ListQuery(nodeId))]
      ensures var rows := swis.RowsFor(Interfaces.ListQuery(nodeId));
        && (rows == [] ==> existing == old(existing))
        && (rows != [] ==> BuiltFrom(existing, rows) && forall i :: 0 <= i < |rows| ==> fresh(existing[i]))
    {
      var rows := swis.RunQuery(Interfaces.ListQuery(nodeId));
      if rows != [] {
        existing := BuildAll(rows);
      }
    }

    /** `delete`: one bulk delete of the given interfaces, then each listed one is dropped; answers True. */
    method Delete(given: seq<Interface>) returns (r: bool)
      requires Valid()
      modifies this`existing, swis`log
      ensures r && Valid()
      ensures swis.log == old(swis.log) + [DeleteCall(old(Uris(given)))]
      ensures existing == Interfaces.RemoveEach(old(existing), given)
    {
      swis.Delete(Uris(given));
      Interfaces.RemoveEachDistinct(existing, given);
      existing := Interfaces.RemoveAll(existing, given);
      return true;
    }

    /** `delete_all`: every listed interface is deleted in one call, even none, and the list emptied; answers True. */
    method DeleteAll() returns (r: bool)
      modifies this`existing, swis`log
      ensures r && existing == [] && Valid()
      ensures swis.log == old(swis.log) + [DeleteCall(Uris(old(existing)))]
    {
      swis.Delete(Uris(existing));
      existing := [];
      return true;
    }

    /**
     * `discover` as written: after the existence and polling-method checks
     * it calls `_resolve_endpoint_attrs`, which this list class does not
     * have, or reads `swis.hostname`, which the client does not have;
     * either way AttributeError, before the discovery verb is invoked.
     */
    method DiscoverAsWritten(nodeExists: bool, engineObject: bool) returns (r: Result<Value>)
      ensures !nodeExists ==> r == Err(SWObjectDoesNotExist)
      ensures nodeExists && pollingMethod != Str("snmp") ==> r == Err(SWObjectPropertyError)
      ensures nodeExists && pollingMethod == Str("snmp") ==> r == Err(AttributeError)
    {
      if !nodeExists {
        return Err(SWObjectDoesNotExist);
      }
      if pollingMethod != Str("snmp") {
        return Err(SWObjectPropertyError);
      }
      if !engineObject {
        return Err(AttributeError);
      }
      return Err(AttributeError);
    }

    /**
     * `discover` as evidently meant, with the host switch left out: a node
     * that does not exist is refused first, then one not
     * polled by SNMP; otherwise the answer's code decides as in the later
     * endpoint list.
     */
    method Discover(nodeExists: bool, answer: Interfaces.DiscoveryAnswer) returns (r: Result<Value>)
      modifies this`discovered, this`responseCode, swis`log
      ensures !nodeExists ==>
        && r == Err(SWObjectDoesNotExist) && swis.log == old(swis.log)
        && discovered == old(discovered) && responseCode == old(responseCode)
      ensures nodeExists && pollingMethod != Str("snmp") ==>
        && r == Err(SWObjectPropertyError) && swis.log == old(swis.log)
        && discovered == old(discovered) && responseCode == old(responseCode)
      ensures nodeExists && pollingMethod == Str("snmp") ==>
        var outcome := OrionInterfaces.DiscoveryRows(answer);
        && swis.log == old(swis.log) + [Interfaces.DiscoverCall(nodeId)] && responseCode == answer.code
        && (r.Ok? <==> outcome.Ok?)
        && (r.Err? ==> r.error == outcome.error && discovered == old(discovered))
        && (r.Ok? && outcome.value.Some? ==> r.value == Bool(true) && discovered == answer.rows)
        && (r.Ok? && outcome.value.None? ==> r.value == Null && discovered == old(discovered))
    {
      if !nodeExists {
        return Err(SWObjectDoesNotExist);
      }
      if pollingMethod != Str("snmp") {
        return Err(SWObjectPropertyError);
      }
      var _ := swis.Invoke("Orion.NPM.Interfaces", "DiscoverInterfacesOnNode", [nodeId]);
      responseCode := answer.code;
      var outcome := OrionInterfaces.DiscoveryRows(answer);
      if outcome.Err? {
        return Err(outcome.error);
      }
      if outcome.value.None? {
        return Ok(Null);
      }
      discovered := outcome.value.value;
      return Ok(Bool(true));
    }

    /** `monitor()` with no names: discover, then add every discovered record. */
    method MonitorAll(nodeExists: bool, answer: Interfaces.DiscoveryAnswer) returns (r: Result<()>)
      modifies this`discovered, this`responseCode, swis`log
      ensures r.Ok? ==> SentSince(old(swis.log), swis.log, [Interfaces.DiscoverCall(nodeId), Interfaces.AddCall(nodeId, discovered)])
      ensures r.Err? ==> swis.log == old(swis.log) || swis.log == old(swis.log) + [Interfaces.DiscoverCall(nodeId)]
    {
      ghost var log0 := swis.log;
      var d := Discover(nodeExists, answer);
      if d.Err? {
        return Err(d.error);
      }
      SentWrite(log0, Interfaces.DiscoverCall(nodeId));
      ghost var log1 := swis.log;
      Add(discovered);
      SentWrite(log1, Interfaces.AddCall(nodeId, discovered));
      SentSinceTrans(log0, log1, swis.log, [Interfaces.DiscoverCall(nodeId)], [Interfaces.AddCall(nodeId, discovered)]);
      return Ok(());
    }

    /** The missing-names step of `monitor(names)`: discover, then add the requested records if any. */
    method AddRequested(requested: seq<string>, nodeExists: bool, answer: Interfaces.DiscoveryAnswer) returns (r: Result<()>)
      modifies this`discovered, this`responseCode, swis`log
      ensures r.Ok? ==> OrionInterfaces.ToAdd(discovered, requested).Ok?
      ensures r.Ok? ==>
        SentSince(old(swis.log), swis.log,
                  [Interfaces.DiscoverCall(nodeId)] + OrionInterfaces.AddedRows(nodeId, OrionInterfaces.ToAdd(discovered, requested).value))
      ensures r.Err? ==> Extends(old(swis.log), swis.log)
    {
      ghost var log0 := swis.log;
      var d := Discover(nodeExists, answer);
      if d.Err? {
        assert swis.log[..|log0|] == log0;
        return Err(d.error);
      }
      SentWrite(log0, Interfaces.DiscoverCall(nodeId));
      ghost var log1 := swis.log;
      var picked := OrionInterfaces.ToAdd(discovered, requested);
      if picked.Err? {
        assert swis.log[..|log0|] == log0;
        return Err(picked.error);
      }
      if picked.value != [] {
        Add(picked.value);
        SentWrite(log1, Interfaces.AddCall(nodeId, picked.value));
      } else {
        SentNothing(log1);
      }
      SentSinceTrans(log0, log1, swis.log, [Interfaces.DiscoverCall(nodeId)], OrionInterfaces.AddedRows(nodeId, picked.value));
      return Ok(());
    }

    /**
     * What `monitor(names)` leaves, for the names `names` of the listed
     * interfaces: the records were discovered only when a requested name
     * was missing, every extraneous interface is deleted when asked, and
     * what was sent since `log0` is the discovery and adds, then one
     * delete per extraneous URI (`uris`, as they were before).
     */
    predicate MonitoredNamed(requested: seq<string>, names: seq<string>, deleteExtraneous: bool,
                             discovered0: seq<Props>, log0: seq<Call>, uris: seq<string>)
      reads this, swis, existing
      requires |names| == |existing|
      reads Interfaces.Extraneous(existing, names, requested)
    {
      var missing := Interfaces.Missing(requested, names);
      var extraneous := Interfaces.Extraneous(existing, names, requested);
      && (missing == [] ==> discovered == discovered0)
      && (missing != [] ==> OrionInterfaces.ToAdd(discovered, requested).Ok?)
      && (deleteExtraneous ==> forall i :: 0 <= i < |extraneous| ==> extraneous[i].uri == Null)
      && SentSince(log0, swis.log,
           (if missing != [] then [Interfaces.DiscoverCall(nodeId)] + OrionInterfaces.AddedRows(nodeId, OrionInterfaces.ToAdd(discovered, requested).value) else [])
           + (if deleteExtraneous then DeletesOf(uris) else []))
    }

    /**
     * `monitor(names)` once the names of the listed interfaces are read:
     * requested names not present are discovered and the records whose
     * caption starts with a requested name added; with `deleteExtraneous`,
     * each interface not requested deletes itself. The list keeps its
     * interfaces.
     */
    method MonitorNames(requested: seq<string>, names: seq<string>, deleteExtraneous: bool, nodeExists: bool,
                        answer: Interfaces.DiscoveryAnswer) returns (r: Result<()>)
      requires Valid() && |names| == |existing|
      modifies this`discovered, this`responseCode, swis`log, existing
      ensures r.Ok? ==> MonitoredNamed(requested, names, deleteExtraneous, old(discovered), old(swis.log),
                                       old(Uris(Interfaces.Extraneous(existing, names, requested))))
      ensures r.Err? ==> Extends(old(swis.log), swis.log)
    {
      var missing := Interfaces.Missing(requested, names);
      ghost var extraneous := Interfaces.Extraneous(existing, names, requested);
      ghost var uris := Uris(extraneous);
      r := AddMissing(requested, missing, nodeExists, answer);
      if r.Err? {
        return;
      }
      assert Uris(extraneous) == uris;
      r := DeleteExtraneous(deleteExtraneous, names, requested);
    }

    /** The first step of `monitor(names)`: only when a requested name is missing, discover and add. */
    method AddMissing(requested: seq<string>, missing: seq<string>, nodeExists: bool, answer: Interfaces.DiscoveryAnswer)
      returns (r: Result<()>)
      modifies this`discovered, this`responseCode, swis`log
      ensures r.Ok? ==>
        && (missing == [] ==> discovered == old(discovered))
        && (missing != [] ==> OrionInterfaces.ToAdd(discovered, requested).Ok?)
        && SentSince(old(swis.log), swis.log,
             if missing != [] then [Interfaces.DiscoverCall(nodeId)] + OrionInterfaces.AddedRows(nodeId, OrionInterfaces.ToAdd(discovered, requested).value) else [])
      ensures r.Err? ==> missing != [] && Extends(old(swis.log), swis.log)
    {
      if missing != [] {
        r := AddRequested(requested, nodeExists, answer);
      } else {
        SentNothing(swis.log);
        r := Ok(());
      }
    }

    /**
     * The last step of `monitor(names)`: with `deleteExtraneous`, each
     * interface not requested deletes itself; its deletes follow whatever
     * was sent before.
     */
    method DeleteExtraneous(deleteExtraneous: bool, names: seq<string>, requested: seq<string>) returns (r: Result<()>)
      requires Valid() && |names| == |existing|
      modifies swis`log, existing
      ensures var xs := Interfaces.Extraneous(existing, names, requested);
        r.Ok? ==>
          && (deleteExtraneous ==> forall i :: 0 <= i < |xs| ==> xs[i].uri == Null)
          && forall p, w :: SentSince(p, old(swis.log), w) ==>
               SentSince(p, swis.log, w + if deleteExtraneous then DeletesOf(old(Uris(xs))) else [])
      ensures r.Err? ==> deleteExtraneous && forall p :: Extends(p, old(swis.log)) ==> Extends(p, swis.log)
      ensures existing == old(existing) && discovered == old(discovered)
    {
      var xs := Interfaces.Extraneous(existing, names, requested);
      ghost var before := swis.log;
      ghost var uris := Uris(xs);
      if !deleteExtraneous {
        assert forall w: seq<Call> :: w + [] == w;
        return Ok(());
      }
      ExtraneousDistinct(existing, names, requested);
      DistinctPairs(xs);
      r := DeleteEach(xs, existing);
      forall p, w | SentSince(p, before, w)
        ensures r.Ok? ==> SentSince(p, swis.log, w + DeletesOf(uris))
      {
        if r.Ok? {
          SentSinceTrans(p, before, swis.log, w, DeletesOf(uris));
        }
      }
      forall p | Extends(p, before)
        ensures r.Err? ==> Extends(p, swis.log)
      {
        if r.Err? {
          ExtendsTrans(p, before, swis.log);
        }
      }
    }

    /**
     * The extraneous-interfaces step of `monitor(names)`: each interface
     * deletes itself in turn, and the first that cannot stops the rest.
     */
    method DeleteEach(xs: seq<Interface>, within: seq<Interface>) returns (r: Result<()>)
      requires forall j, k :: 0 <= j < k < |xs| ==> xs[j] != xs[k]
      requires forall i :: 0 <= i < |xs| ==> xs[i] in within
      modifies swis`log, within
      ensures r.Ok? <==> forall i :: 0 <= i < |xs| ==> Truthy(old(xs[i].uri)) && xs[i].Name().Ok?
      ensures r.Ok? ==> forall i :: 0 <= i < |xs| ==> xs[i].uri == Null && xs[i].idAttr == Null
      ensures r.Ok? ==> SentSince(old(swis.log), swis.log, DeletesOf(old(Uris(xs))))
      ensures r.Err? ==> Extends(old(swis.log), swis.log)
    {
      ghost var uris := Uris(xs);
      SentNothing(swis.log);
      var i := 0;
      while i < |xs|
        invariant 0 <= i <= |xs|
        invariant forall j :: i <= j < |xs| ==> xs[j].uri == old(xs[j].uri)
        invariant forall j :: 0 <= j < i ==> Truthy(old(xs[j].uri)) && xs[j].Name().Ok? && xs[j].uri == Null && xs[j].idAttr == Null
        invariant SentSince(old(swis.log), swis.log, DeletesOf(uris[..i]))
      {
        var d := DeleteAt(xs, i, uris[i]);
        if d.Err? {
          return Err(d.error);
        }
        DeletesOfStep(uris, i);
        i := i + 1;
      }
      assert uris[..i] == uris;
      return Ok(());
    }

    /** One step of `DeleteEach`: the `i`th interface deletes itself and no other one changes. */
    method DeleteAt(xs: seq<Interface>, i: nat, ghost uri: string) returns (d: Result<bool>)
      requires i < |xs| && uri == StrOf(xs[i].uri)
      requires forall j, k :: 0 <= j < k < |xs| ==> xs[j] != xs[k]
      modifies swis`log, xs[i]
      ensures d.Ok? <==> Truthy(old(xs[i].uri)) && xs[i].Name().Ok?
      ensures d.Ok? ==> xs[i].uri == Null && xs[i].idAttr == Null
      ensures forall p, w :: SentSince(p, old(swis.log), w) ==>
        if d.Ok? then SentSince(p, swis.log, w + [DeleteCall([uri])]) else Extends(p, swis.log)
      ensures forall j :: 0 <= j < |xs| && j != i ==> xs[j].uri == old(xs[j].uri) && xs[j].idAttr == old(xs[j].idAttr)
    {
      ghost var before := swis.log;
      d := xs[i].Delete(swis);
      DeleteSent(before, swis.log, uri, d.Ok?);
      OthersDiffer(xs, i);
    }

    /** Every interface other than the `i`th of a list without repeats is a different object. */
    lemma OthersDiffer(xs: seq<Interface>, i: nat)
      requires i < |xs| && forall j, k :: 0 <= j < k < |xs| ==> xs[j] != xs[k]
      ensures forall j :: 0 <= j < |xs| && j != i ==> xs[j] != xs[i]
    {
      forall j | 0 <= j < |xs| && j != i
        ensures xs[j] != xs[i]
      {
        if j < i {
          assert xs[j] != xs[i];
        } else {
          assert xs[i] != xs[j];
        }
      }
    }

    /**
     * `monitor`: fetch first when nothing is listed, then monitor everything
     * discovered or the requested ones. The extraneous interfaces are
     * deleted by the URIs they had once listed: the ones held, or for a
     * fetched list the ones of their records.
     */
    method Monitor(requested: Option<seq<string>>, deleteExtraneous: bool, nodeExists: bool, answer: Interfaces.DiscoveryAnswer)
      returns (r: Result<()>)
      requires Valid()
      modifies this`existing, this`discovered, this`responseCode, swis`log, existing
      ensures Extends(old(swis.log), swis.log)
      ensures old(existing) == [] ==> |swis.log| > |old(swis.log)| && swis.log[|old(swis.log)|] == QueryCall(Interfaces.ListQuery(nodeId))
      ensures old(existing) != [] ==> existing == old(existing)
      ensures requested.None? && r.Ok? ==>
        SentSince(old(swis.log), swis.log, [Interfaces.DiscoverCall(nodeId), Interfaces.AddCall(nodeId, discovered)])
      ensures requested.Some? && r.Ok? ==>
        && Interfaces.NamesOf(NameResults(existing)).Ok?
        && var names := Interfaces.NamesOf(NameResults(existing)).value;
           var xs := Interfaces.Extraneous(existing, names, requested.value);
           && |names| == |existing|
           && MonitoredNamed(requested.value, names, deleteExtraneous, old(discovered), old(swis.log),
                             if old(existing) != [] then old(Uris(xs)) else DataUris(xs))
    {
      if existing == [] {
        r := MonitorEmpty(requested, deleteExtraneous, nodeExists, answer);
      } else {
        r := MonitorHeld(requested, deleteExtraneous, nodeExists, answer);
      }
    }

    /** `monitor` on an empty list: the list is fetched and the extraneous interfaces deleted by the URIs of their records. */
    method MonitorEmpty(requested: Option<seq<string>>, deleteExtraneous: bool, nodeExists: bool, answer: Interfaces.DiscoveryAnswer)
      returns (r: Result<()>)
      requires Valid() && existing == []
      modifies this`existing, this`discovered, this`responseCode, swis`log, existing
      ensures Extends(old(swis.log), swis.log)
      ensures |swis.log| > |old(swis.log)| && swis.log[|old(swis.log)|] == QueryCall(Interfaces.ListQuery(nodeId))
      ensures requested.None? && r.Ok? ==>
        SentSince(old(swis.log), swis.log, [Interfaces.DiscoverCall(nodeId), Interfaces.AddCall(nodeId, discovered)])
      ensures requested.Some? && r.Ok? ==>
        && Interfaces.NamesOf(NameResults(existing)).Ok?
        && var names := Interfaces.NamesOf(NameResults(existing)).value;
           && |names| == |existing|
           && MonitoredNamed(requested.value, names, deleteExtraneous, old(discovered), old(swis.log),
                             DataUris(Interfaces.Extraneous(existing, names, requested.value)))
    {
      FetchIfEmpty();
      ghost var log1 := swis.log;
      ghost var uris: seq<string> := [];
      if requested.Some? && Interfaces.NamesOf(NameResults(existing)).Ok? {
        ghost var names := Interfaces.NamesOf(NameResults(existing)).value;
        uris := Uris(Interfaces.Extraneous(existing, names, requested.value));
        ListedDataUris(existing, names, requested.value);
      }
      r := MonitorFetched(requested, deleteExtraneous, nodeExists, answer, uris, old(swis.log));
      assert swis.log[..|log1|][|old(swis.log)|] == swis.log[|old(swis.log)|];
    }

    /** `monitor` on a list already held: the extraneous interfaces are deleted by the URIs they hold. */
    method MonitorHeld(requested: Option<seq<string>>, deleteExtraneous: bool, nodeExists: bool, answer: Interfaces.DiscoveryAnswer)
      returns (r: Result<()>)
      requires Valid() && existing != []
      modifies this`discovered, this`responseCode, swis`log, existing
      ensures Extends(old(swis.log), swis.log)
      ensures existing == old(existing)
      ensures requested.None? && r.Ok? ==>
        SentSince(old(swis.log), swis.log, [Interfaces.DiscoverCall(nodeId), Interfaces.AddCall(nodeId, discovered)])
      ensures requested.Some? && r.Ok? ==>
        && Interfaces.NamesOf(NameResults(existing)).Ok?
        && var names := Interfaces.NamesOf(NameResults(existing)).value;
           var xs := Interfaces.Extraneous(existing, names, requested.value);
           && |names| == |existing|
           && MonitoredNamed(requested.value, names, deleteExtraneous, old(discovered), old(swis.log), old(Uris(xs)))
    {
      ghost var uris: seq<string> := [];
      if requested.Some? && Interfaces.NamesOf(NameResults(existing)).Ok? {
        uris := Uris(Interfaces.Extraneous(existing, Interfaces.NamesOf(NameResults(existing)).value, requested.value));
      }
      SentNothing(swis.log);
      r := MonitorFetched(requested, deleteExtraneous, nodeExists, answer, uris, swis.log);
    }

    /**
     * `monitor` after the fetch step, which sent only reads since `log0`;
     * `uris` are the URIs the extraneous interfaces hold.
     */
    method MonitorFetched(requested: Option<seq<string>>, deleteExtraneous: bool, nodeExists: bool, answer: Interfaces.DiscoveryAnswer,
                          ghost uris: seq<string>, ghost log0: seq<Call>)
      returns (r: Result<()>)
      requires Valid() && SentSince(log0, swis.log, [])
      requires requested.Some? && Interfaces.NamesOf(NameResults(existing)).Ok? ==>
        uris == Uris(Interfaces.Extraneous(existing, Interfaces.NamesOf(NameResults(existing)).value, requested.value))
      modifies this`discovered, this`responseCode, swis`log, existing
      ensures Extends(log0, swis.log) && Extends(old(swis.log), swis.log)
      ensures existing == old(existing)
      ensures requested.None? && r.Ok? ==>
        SentSince(log0, swis.log, [Interfaces.DiscoverCall(nodeId), Interfaces.AddCall(nodeId, discovered)])
      ensures requested.Some? && r.Ok? ==>
        && Interfaces.NamesOf(NameResults(existing)).Ok?
        && |Interfaces.NamesOf(NameResults(existing)).value| == |existing|
        && MonitoredNamed(requested.value, Interfaces.NamesOf(NameResults(existing)).value, deleteExtraneous, old(discovered), log0, uris)
    {
      ghost var log1 := swis.log;
      r := MonitorListed(requested, deleteExtraneous, nodeExists, answer);
      if r.Ok? {
        if requested.None? {
          ghost var w := [Interfaces.DiscoverCall(nodeId), Interfaces.AddCall(nodeId, discovered)];
          SentSinceTrans(log0, log1, swis.log, [], w);
          assert [] + w == w;
        } else {
          MonitoredNamedSince(requested.value, Interfaces.NamesOf(NameResults(existing)).value, deleteExtraneous, old(discovered), log0, log1, uris);
        }
      }
      ExtendsTrans(log0, log1, swis.log);
    }

    /** The first step of `monitor`: an empty list is fetched, and its interfaces then hold the URIs of their records. */
    method FetchIfEmpty()
      requires Valid()
      modifies this`existing, swis`log
      ensures Valid() && SentSince(old(swis.log), swis.log, [])
      ensures old(existing) == [] ==>
        && swis.log == old(swis.log) + [QueryCall(Interfaces.ListQuery(nodeId))]
        && (forall x :: x in existing ==> x.uri == Get(x.data, "uri"))
        && forall i :: 0 <= i < |existing| ==> fresh(existing[i])
      ensures old(existing) != [] ==> existing == old(existing) && swis.log == old(swis.log)
    {
      if existing == [] {
        Fetch();
        SentReads(old(swis.log), [QueryCall(Interfaces.ListQuery(nodeId))]);
        FetchedUris(existing, swis.RowsFor(Interfaces.ListQuery(nodeId)));
      } else {
        SentNothing(swis.log);
      }
    }

    /** Reads sent before `monitor(names)` leave what it sent unchanged. */
    lemma MonitoredNamedSince(requested: seq<string>, names: seq<string>, deleteExtraneous: bool,
                              discovered0: seq<Props>, log0: seq<Call>, log1: seq<Call>, uris: seq<string>)
      requires |names| == |existing|
      requires SentSince(log0, log1, [])
      requires MonitoredNamed(requested, names, deleteExtraneous, discovered0, log1, uris)
      ensures MonitoredNamed(requested, names, deleteExtraneous, discovered0, log0, uris)
    {
      var missing := Interfaces.Missing(requested, names);
      var w := (if missing != [] then [Interfaces.DiscoverCall(nodeId)] + OrionInterfaces.AddedRows(nodeId, OrionInterfaces.ToAdd(discovered, requested).value) else [])
               + (if deleteExtraneous then DeletesOf(uris) else []);
      SentSinceTrans(log0, log1, swis.log, [], w);
      assert [] + w == w;
    }

    /** `monitor` once the interfaces are listed: everything discovered, or the requested names. */
    method MonitorListed(requested: Option<seq<string>>, deleteExtraneous: bool, nodeExists: bool, answer: Interfaces.DiscoveryAnswer)
      returns (r: Result<()>)
      requires Valid()
      modifies this`discovered, this`responseCode, swis`log, existing
      ensures Extends(old(swis.log), swis.log)
      ensures requested.None? && r.Ok? ==>
        SentSince(old(swis.log), swis.log, [Interfaces.DiscoverCall(nodeId), Interfaces.AddCall(nodeId, discovered)])
      ensures requested.Some? && r.Ok? ==>
        && Interfaces.NamesOf(NameResults(existing)).Ok?
        && var names := Interfaces.NamesOf(NameResults(existing)).value;
           && |names| == |existing|
           && MonitoredNamed(requested.value, names, deleteExtraneous, old(discovered), old(swis.log),
                             old(Uris(Interfaces.Extraneous(existing, names, requested.value))))
    {
      if requested.None? {
        r := MonitorAll(nodeExists, answer);
        if r.Err? {
          assert swis.log[..|old(swis.log)|] == old(swis.log);
        }
      } else {
        var ns := Interfaces.NamesOf(NameResults(existing));
        if ns.Err? {
          r := Err(ns.error);
        } else {
          r := MonitorNames(requested.value, ns.value, deleteExtraneous, nodeExists, answer);
        }
      }
    }

    /** `__getitem__`: an int position, else the first exact name, else the abbreviation. */
    method GetItem(key: Interfaces.Key) returns (r: Result<Interface>)
      ensures r == Interfaces.LookupIn(existing, Interfaces.NamesOf(NameResults(existing)), key)
    {
      var names := Interfaces.CollectNames(NameResults(existing));
      r := Interfaces.FindIn(existing, names, key);
    }
  }

  /** Interfaces picked out of a list without repeats are without repeats. */
  lemma ExtraneousDistinct(xs: seq<Interface>, names: seq<string>, requested: seq<string>)
    requires |names| == |xs| && Interfaces.Distinct(xs)
    ensures var e := Interfaces.Extraneous(xs, names, requested);
      Interfaces.Distinct(e) && forall i :: 0 <= i < |e| ==> e[i] in xs
  {
    var e := Interfaces.Extraneous(xs, names, requested);
    Interfaces.ExtraneousWithin(xs, names, requested);
    forall i | 0 <= i < |e|
      ensures multiset(e)[e[i]] == 1 && e[i] in xs
    {
      assert e[i] in e;
      assert e[i] in xs;
      assert multiset(e)[e[i]] <= multiset(xs)[e[i]];
      var k :| 0 <= k < |xs| && xs[k] == e[i];
    }
  }
}
