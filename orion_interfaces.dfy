/**
 * The interfaces of a node as the endpoint layer keeps them
 * (`OrionInterfaces` of pysolarwinds/endpoints/orion/interfaces.py). It
 * shares its interface objects, its lookup and its deletion with the entity
 * layer; it differs in keeping the raw discovery records, in selecting
 * requested interfaces by the first word of their caption, and in deleting
 * extraneous interfaces one at a time.
 */
module OrionInterfaces {
  import opened Wrappers
  import opened PyValue
  import opened Transport
  import Text
  import Interfaces

  /**
   * The result codes of `discover`, keeping the records as they came: 0
   * with records is a success, 0 without records and any code but 0 and 1
   * are discovery errors, and 1 is let through without touching anything.
   */
  function DiscoveryRows(answer: Interfaces.DiscoveryAnswer): (r: Result<Option<seq<Props>>>)
    ensures EqualsInt(answer.code, 0) ==> r == (if answer.rows == [] then Err(SWDiscoveryError) else Ok(Some(answer.rows)))
    ensures EqualsInt(answer.code, 1) ==> r == Ok(None)
    ensures !EqualsInt(answer.code, 0) && !EqualsInt(answer.code, 1) ==> r == Err(SWDiscoveryError)
  {
    if EqualsInt(answer.code, 0) then
      if answer.rows == [] then Err(SWDiscoveryError) else Ok(Some(answer.rows))
    else if EqualsInt(answer.code, 1) then Ok(None)
    else Err(SWDiscoveryError)
  }

  /**
   * Both layers read the same result codes the same way: a code one of
   * them rejects the other rejects with the same error, and when both
   * accept, the entity layer's discovered interfaces are built from the
   * endpoint layer's records, or both leave the discovered list alone.
   */
  lemma SameCodes(answer: Interfaces.DiscoveryAnswer)
    ensures DiscoveryRows(answer).Err? ==> Interfaces.DiscoveryOutcome(answer) == Err(DiscoveryRows(answer).error)
    ensures DiscoveryRows(answer) == Ok(None) <==> Interfaces.DiscoveryOutcome(answer) == Ok(None)
    ensures DiscoveryRows(answer).Ok? && DiscoveryRows(answer).value.Some? ==>
      Interfaces.DiscoveryOutcome(answer) ==
        match Interfaces.DiscoveredAll(DiscoveryRows(answer).value.value)
        case Err(e) => Err(e)
        case Ok(ds) => Ok(Some(ds))
  {
  }

  /** The text before the first space holds no space, and what follows it starts with one. */
  lemma {:induction false} BeforeSpace(s: string)
    ensures var r := Text.BeforeFirst(s, " ");
      && |r| <= |s| && r == s[..|r|]
      && (forall i :: 0 <= i < |r| ==> r[i] != ' ')
      && (|r| < |s| ==> s[|r|] == ' ')
    decreases |s|
  {
    if s != [] && !Text.StartsWith(s, " ") {
      BeforeSpace(s[1..]);
      assert s[..1] == [s[0]];
    }
  }

  /**
   * `x["Caption"].split(" ")[0]`: the first space-separated word of a
   * discovery record's caption; a missing caption is a KeyError and one
   * that is not text has no `split`.
   */
  function CaptionWord(row: Props): (r: Result<string>)
    ensures "Caption" !in row ==> r == Err(KeyError)
    ensures "Caption" in row && !row["Caption"].Str? ==> r == Err(AttributeError)
    ensures "Caption" in row && row["Caption"].Str? ==>
      var c := row["Caption"].s;
      && r.Ok? && |r.value| <= |c| && r.value == c[..|r.value|]
      && (forall i :: 0 <= i < |r.value| ==> r.value[i] != ' ')
      && (|r.value| < |c| ==> c[|r.value|] == ' ')
  {
    if "Caption" !in row then Err(KeyError)
    else if !row["Caption"].Str? then Err(AttributeError)
    else
      BeforeSpace(row["Caption"].s);
      Ok(Text.BeforeFirst(row["Caption"].s, " "))
  }

  /**
   * `[x for x in discovered if x["Caption"].split(" ")[0] in requested]`:
   * the records whose caption's first word was requested, in order, or
   * the error of the first caption that cannot be split.
   */
  function ToAdd(rows: seq<Props>, requested: seq<string>): (r: Result<seq<Props>>)
    ensures r.Ok? <==> forall i :: 0 <= i < |rows| ==> CaptionWord(rows[i]).Ok?
    ensures r.Ok? ==> forall x :: x in r.value <==> x in rows && CaptionWord(x).Ok? && CaptionWord(x).value in requested
    ensures r.Err? ==> exists i :: 0 <= i < |rows| && CaptionWord(rows[i]) == Err(r.error) &&
                                  forall j :: 0 <= j < i ==> CaptionWord(rows[j]).Ok?
  {
    if rows == [] then Ok([])
    else
      var n := |rows| - 1;
      assert forall j :: 0 <= j < n ==> rows[..n][j] == rows[j];
      assert rows == rows[..n] + [rows[n]];
      match ToAdd(rows[..n], requested)
      case Err(e) => Err(e)
      case Ok(xs) =>
        match CaptionWord(rows[n])
        case Err(e) => Err(e)
        case Ok(w) => Ok(xs + (if w in requested then [rows[n]] else []))
  }

  /** The add call for the given records, when there are any. */
  function AddedRows(nodeId: Value, rows: seq<Props>): seq<Call>
  {
    if rows != [] then [Interfaces.AddCall(nodeId, rows)] else []
  }

  /** `for intf in extraneous: intf.delete()`: one delete of its own URI per interface, in order. */
  function OneByOne(ifaces: seq<Interfaces.Iface>): (r: seq<Call>)
    ensures |r| == |ifaces| && forall i :: 0 <= i < |ifaces| ==> r[i] == DeleteCall([StrOf(ifaces[i].uri)])
  {
    seq(|ifaces|, i requires 0 <= i < |ifaces| => DeleteCall([StrOf(ifaces[i].uri)]))
  }

  /** The writes of a named `monitor`: discovery and the add when names are missing, then the deletes. */
  function NamedWrites<M>(nodeId: Value, missing: seq<M>, toAdd: seq<Props>, deleteExtraneous: bool,
                       extraneous: seq<Interfaces.Iface>): seq<Call>
  {
    (if missing != [] then [Interfaces.DiscoverCall(nodeId)] + AddedRows(nodeId, toAdd) else [])
    + (if deleteExtraneous then OneByOne(extraneous) else [])
  }

  /**
   * `OrionInterfaces`: a node's monitored interfaces (`_existing`), the
   * records found by the last discovery (`_discovered`) and its result
   * code. The node contributes its id and its polling method.
   */
  class InterfaceList {
    const swis: Swis
    const nodeId: Value
    const pollingMethod: Value
    var existing: seq<Interfaces.Iface>
    var discovered: seq<Props>
    var responseCode: Value

    constructor (swis: Swis, nodeId: Value, pollingMethod: Value)
      ensures this.swis == swis && this.nodeId == nodeId && this.pollingMethod == pollingMethod
      ensures existing == [] && discovered == [] && responseCode == Null
    {
      this.swis := swis;
      this.nodeId := nodeId;
      this.pollingMethod := pollingMethod;
      existing := [];
      discovered := [];
      responseCode := Null;
    }

    /** `add`: one invoke with the given records, whatever they are. */
    method Add(rows: seq<Props>)
      modifies swis`log
      ensures swis.log == old(swis.log) + [Interfaces.AddCall(nodeId, rows)]
    {
      swis.InvokeRows("Orion.NPM.Interfaces", "AddInterfacesOnNode", nodeId, rows, "AddDefaultPollers");
    }

    /**
     * `fetch`: the node's interfaces, one per record; no records keeps the
     * list, and a record that builds no interface fails with the list kept.
     */
    method Fetch() returns (r: Result<()>)
      modifies this`existing, swis`log
      ensures swis.log == old(swis.log) + [QueryCall(Interfaces.ListQuery(nodeId))]
      ensures var rows := swis.RowsFor(Interfaces.ListQuery(nodeId));
        && (rows == [] ==> r == Ok(()) && existing == old(existing))
        && (r.Ok? <==> forall i :: 0 <= i < |rows| ==> Interfaces.RecordError(rows[i]).None?)
        && (r.Err? ==> existing == old(existing) && Interfaces.FirstFailure(rows, r.error))
        && (r.Ok? && rows != [] ==> Interfaces.BuiltFrom(existing, rows) && forall i :: 0 <= i < |rows| ==> fresh(existing[i]))
    {
      var rows := swis.RunQuery(Interfaces.ListQuery(nodeId));
      if rows == [] {
        return Ok(());
      }
      var built := Interfaces.BuildAll(rows);
      if built.Err? {
        return Err(built.error);
      }
      existing := built.value;
      return Ok(());
    }

    /** `delete`: one bulk delete of the given interfaces, then each listed one is dropped; answers True. */
    method Delete(given: seq<Interfaces.Iface>) returns (r: bool)
      modifies this`existing, swis`log
      ensures r
      ensures swis.log == old(swis.log) + [DeleteCall(Interfaces.Uris(given))]
      ensures existing == Interfaces.RemoveEach(old(existing), given)
    {
      swis.Delete(Interfaces.Uris(given));
      existing := Interfaces.RemoveAll(existing, given);
      return true;
    }

    /** `delete_all`: every listed interface is deleted in one call, even none, and the list emptied; answers True. */
    method DeleteAll() returns (r: bool)
      modifies this`existing, swis`log
      ensures r && existing == []
      ensures swis.log == old(swis.log) + [DeleteCall(Interfaces.Uris(old(existing)))]
    {
      swis.Delete(Interfaces.Uris(existing));
      existing := [];
      return true;
    }

    /**
     * `discover` as written: past the polling-method check it either calls
     * `_resolve_endpoint_attrs`, which this list class does not have (a
     * polling engine that is not an engine object), or reads
     * `swis.hostname`, which the client does not have; either way
     * AttributeError, before the discovery verb is invoked.
     */
    method DiscoverAsWritten(engineObject: bool) returns (r: Result<Value>)
      ensures pollingMethod != Str("snmp") ==> r == Err(SWObjectPropertyError)
      ensures pollingMethod == Str("snmp") ==> r == Err(AttributeError)
    {
      if pollingMethod != Str("snmp") {
        return Err(SWObjectPropertyError);
      }
      if !engineObject {
        return Err(AttributeError);
      }
      return Err(AttributeError);
    }

    /**
     * `discover` as evidently meant, with the host switch left out: only a
     * node polled by SNMP can be discovered; the answer's
     * code decides, a successful discovery keeps its records and answers
     * True, and code 1 answers None and keeps the earlier records.
     */
    method Discover(answer: Interfaces.DiscoveryAnswer) returns (r: Result<Value>)
      modifies this`discovered, this`responseCode, swis`log
      ensures pollingMethod != Str("snmp") ==>
        && r == Err(SWObjectPropertyError) && swis.log == old(swis.log)
        && discovered == old(discovered) && responseCode == old(responseCode)
      ensures pollingMethod == Str("snmp") ==>
        && swis.log == old(swis.log) + [Interfaces.DiscoverCall(nodeId)] && responseCode == answer.code
        && (r.Ok? <==> DiscoveryRows(answer).Ok?)
        && (r.Err? ==> r.error == DiscoveryRows(answer).error && discovered == old(discovered))
        && (r.Ok? && DiscoveryRows(answer).value.Some? ==> r.value == Bool(true) && discovered == answer.rows)
        && (r.Ok? && DiscoveryRows(answer).value.None? ==> r.value == Null && discovered == old(discovered))
    {
      if pollingMethod != Str("snmp") {
        return Err(SWObjectPropertyError);
      }
      var _ := swis.Invoke("Orion.NPM.Interfaces", "DiscoverInterfacesOnNode", [nodeId]);
      responseCode := answer.code;
      var outcome := DiscoveryRows(answer);
      if outcome.Err? {
        return Err(outcome.error);
      }
      if outcome.value.None? {
        return Ok(Null);
      }
      discovered := outcome.value.value;
      return Ok(Bool(true));
    }

    /** `monitor()` with no names: discover, then add every discovered record, up or not. */
    method MonitorAll(answer: Interfaces.DiscoveryAnswer) returns (r: Result<()>)
      modifies this`discovered, this`responseCode, swis`log
      ensures r.Ok? ==> SentSince(old(swis.log), swis.log, [Interfaces.DiscoverCall(nodeId), Interfaces.AddCall(nodeId, discovered)])
      ensures r.Err? ==> swis.log == old(swis.log) || swis.log == old(swis.log) + [Interfaces.DiscoverCall(nodeId)]
    {
      ghost var log0 := swis.log;
      var d := Discover(answer);
      if d.Err? {
        return Err(d.error);
      }
      SentWrite(log0, Interfaces.DiscoverCall(nodeId));
      ghost var log1 := swis.log;
      Add(discovered);
      SentWrite(log1, Interfaces.AddCall(nodeId, discovered));
      SentSinceTrans(log0, log1, swis.log, [Interfaces.DiscoverCall(nodeId)], [Interfaces.AddCall(nodeId, discovered)]);
      return Ok(());
    }

    /** The missing-names step of `monitor(names)`: discover, then add the requested records if any. */
    method AddRequested(requested: seq<string>, answer: Interfaces.DiscoveryAnswer) returns (r: Result<()>)
      modifies this`discovered, this`responseCode, swis`log
      ensures r.Ok? ==> ToAdd(discovered, requested).Ok?
      ensures r.Ok? ==>
        SentSince(old(swis.log), swis.log, [Interfaces.DiscoverCall(nodeId)] + AddedRows(nodeId, ToAdd(discovered, requested).value))
      ensures r.Err? ==> Extends(old(swis.log), swis.log)
    {
      ghost var log0 := swis.log;
      var d := Discover(answer);
      if d.Err? {
        assert swis.log[..|log0|] == log0;
        return Err(d.error);
      }
      SentWrite(log0, Interfaces.DiscoverCall(nodeId));
      ghost var log1 := swis.log;
      var picked := ToAdd(discovered, requested);
      if picked.Err? {
        assert swis.log[..|log0|] == log0;
        return Err(picked.error);
      }
      if picked.value != [] {
        Add(picked.value);
        SentWrite(log1, Interfaces.AddCall(nodeId, picked.value));
      } else {
        SentNothing(log1);
      }
      SentSinceTrans(log0, log1, swis.log, [Interfaces.DiscoverCall(nodeId)], AddedRows(nodeId, picked.value));
      return Ok(());
    }

    /** The extraneous-interfaces step of `monitor(names)`: each one deletes its own URI; the list is left as it is. */
    method DeleteEach(extraneous: seq<Interfaces.Iface>)
      modifies swis`log
      ensures SentSince(old(swis.log), swis.log, OneByOne(extraneous))
    {
      SentNothing(swis.log);
      var i := 0;
      while i < |extraneous|
        invariant 0 <= i <= |extraneous|
        invariant SentSince(old(swis.log), swis.log, OneByOne(extraneous[..i]))
      {
        ghost var before := swis.log;
        var c := DeleteCall([StrOf(extraneous[i].uri)]);
        swis.Delete([StrOf(extraneous[i].uri)]);
        SentWrite(before, c);
        SentSinceTrans(old(swis.log), before, swis.log, OneByOne(extraneous[..i]), [c]);
        assert OneByOne(extraneous[..i + 1]) == OneByOne(extraneous[..i]) + [c];
        i := i + 1;
      }
      assert extraneous[..i] == extraneous;
    }

    /**
     * `monitor(names)`: requested names not present are discovered and the
     * records whose caption starts with a requested name added; with
     * `deleteExtraneous`, interfaces not requested are deleted one by one.
     * The list itself is left as it is.
     */
    method MonitorNamed(requested: seq<string>, deleteExtraneous: bool, answer: Interfaces.DiscoveryAnswer)
      returns (r: Result<()>)
      modifies this`discovered, this`responseCode, swis`log
      ensures Interfaces.NamesOf(Interfaces.ListedNames(existing)).Err? ==>
        r == Err(Interfaces.NamesOf(Interfaces.ListedNames(existing)).error) && swis.log == old(swis.log)
      ensures r.Ok? ==> Interfaces.NamesOf(Interfaces.ListedNames(existing)).Ok?
      ensures r.Ok? ==>
        var names := Interfaces.NamesOf(Interfaces.ListedNames(existing)).value;
        var missing := Interfaces.Missing(Interfaces.Strs(requested), names);
        && (missing == [] ==> discovered == old(discovered))
        && (missing != [] ==> ToAdd(discovered, requested).Ok?)
        && SentSince(old(swis.log), swis.log,
             NamedWrites(nodeId, missing, if missing != [] then ToAdd(discovered, requested).value else [],
                         deleteExtraneous, Interfaces.Extraneous(existing, names, Interfaces.Strs(requested))))
      ensures r.Err? ==> Extends(old(swis.log), swis.log)
    {
      var ns := Interfaces.NamesOf(Interfaces.ListedNames(existing));
      if ns.Err? {
        return Err(ns.error);
      }
      var names := ns.value;
      var missing := Interfaces.Missing(Interfaces.Strs(requested), names);
      var extraneous := Interfaces.Extraneous(existing, names, Interfaces.Strs(requested));
      ghost var log0 := swis.log;
      if missing != [] {
        r := AddRequested(requested, answer);
        if r.Err? {
          return;
        }
      } else {
        SentNothing(log0);
      }
      ghost var log1 := swis.log;
      ghost var w1 := if missing != [] then [Interfaces.DiscoverCall(nodeId)] + AddedRows(nodeId, ToAdd(discovered, requested).value) else [];
      if deleteExtraneous {
        DeleteEach(extraneous);
      } else {
        SentNothing(log1);
      }
      SentSinceTrans(log0, log1, swis.log, w1, if deleteExtraneous then OneByOne(extraneous) else []);
      return Ok(());
    }

    /** The first step of `monitor`: a list holding nothing is fetched, and a fetch that fails ends it. */
    method FetchIfEmpty() returns (r: Result<()>)
      modifies this`existing, swis`log
      ensures SentSince(old(swis.log), swis.log, [])
      ensures old(existing) == [] ==> swis.log == old(swis.log) + [QueryCall(Interfaces.ListQuery(nodeId))]
      ensures old(existing) != [] ==> r == Ok(()) && swis.log == old(swis.log)
      ensures Interfaces.Refetched(old(existing), if old(existing) == [] then swis.RowsFor(Interfaces.ListQuery(nodeId)) else [], existing)
    {
      if existing == [] {
        r := Fetch();
        SentReads(old(swis.log), [QueryCall(Interfaces.ListQuery(nodeId))]);
      } else {
        SentNothing(swis.log);
        r := Ok(());
      }
    }

    /** `monitor`: fetch first when nothing is listed, then monitor everything discovered or the requested ones. */
    method Monitor(requested: Option<seq<string>>, deleteExtraneous: bool, answer: Interfaces.DiscoveryAnswer)
      returns (r: Result<()>)
      modifies this`existing, this`discovered, this`responseCode, swis`log
      ensures Extends(old(swis.log), swis.log)
      ensures old(existing) == [] ==> |swis.log| > |old(swis.log)| && swis.log[|old(swis.log)|] == QueryCall(Interfaces.ListQuery(nodeId))
      ensures old(existing) != [] ==> existing == old(existing)
      ensures Interfaces.Refetched(old(existing), if old(existing) == [] then swis.RowsFor(Interfaces.ListQuery(nodeId)) else [], existing)
      ensures requested.None? && r.Ok? ==>
        SentSince(old(swis.log), swis.log, [Interfaces.DiscoverCall(nodeId), Interfaces.AddCall(nodeId, discovered)])
      ensures requested.Some? && r.Ok? ==>
        && Interfaces.NamesOf(Interfaces.ListedNames(existing)).Ok?
        && var names := Interfaces.NamesOf(Interfaces.ListedNames(existing)).value;
           var missing := Interfaces.Missing(Interfaces.Strs(requested.value), names);
           && (missing != [] ==> ToAdd(discovered, requested.value).Ok?)
           && SentSince(old(swis.log), swis.log,
                NamedWrites(nodeId, missing, if missing != [] then ToAdd(discovered, requested.value).value else [],
                            deleteExtraneous, Interfaces.Extraneous(existing, names, Interfaces.Strs(requested.value))))
    {
      ghost var log0 := swis.log;
      r := FetchIfEmpty();
      if r.Err? {
        return;
      }
      ghost var log1 := swis.log;
      r := MonitorFetched(requested, deleteExtraneous, answer);
      ExtendsTrans(log0, log1, swis.log);
      if old(existing) == [] {
        assert swis.log[..|log1|][|log0|] == swis.log[|log0|];
      }
      if r.Ok? {
        ghost var w: seq<Call>;
        if requested.None? {
          w := [Interfaces.DiscoverCall(nodeId), Interfaces.AddCall(nodeId, discovered)];
        } else {
          ghost var names := Interfaces.NamesOf(Interfaces.ListedNames(existing)).value;
          ghost var missing := Interfaces.Missing(Interfaces.Strs(requested.value), names);
          w := NamedWrites(nodeId, missing, if missing != [] then ToAdd(discovered, requested.value).value else [],
                           deleteExtraneous, Interfaces.Extraneous(existing, names, Interfaces.Strs(requested.value)));
        }
        SentSinceTrans(log0, log1, swis.log, [], w);
        assert [] + w == w;
      }
    }

    /** `monitor` once the list is fetched: everything discovered, or the requested names; the list is left as it is. */
    method MonitorFetched(requested: Option<seq<string>>, deleteExtraneous: bool, answer: Interfaces.DiscoveryAnswer)
      returns (r: Result<()>)
      modifies this`discovered, this`responseCode, swis`log
      ensures Extends(old(swis.log), swis.log)
      ensures requested.None? && r.Ok? ==>
        SentSince(old(swis.log), swis.log, [Interfaces.DiscoverCall(nodeId), Interfaces.AddCall(nodeId, discovered)])
      ensures requested.Some? && r.Ok? ==>
        && Interfaces.NamesOf(Interfaces.ListedNames(existing)).Ok?
        && var names := Interfaces.NamesOf(Interfaces.ListedNames(existing)).value;
           var missing := Interfaces.Missing(Interfaces.Strs(requested.value), names);
           && (missing != [] ==> ToAdd(discovered, requested.value).Ok?)
           && SentSince(old(swis.log), swis.log,
                NamedWrites(nodeId, missing, if missing != [] then ToAdd(discovered, requested.value).value else [],
                            deleteExtraneous, Interfaces.Extraneous(existing, names, Interfaces.Strs(requested.value))))
    {
      if requested.None? {
        r := MonitorAll(answer);
        if r.Err? {
          assert swis.log[..|old(swis.log)|] == old(swis.log);
        }
      } else {
        r := MonitorNamed(requested.value, deleteExtraneous, answer);
        if r.Err? {
          assert swis.log[..|old(swis.log)|] == old(swis.log);
        }
      }
    }

    /** `__getitem__`: an int position, else the first exact name, else the abbreviation. */
    method GetItem(key: Interfaces.Key) returns (r: Result<Interfaces.Iface>)
      ensures r == Interfaces.Lookup(existing, key)
    {
      r := Interfaces.Find(existing, key);
    }
  }
}
