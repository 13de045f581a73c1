/**
 * Pollers of the endpoint generation (pysolarwinds/endpoints/orion/pollers.py):
 * an `OrionPoller` is a `NewEndpoint` whose one writable attribute
 * `is_enabled` maps to `Enabled`, and a node's `OrionPollers` list adds,
 * deletes, enables and disables them. Unlike the entity generation, `save`
 * sends the flag without writing it back into the record, and `delete_all`
 * does not fetch first.
 */
module OrionPollers {
  import opened Wrappers
  import opened PyValue
  import opened Transport
  import Lists
  import BaseLists
  import Endpoints
  import Pollers

  /** `_uri_template`. */
  const Template := Endpoints.UriTemplate("swis://", "/Orion/Orion.Pollers/PollerID=", "")

  /** `_write_attr_map`. */
  const WriteMap: seq<(string, string)> := [("is_enabled", "Enabled")]

  /** The query of `fetch`: the pollers whose NetObjectID is the node's id. */
  function FetchQuery(nodeId: Value): Query
  {
    Query("Orion.Pollers", [("NetObjectID", nodeId)])
  }

  /** `save` sends exactly the flag under `Enabled`. */
  lemma SavePayload(attrs: Props)
    ensures Endpoints.WritePayload(attrs, WriteMap) == map["Enabled" := Get(attrs, "is_enabled")]
  {
    assert WriteMap[..0] == [];
  }

  /**
   * `name`: `display_name or poller_type`, where the display name is
   * `data["DisplayName"]` (KeyError without one) and the type
   * `data.get("PollerType", "")`.
   */
  function NameOf(data: Props): (r: Result<Value>)
    ensures r.Err? <==> "DisplayName" !in data
    ensures r.Ok? && Truthy(data["DisplayName"]) ==> r.value == data["DisplayName"]
    ensures r.Ok? && !Truthy(data["DisplayName"]) ==> r.value == GetOr(data, "PollerType", Str(""))
  {
    Pollers.NameOf(data, GetOr(data, "PollerType", Str("")))
  }

  /**
   * Why `OrionPoller(swis, node, data=row)` fails, if it does: an empty
   * record leaves `NewEndpoint.__init__` nothing to go on (ValueError), and
   * one without `Enabled` fails at `data["Enabled"]` (KeyError).
   */
  function RowError(row: Props): (r: Option<Error>)
    ensures r.None? <==> |row| != 0 && "Enabled" in row
    ensures r == Some(ValueError) <==> |row| == 0
  {
    if |row| == 0 then Some(ValueError)
    else if "Enabled" !in row then Some(KeyError)
    else None
  }

  /**
   * Attributes `attrs` are what `disable` (`on` false) or `enable` (`on`
   * true) leaves of `attrs0`: unchanged when the flag's truth already is
   * `on`, else the flag set to `on`.
   */
  predicate SwitchedFrom(attrs: Props, attrs0: Props, on: bool)
  {
    if Truthy(Get(attrs0, "is_enabled")) == on then attrs == attrs0 else attrs == attrs0["is_enabled" := Bool(on)]
  }

  /**
   * A poller: a `NewEndpoint` with the poller template and write map. Its
   * `name` depends on the record alone, which nothing here changes after
   * construction, so it is kept as the value it has then.
   */
  class OrionPoller {
    const ep: Endpoints.NewEndpoint
    const name: Result<Value>

    constructor (ep: Endpoints.NewEndpoint)
      requires ep.data.Some?
      ensures this.ep == ep && name == NameOf(ep.data.value)
    {
      this.ep := ep;
      name := NameOf(ep.data.value);
    }

    /** The poller's endpoint has the poller template and write map and a record, whose name `name` is. */
    predicate Valid()
      reads ep
    {
      && ep.template == Template && ep.writeMap == WriteMap && ep.data.Some?
      && name == NameOf(ep.data.value)
    }

    /** `is_enabled`. */
    function IsEnabled(): Value
      reads ep
    {
      Get(ep.attrs, "is_enabled")
    }

    /**
     * `disable`: an enabled poller clears its flag and saves, which sends
     * `Enabled` False; a disabled one is left alone.
     */
    method Disable()
      requires Valid()
      modifies ep`attrs, ep.swis`log
      ensures Valid() && SwitchedFrom(ep.attrs, old(ep.attrs), false) && !Truthy(IsEnabled())
      ensures ep.swis.log == old(ep.swis.log) +
        (if Truthy(old(IsEnabled())) then [UpdateCall(ep.uri, map["Enabled" := Bool(false)])] else [])
    {
      if Truthy(IsEnabled()) {
        ep.attrs := ep.attrs["is_enabled" := Bool(false)];
        SavePayload(ep.attrs);
        ep.Save();
      }
    }

    /**
     * `enable`: a disabled poller sets its flag and saves, which sends
     * `Enabled` True; an enabled one is left alone.
     */
    method Enable()
      requires Valid()
      modifies ep`attrs, ep.swis`log
      ensures Valid() && SwitchedFrom(ep.attrs, old(ep.attrs), true) && Truthy(IsEnabled())
      ensures ep.swis.log == old(ep.swis.log) +
        (if !Truthy(old(IsEnabled())) then [UpdateCall(ep.uri, map["Enabled" := Bool(true)])] else [])
    {
      if !Truthy(IsEnabled()) {
        ep.attrs := ep.attrs["is_enabled" := Bool(true)];
        SavePayload(ep.attrs);
        ep.Save();
      }
    }

    /**
     * `delete`: one delete call for the URI, then the poller leaves its
     * node's list (`pollers`) if `get` finds it there.
     */
    method Delete(pollers: OrionPollerList)
      requires pollers.Valid() && ep.swis == pollers.swis
      modifies ep.swis`log, pollers`items
      ensures pollers.Valid() && this !in pollers.items
      ensures ep.swis.log == old(ep.swis.log) + [DeleteCall([ep.uri])]
      ensures pollers.items == if this in old(pollers.items) then Lists.RemoveFirst(old(pollers.items), this) else old(pollers.items)
    {
      ep.Delete();
      pollers.Forget(this);
    }
  }

  /** A poller as `OrionPoller(swis, node, data=row)` builds it. */
  predicate FromRow(p: OrionPoller, swis: Swis, row: Props)
    reads p.ep
    requires "Enabled" in row
  {
    && p.Valid() && p.ep.swis == swis
    && p.ep.id == Null && p.ep.uri == Endpoints.DataUri(row) && p.ep.data == Some(row)
    && p.ep.attrs == map["is_enabled" := row["Enabled"]]
  }

  /**
   * `OrionPoller(swis, node, data=row)`: `NewEndpoint.__init__` with the
   * record alone (the URI is the record's, nothing is read), then the flag
   * from `Enabled`.
   */
  method PollerFromRow(swis: Swis, row: Props) returns (r: Result<OrionPoller>)
    modifies swis`log
    ensures r.Err? <==> RowError(row).Some?
    ensures r.Err? ==> r.error == RowError(row).value
    ensures r.Ok? ==> fresh(r.value) && fresh(r.value.ep) && "Enabled" in row && FromRow(r.value, swis, row)
    ensures swis.log == old(swis.log)
  {
    var ep := new Endpoints.NewEndpoint(swis, Template, WriteMap, Null, "", Some(row), map[]);
    var init := ep.Resolve("");
    if init.Err? {
      return Err(ValueError);
    }
    if "Enabled" !in row {
      return Err(KeyError);
    }
    ep.attrs := map["is_enabled" := row["Enabled"]];
    var p := new OrionPoller(ep);
    return Ok(p);
  }

  // ---- lists of pollers ----

  /** The endpoints of a list of pollers. */
  function EndpointsOf(ps: seq<OrionPoller>): (r: seq<Endpoints.NewEndpoint>)
    ensures |r| == |ps| && forall i :: 0 <= i < |ps| ==> r[i] == ps[i].ep
  {
    if ps == [] then [] else EndpointsOf(ps[..|ps| - 1]) + [ps[|ps| - 1].ep]
  }

  /** Each poller's `name`, as it answers it or the error it raises. */
  function NamesOf(ps: seq<OrionPoller>): (r: seq<Result<Value>>)
    ensures |r| == |ps| && forall i :: 0 <= i < |ps| ==> r[i] == ps[i].name
  {
    if ps == [] then [] else NamesOf(ps[..|ps| - 1]) + [ps[|ps| - 1].name]
  }

  /** The attributes of each poller. */
  function AttrsOf(ps: seq<OrionPoller>): (r: seq<Props>)
    reads EndpointsOf(ps)
    ensures |r| == |ps| && forall i :: 0 <= i < |ps| ==> r[i] == ps[i].ep.attrs
  {
    if ps == [] then []
    else
      assert EndpointsOf(ps[..|ps| - 1]) == EndpointsOf(ps)[..|ps| - 1];
      AttrsOf(ps[..|ps| - 1]) + [ps[|ps| - 1].ep.attrs]
  }

  /** The URIs of a list of pollers. */
  function UrisOf(ps: seq<OrionPoller>): (r: seq<string>)
    reads EndpointsOf(ps)
    ensures |r| == |ps| && forall i :: 0 <= i < |ps| ==> r[i] == ps[i].ep.uri
  {
    if ps == [] then []
    else
      assert EndpointsOf(ps[..|ps| - 1]) == EndpointsOf(ps)[..|ps| - 1];
      UrisOf(ps[..|ps| - 1]) + [ps[|ps| - 1].ep.uri]
  }

  /** Whether each poller's flag is truthy. */
  function FlagsOf(ps: seq<OrionPoller>): (r: seq<bool>)
    reads EndpointsOf(ps)
    ensures |r| == |ps| && forall i :: 0 <= i < |ps| ==> r[i] == Truthy(ps[i].IsEnabled())
  {
    if ps == [] then []
    else
      assert EndpointsOf(ps[..|ps| - 1]) == EndpointsOf(ps)[..|ps| - 1];
      FlagsOf(ps[..|ps| - 1]) + [Truthy(ps[|ps| - 1].IsEnabled())]
  }

  /**
   * `names`: the name of every poller, or the first error reading one
   * raises.
   */
  function Names(ps: seq<OrionPoller>): (r: Result<seq<Value>>)
    ensures r.Ok? <==> forall i :: 0 <= i < |ps| ==> ps[i].name.Ok?
    ensures r.Ok? ==> |r.value| == |ps| && forall i :: 0 <= i < |ps| ==> r.value[i] == ps[i].name.value
  {
    if ps == [] then Ok([])
    else
      var init := Names(ps[..|ps| - 1]);
      assert forall i :: 0 <= i < |ps| - 1 ==> ps[..|ps| - 1][i] == ps[i];
      if init.Err? then init
      else if ps[|ps| - 1].name.Err? then Err(ps[|ps| - 1].name.error)
      else Ok(init.value + [ps[|ps| - 1].name.value])
  }

  /** Pollers on one client, each valid, no endpoint listed twice. */
  predicate ValidPollers(ps: seq<OrionPoller>, swis: Swis)
    reads EndpointsOf(ps)
  {
    && (forall i :: 0 <= i < |ps| ==> ps[i].ep.swis == swis && ps[i].Valid())
    && (forall i, j :: 0 <= i < j < |ps| ==> ps[i].ep != ps[j].ep)
  }

  /** A list `r` that is a valid `ps` without its `k`th poller is valid and lacks that poller. */
  lemma ShiftValid(ps: seq<OrionPoller>, r: seq<OrionPoller>, k: nat, swis: Swis)
    requires k < |ps| && |r| + 1 == |ps|
    requires forall i :: 0 <= i < |r| ==> r[i] == ps[if i < k then i else i + 1]
    requires ValidPollers(ps, swis)
    ensures ValidPollers(r, swis) && ps[k] !in r
  {
    forall i | 0 <= i < |r| ensures r[i].ep.swis == swis && r[i].Valid() && r[i] != ps[k] {
      var i1 := if i < k then i else i + 1;
      assert r[i] == ps[i1] && i1 != k;
    }
    forall i, j | 0 <= i < j < |r| ensures r[i].ep != r[j].ep {
      var i1 := if i < k then i else i + 1;
      var j1 := if j < k then j else j + 1;
      assert r[i] == ps[i1] && r[j] == ps[j1] && i1 < j1;
    }
  }

  /** Removing a listed poller keeps the list valid and drops the poller. */
  lemma RemoveValid(ps: seq<OrionPoller>, p: OrionPoller, swis: Swis)
    requires ValidPollers(ps, swis) && p in ps
    ensures ValidPollers(Lists.RemoveFirst(ps, p), swis) && p !in Lists.RemoveFirst(ps, p)
  {
    Lists.RemoveFirstAt(ps, p);
    ShiftValid(ps, Lists.RemoveFirst(ps, p), Lists.IndexOf(ps, p), swis);
  }

  lemma ValidAppend(ps: seq<OrionPoller>, p: OrionPoller, swis: Swis)
    requires ValidPollers(ps, swis) && p.Valid() && p.ep.swis == swis
    requires forall i :: 0 <= i < |ps| ==> ps[i].ep != p.ep
    ensures ValidPollers(ps + [p], swis)
  {
    var r := ps + [p];
    assert forall i :: 0 <= i < |ps| ==> r[i] == ps[i];
  }

  /** `get(name)` on a list of pollers. */
  function Lookup(ps: seq<OrionPoller>, name: string): Result<Option<OrionPoller>>
  {
    BaseLists.Get(ps, NamesOf(ps), BaseLists.Text(name))
  }

  /** The poller a key names for `delete`, `disable` or `enable`: by name through `[...]`, or the poller itself. */
  function Target(ps: seq<OrionPoller>, key: BaseLists.Key<OrionPoller>): (r: Result<OrionPoller>)
    ensures key.Item? ==> r == Ok(key.x)
    ensures key.Position? || key.OtherKey? ==> r == Err(AttributeError)
    ensures key.Text? && r.Ok? ==> r.value in ps && r.value.name == Ok(Str(key.s))
  {
    BaseLists.Target(ps, NamesOf(ps), key)
  }

  /**
   * The same as written: `[...]` of pysolarwinds/list.py answers the text
   * itself, so a poller named by text is never acted on.
   */
  function TargetAsWritten(ps: seq<OrionPoller>, key: BaseLists.Key<OrionPoller>): (r: Result<OrionPoller>)
    ensures key.Text? ==> r.Err?
    ensures key.Text? && Target(ps, key).Ok? ==> r == Err(AttributeError)
    ensures !key.Text? ==> r == Target(ps, key)
  {
    BaseLists.TargetByNameFails(ps, NamesOf(ps), key);
    BaseLists.TargetAsWritten(ps, NamesOf(ps), key)
  }

  /** The endpoint that `disable` or `enable` of a list may change: the target's, none when there is none. */
  function TargetEndpoints(ps: seq<OrionPoller>, key: BaseLists.Key<OrionPoller>): set<Endpoints.NewEndpoint>
  {
    var t := Target(ps, key); if t.Ok? then {t.value.ep} else {}
  }

  /** The create and read-back of `add` for one name, and the poller built from the record read. */
  method CreatePoller(swis: Swis, nodeId: Value, name: string, enabled: bool) returns (r: Result<OrionPoller>)
    modifies swis`log
    ensures var u := Pollers.NewUri(swis, nodeId, name, enabled);
      && swis.log == old(swis.log) + [CreateCall(Pollers.PollerType, Pollers.AddPayload(nodeId, name, enabled)), ReadCall(u)]
      && (r.Err? <==> RowError(swis.RecordAt(u)).Some?)
      && (r.Err? ==> r.error == RowError(swis.RecordAt(u)).value)
      && (r.Ok? ==> fresh(r.value) && fresh(r.value.ep) && "Enabled" in swis.RecordAt(u)
                    && FromRow(r.value, swis, swis.RecordAt(u)))
  {
    var uri := swis.Create(Pollers.PollerType, Pollers.AddPayload(nodeId, name, enabled));
    var data := swis.Read(uri);
    r := PollerFromRow(swis, data);
  }

  /** Appending keeps a prefix. */
  lemma PrefixKept<T>(b: seq<T>, x: T, n: nat)
    requires n <= |b|
    ensures (b + [x])[..n] == b[..n]
  {
  }

  /** `get` on a prefix of a list is not affected by an append. */
  lemma LookupPrefix(before: seq<OrionPoller>, p: OrionPoller, n: nat, name: string)
    requires n <= |before|
    ensures Lookup((before + [p])[..n], name) == Lookup(before[..n], name)
  {
    PrefixKept(before, p, n);
  }

  /** `get(names[j])` found nothing among the first `n + j` pollers of `items`. */
  predicate UnlistedAt(items: seq<OrionPoller>, n: nat, names: seq<string>, j: nat)
  {
    n + j <= |items| && j < |names| && Lookup(items[..n + j], names[j]) == Ok(None)
  }

  /** An append leaves what `get` found among the pollers listed before. */
  lemma UnlistedKept(before: seq<OrionPoller>, p: OrionPoller, n: nat, names: seq<string>, j: nat)
    requires UnlistedAt(before, n, names, j)
    ensures UnlistedAt(before + [p], n, names, j)
  {
    LookupPrefix(before, p, n + j, names[j]);
  }

  /** A name `get` does not find among all `n + i` pollers listed is unlisted at `i` once one more is appended. */
  lemma UnlistedNext(before: seq<OrionPoller>, p: OrionPoller, n: nat, names: seq<string>, i: nat)
    requires |before| == n + i && i < |names| && Lookup(before, names[i]) == Ok(None)
    ensures UnlistedAt(before + [p], n, names, i)
  {
    LookupPrefix(before, p, n + i, names[i]);
    assert before[..n + i] == before;
  }

  /**
   * After `i` names of `add`: `i` pollers were appended to `items0`, the
   * calls for `i` names were made after `log0`, and `get` found none of
   * those names among the pollers listed before it.
   */
  predicate AddedSoFar(items: seq<OrionPoller>, log: seq<Call>, items0: seq<OrionPoller>, log0: seq<Call>, swis: Swis,
                       nodeId: Value, names: seq<string>, enabled: bool, i: nat)
  {
    && i <= |names| && |items| == |items0| + i && items[..|items0|] == items0
    && log == log0 + Pollers.AddCalls(swis, nodeId, names[..i], enabled)
    && (forall j :: 0 <= j < i ==> UnlistedAt(items, |items0|, names, j))
  }

  /** A name `get` does not find, created and appended, extends `AddedSoFar` by one. */
  lemma AddedStep(before: seq<OrionPoller>, p: OrionPoller, log: seq<Call>, items0: seq<OrionPoller>, log0: seq<Call>,
                  swis: Swis, nodeId: Value, names: seq<string>, enabled: bool, i: nat)
    requires AddedSoFar(before, log, items0, log0, swis, nodeId, names, enabled, i) && i < |names|
    requires Lookup(before, names[i]) == Ok(None)
    ensures AddedSoFar(before + [p],
                       log + [CreateCall(Pollers.PollerType, Pollers.AddPayload(nodeId, names[i], enabled)),
                              ReadCall(Pollers.NewUri(swis, nodeId, names[i], enabled))],
                       items0, log0, swis, nodeId, names, enabled, i + 1)
  {
    var after := before + [p];
    PrefixKept(before, p, |items0|);
    Pollers.AddCallsStep(swis, nodeId, names, enabled, i);
    forall j | 0 <= j < i + 1 ensures UnlistedAt(after, |items0|, names, j) {
      if j == i {
        UnlistedNext(before, p, |items0|, names, i);
      } else {
        UnlistedKept(before, p, |items0|, names, j);
      }
    }
  }

  /**
   * The first `i` pollers appended after the `n0` listed before are the
   * ones built from the first `i` of the records `rows`.
   */
  predicate AppendedFor(items: seq<OrionPoller>, n0: nat, swis: Swis, rows: seq<Props>, i: nat)
    reads EndpointsOf(items)
  {
    && n0 + i <= |items| && i <= |rows|
    && forall j :: 0 <= j < i ==> "Enabled" in rows[j] && FromRow(items[n0 + j], swis, rows[j])
  }

  /** Appending a poller built from the next record extends `AppendedFor` by one. */
  lemma AppendedGrow(items: seq<OrionPoller>, before: seq<OrionPoller>, n0: nat, swis: Swis, rows: seq<Props>, i: nat)
    requires AppendedFor(before, n0, swis, rows, i) && |before| == n0 + i && i < |rows|
    requires |items| == |before| + 1 && items[..|before|] == before
    requires "Enabled" in rows[i] && FromRow(items[|before|], swis, rows[i])
    ensures AppendedFor(items, n0, swis, rows, i + 1)
  {
    forall j | 0 <= j < i + 1
      ensures "Enabled" in rows[j] && FromRow(items[n0 + j], swis, rows[j])
    {
      if j < i {
        assert items[n0 + j] == items[..|before|][n0 + j];
      }
    }
  }

  /** The URIs of the pollers built from query rows. */
  function RowUris(rows: seq<Props>): (r: seq<string>)
    ensures |r| == |rows| && forall i :: 0 <= i < |rows| ==> r[i] == Endpoints.DataUri(rows[i])
  {
    if rows == [] then [] else RowUris(rows[..|rows| - 1]) + [Endpoints.DataUri(rows[|rows| - 1])]
  }

  /** The first row no poller can be built from, by its error. */
  function RowsError(rows: seq<Props>): (r: Option<Error>)
    decreases |rows|
  {
    if rows == [] then None
    else if RowError(rows[0]).Some? then RowError(rows[0])
    else RowsError(rows[1..])
  }

  /** Building every row succeeds exactly when each row has what a poller needs. */
  lemma {:induction false} RowsErrorNone(rows: seq<Props>)
    ensures RowsError(rows).None? <==> forall i :: 0 <= i < |rows| ==> RowError(rows[i]).None?
    decreases |rows|
  {
    if rows != [] {
      RowsErrorNone(rows[1..]);
      if RowError(rows[0]).None? {
        assert forall i :: 1 <= i < |rows| ==> rows[i] == rows[1..][i - 1];
      }
    }
  }

  /** Rows until position `i` build; the error of the list is row `i`'s. */
  lemma RowsErrorAt(rows: seq<Props>, i: nat)
    requires i < |rows| && RowError(rows[i]).Some?
    requires forall j :: 0 <= j < i ==> RowError(rows[j]).None?
    ensures RowsError(rows) == RowError(rows[i])
    decreases i
  {
    if i > 0 {
      RowsErrorAt(rows[1..], i - 1);
    }
  }

  /**
   * Snapshots `attrs` of a list against `attrs0` before: the first `i`
   * are switched as `SwitchedFrom` says and their flags' truth is `on`;
   * the others are as they were.
   */
  predicate SwitchedSeq(attrs: seq<Props>, attrs0: seq<Props>, on: bool, i: nat)
  {
    && |attrs| == |attrs0| && i <= |attrs0|
    && (forall j :: 0 <= j < i ==> SwitchedFrom(attrs[j], attrs0[j], on) && Truthy(Get(attrs[j], "is_enabled")) == on)
    && (forall j :: i <= j < |attrs0| ==> attrs[j] == attrs0[j])
  }

  /**
   * The loop state of `disable_all` on snapshots: `SwitchedSeq` after `i`
   * pollers, the URIs `us` unchanged, `flags` the flags' truth before, and
   * the updates for the first `i` sent after `log0`.
   */
  predicate SwitchState(attrs: seq<Props>, us: seq<string>, log: seq<Call>,
                        attrs0: seq<Props>, flags: seq<bool>, uris: seq<string>, log0: seq<Call>, on: bool, i: nat)
  {
    && SwitchedSeq(attrs, attrs0, on, i)
    && |flags| == |attrs0| && |uris| == |attrs0| && us == uris
    && (forall j :: 0 <= j < |attrs0| ==> flags[j] == Truthy(Get(attrs0[j], "is_enabled")))
    && log == log0 + Pollers.SwitchCalls(flags[..i], uris[..i], on)
  }

  /** Switching the `i`th poller, and sending its update when its flag's truth was not `on`, extends `SwitchState` by one. */
  lemma SwitchStateStep(attrs: seq<Props>, us: seq<string>, log: seq<Call>,
                        attrs0: seq<Props>, flags: seq<bool>, uris: seq<string>, log0: seq<Call>, on: bool, i: nat, a: Props)
    requires SwitchState(attrs, us, log, attrs0, flags, uris, log0, on, i) && i < |attrs0|
    requires SwitchedFrom(a, attrs[i], on) && Truthy(Get(a, "is_enabled")) == on
    ensures SwitchState(attrs[i := a], us,
      log + (if Truthy(Get(attrs[i], "is_enabled")) != on then [UpdateCall(us[i], map["Enabled" := Bool(on)])] else []),
      attrs0, flags, uris, log0, on, i + 1)
  {
    Pollers.SwitchCallsStep(flags, uris, on, i);
  }

  /** Before the first poller, `SwitchState` holds of the snapshots taken then. */
  lemma SwitchStateStart(attrs: seq<Props>, us: seq<string>, log: seq<Call>, flags: seq<bool>, on: bool)
    requires |flags| == |attrs| && |us| == |attrs|
    requires forall j :: 0 <= j < |attrs| ==> flags[j] == Truthy(Get(attrs[j], "is_enabled"))
    ensures SwitchState(attrs, us, log, attrs, flags, us, log, on, 0)
  {
    assert flags[..0] == [] && us[..0] == [];
    assert log + Pollers.SwitchCalls([], [], on) == log;
  }

  /** After the last poller, `SwitchState` gives every poller switched and every update sent. */
  lemma SwitchStateEnd(attrs: seq<Props>, us: seq<string>, log: seq<Call>,
                       attrs0: seq<Props>, flags: seq<bool>, uris: seq<string>, log0: seq<Call>, on: bool)
    requires SwitchState(attrs, us, log, attrs0, flags, uris, log0, on, |attrs0|)
    ensures SwitchedSeq(attrs, attrs0, on, |attrs0|) && log == log0 + Pollers.SwitchCalls(flags, uris, on)
  {
    assert flags[..|attrs0|] == flags && uris[..|attrs0|] == uris;
  }

  /** When only the `i`th poller's attributes differ from `attrs`, and no URI from `us`, the snapshots differ at `i` alone. */
  lemma FrameOne(ps: seq<OrionPoller>, i: nat, attrs: seq<Props>, us: seq<string>)
    requires i < |ps| && |attrs| == |ps| && |us| == |ps|
    requires forall j :: 0 <= j < |ps| && j != i ==> ps[j].ep.attrs == attrs[j]
    requires forall j :: 0 <= j < |ps| ==> ps[j].ep.uri == us[j]
    ensures AttrsOf(ps) == attrs[i := ps[i].ep.attrs]
    ensures UrisOf(ps) == us
  {
  }

  /** A node's `OrionPollers`: its pollers, all on the node's client, no endpoint listed twice. */
  class OrionPollerList {
    const swis: Swis
    const nodeId: Value
    var items: seq<OrionPoller>

    constructor (swis: Swis, nodeId: Value)
      ensures this.swis == swis && this.nodeId == nodeId && items == []
    {
      this.swis := swis;
      this.nodeId := nodeId;
      items := [];
    }

    predicate Valid()
      reads this, EndpointsOf(items)
    {
      ValidPollers(items, swis)
    }

    /** The list's part of an item's `delete`: the item leaves the list if `get` finds it there. */
    method Forget(x: OrionPoller)
      requires Valid() && x.ep.swis == swis
      modifies this`items
      ensures Valid() && x !in items
      ensures items == if x in old(items) then Lists.RemoveFirst(old(items), x) else old(items)
    {
      var names := NamesOf(items);
      var found := BaseLists.Get(items, names, BaseLists.Item(x));
      BaseLists.GetItem(items, names, x);
      if found.Ok? && found.value.Some? {
        RemoveValid(items, x, swis);
        items := Lists.RemoveFirst(items, x);
      }
    }

    /** `get(name)` finds a poller. */
    predicate Taken(s: string)
      reads this
    {
      Lookup(items, s).Ok? && Lookup(items, s).value.Some?
    }

    /** With the query `rows` answered, `Valid` holds of pollers built from them. */
    predicate BuiltFrom(ps: seq<OrionPoller>, rows: seq<Props>)
      reads EndpointsOf(ps)
    {
      && |ps| == |rows|
      && (forall i :: 0 <= i < |rows| ==> RowError(rows[i]).None? && FromRow(ps[i], swis, rows[i]))
      && (forall i, j :: 0 <= i < j < |ps| ==> ps[i].ep != ps[j].ep)
    }

    /**
     * One pass of the loop of `add`: a name some poller already answers is
     * refused with SWObjectExists (a name that cannot be read raises
     * first); otherwise the poller is created on the node with the flag,
     * read back and appended.
     */
    method AddOne(name: string, enabled: bool) returns (r: Result<OrionPoller>)
      requires Valid()
      modifies this`items, swis`log
      ensures Valid()
      ensures r.Err? ==> items == old(items) && Extends(old(swis.log), swis.log)
      ensures Lookup(old(items), name).Err? ==> r == Err(Lookup(old(items), name).error) && swis.log == old(swis.log)
      ensures Lookup(old(items), name).Ok? && Lookup(old(items), name).value.Some? ==>
        r == Err(SWObjectExists) && swis.log == old(swis.log)
      ensures Lookup(old(items), name) == Ok(None) ==>
        && swis.log == old(swis.log) + [CreateCall(Pollers.PollerType, Pollers.AddPayload(nodeId, name, enabled)),
                                        ReadCall(Pollers.NewUri(swis, nodeId, name, enabled))]
        && (r.Err? <==> RowError(Pollers.NewRecord(swis, nodeId, name, enabled)).Some?)
        && (r.Err? ==> r.error == RowError(Pollers.NewRecord(swis, nodeId, name, enabled)).value)
      ensures r.Ok? ==>
        && Lookup(old(items), name) == Ok(None) && items == old(items) + [r.value]
        && fresh(r.value) && fresh(r.value.ep) && "Enabled" in Pollers.NewRecord(swis, nodeId, name, enabled)
        && FromRow(r.value, swis, Pollers.NewRecord(swis, nodeId, name, enabled))
    {
      var g := Lookup(items, name);
      if g.Err? {
        return Err(g.error);
      }
      if g.value.Some? {
        return Err(SWObjectExists);
      }
      r := CreatePoller(swis, nodeId, name, enabled);
      if r.Ok? {
        Append(r.value);
      }
    }

    /** Appends a poller on this client whose endpoint is not listed yet. */
    method Append(p: OrionPoller)
      requires Valid() && p.Valid() && p.ep.swis == swis
      requires forall i :: 0 <= i < |items| ==> items[i].ep != p.ep
      modifies this`items
      ensures items == old(items) + [p] && Valid()
    {
      ValidAppend(items, p, swis);
      items := items + [p];
    }

    /** `AddedSoFar` of this list's pollers and calls. */
    predicate Adding(items0: seq<OrionPoller>, log0: seq<Call>, names: seq<string>, enabled: bool, i: nat)
      reads this, swis
    {
      AddedSoFar(items, swis.log, items0, log0, swis, nodeId, names, enabled, i)
    }

    /**
     * One name of `add`: on success the state after `i + 1` names, the new
     * poller built from the record read back for the name; on failure the
     * list unchanged.
     */
    method AddStep(i: nat, names: seq<string>, enabled: bool, ghost items0: seq<OrionPoller>, ghost log0: seq<Call>,
                   ghost rows: seq<Props>)
      returns (r: Result<()>)
      requires Valid() && i < |names| && i < |rows|
      requires rows[i] == Pollers.NewRecord(swis, nodeId, names[i], enabled)
      requires Adding(items0, log0, names, enabled, i)
      modifies this`items, swis`log
      ensures Valid()
      ensures r.Ok? ==> Adding(items0, log0, names, enabled, i + 1)
      ensures r.Ok? ==>
        && |items| == |old(items)| + 1 && items[..|old(items)|] == old(items)
        && "Enabled" in rows[i] && FromRow(items[|old(items)|], swis, rows[i])
      ensures r.Err? ==> items == old(items) && |items0| <= |items| && items[..|items0|] == items0 && Extends(log0, swis.log)
      ensures old(Taken(names[i])) ==> r == Err(SWObjectExists) && items == old(items) && swis.log == old(swis.log)
    {
      ghost var before := items;
      ghost var log := swis.log;
      var p := AddOne(names[i], enabled);
      if p.Err? {
        assert Extends(log0, log) by {
          assert log[..|log0|] == log0;
        }
        ExtendsTrans(log0, log, swis.log);
        return Err(p.error);
      }
      AddedStep(before, p.value, log, items0, log0, swis, nodeId, names, enabled, i);
      PrefixKept(before, p.value, |before|);
      assert before[..|before|] == before;
      return Ok(());
    }

    /** What the loop of `add` knows after `i` names: `Adding`, `AppendedFor` of `rows`, and the calls so far extend `log0`. */
    predicate AddState(items0: seq<OrionPoller>, log0: seq<Call>, names: seq<string>, enabled: bool, rows: seq<Props>, i: nat)
      reads this, swis, EndpointsOf(items)
    {
      && Valid() && Adding(items0, log0, names, enabled, i)
      && AppendedFor(items, |items0|, swis, rows, i) && Extends(log0, swis.log)
    }

    /** `AddStep`, keeping what the loop of `add` knows of the pollers appended so far. */
    method AddNext(i: nat, names: seq<string>, enabled: bool, ghost items0: seq<OrionPoller>, ghost log0: seq<Call>,
                   ghost rows: seq<Props>)
      returns (r: Result<()>)
      requires i < |names| && i < |rows|
      requires rows[i] == Pollers.NewRecord(swis, nodeId, names[i], enabled)
      requires AddState(items0, log0, names, enabled, rows, i)
      modifies this`items, swis`log
      ensures r.Ok? ==> AddState(items0, log0, names, enabled, rows, i + 1)
      ensures r.Err? ==>
        && Valid() && Extends(log0, swis.log) && items == old(items) && |items0| <= |items| && items[..|items0|] == items0
        && AppendedFor(items, |items0|, swis, rows, i)
      ensures old(Taken(names[i])) ==> r == Err(SWObjectExists) && items == old(items) && swis.log == old(swis.log)
    {
      ghost var n0 := |items0|;
      label Head:
      ghost var before := items;
      r := AddStep(i, names, enabled, items0, log0, rows);
      forall j | 0 <= j < i
        ensures "Enabled" in rows[j] && FromRow(before[n0 + j], swis, rows[j])
      {
        assert unchanged@Head(before[n0 + j].ep);
      }
      if r.Err? {
        assert items == before;
        assert AppendedFor(before, n0, swis, rows, i);
        return;
      }
      AppendedGrow(items, before, n0, swis, rows, i);
      Pollers.AddCallsExtend(log0, swis, nodeId, names[..i + 1], enabled);
    }

    /**
     * `add(pollers, enabled=...)` (a single name is passed as a one-name
     * list): each name in turn is looked up among the pollers listed so
     * far, then created and appended, and True is answered. What was
     * appended before a failure stays; a first name already taken is
     * refused with SWObjectExists and nothing changed. Every poller
     * appended is the one built from the record read back for its name.
     */
    method Add(names: seq<string>, enabled: bool) returns (r: Result<bool>)
      requires Valid()
      modifies this`items, swis`log
      ensures Valid()
      ensures |old(items)| <= |items| && items[..|old(items)|] == old(items)
      ensures AppendedFor(items, |old(items)|, swis, Pollers.NewRecords(swis, nodeId, names, enabled), |items| - |old(items)|)
      ensures Extends(old(swis.log), swis.log)
      ensures names != [] && old(Taken(names[0])) ==> r == Err(SWObjectExists) && items == old(items) && swis.log == old(swis.log)
      ensures r.Ok? ==>
        && r.value && |items| == |old(items)| + |names|
        && swis.log == old(swis.log) + Pollers.AddCalls(swis, nodeId, names, enabled)
        && forall j :: 0 <= j < |names| ==> UnlistedAt(items, |old(items)|, names, j)
    {
      ghost var taken0 := names != [] && Taken(names[0]);
      ghost var rows := Pollers.NewRecords(swis, nodeId, names, enabled);
      assert items[..|items|] == items;
      assert old(swis.log) + Pollers.AddCalls(swis, nodeId, names[..0], enabled) == old(swis.log);
      for i := 0 to |names|
        invariant AddState(old(items), old(swis.log), names, enabled, rows, i)
        invariant taken0 ==> i == 0
      {
        if i == 0 {
          assert items == items[..|old(items)|];
        }
        Pollers.NewRecordsAt(swis, nodeId, names, enabled, i);
        var s := AddNext(i, names, enabled, old(items), old(swis.log), rows);
        if s.Err? {
          r := Err(s.error);
          return;
        }
      }
      assert names[..|names|] == names;
      return Ok(true);
    }

    /**
     * `delete(poller)`: the poller named (a text through `[...]`; a
     * position has no `delete`) is deleted and leaves the list, and True
     * is answered.
     */
    method Delete(key: BaseLists.Key<OrionPoller>) returns (r: Result<bool>)
      requires Valid()
      requires key.Item? ==> key.x.ep.swis == swis
      modifies this`items, swis`log
      ensures Valid()
      ensures var t := Target(old(items), key);
        && (t.Err? ==> r == Err(t.error) && items == old(items) && swis.log == old(swis.log))
        && (t.Ok? ==> r == Ok(true)
                      && swis.log == old(swis.log) + [DeleteCall([t.value.ep.uri])]
                      && items == (if t.value in old(items) then Lists.RemoveFirst(old(items), t.value) else old(items))
                      && t.value !in items)
    {
      var t := Target(items, key);
      if t.Err? {
        return Err(t.error);
      }
      t.value.Delete(this);
      return Ok(true);
    }

    /**
     * `delete(poller)` as written: a text through `[...]` answers the text,
     * which has no `delete`, so only a poller passed in is deleted.
     */
    method DeleteAsWritten(key: BaseLists.Key<OrionPoller>) returns (r: Result<bool>)
      requires Valid()
      requires key.Item? ==> key.x.ep.swis == swis
      modifies this`items, swis`log
      ensures Valid()
      ensures var t := TargetAsWritten(old(items), key);
        && (t.Err? ==> r == Err(t.error) && items == old(items) && swis.log == old(swis.log))
        && (t.Ok? ==> r == Ok(true)
                      && swis.log == old(swis.log) + [DeleteCall([t.value.ep.uri])]
                      && items == (if t.value in old(items) then Lists.RemoveFirst(old(items), t.value) else old(items))
                      && t.value !in items)
    {
      var t := TargetAsWritten(items, key);
      if t.Err? {
        return Err(t.error);
      }
      r := Delete(key);
    }

    /**
     * `disable(poller)` (`on` false) and `enable(poller)` (`on` true) as
     * evidently meant: the poller named (a text through `[...]`) or passed
     * in is switched as its own `disable` or `enable` does, and what that
     * answers, None, is answered; the list stays as it is.
     */
    method Switch(key: BaseLists.Key<OrionPoller>, on: bool) returns (r: Result<()>)
      requires Valid()
      requires key.Item? ==> key.x.Valid() && key.x.ep.swis == swis
      modifies TargetEndpoints(items, key)`attrs, swis`log
      ensures items == old(items)
      ensures !(key.Item? && key.x.ep in old(EndpointsOf(items))) ==> Valid()
      ensures var t := Target(items, key);
        && (t.Err? ==> r == Err(t.error) && swis.log == old(swis.log))
        && (t.Ok? ==> r == Ok(()) && t.value.Valid()
                      && SwitchedFrom(t.value.ep.attrs, old(t.value.ep.attrs), on)
                      && Truthy(t.value.IsEnabled()) == on
                      && swis.log == old(swis.log) +
                         (if Truthy(old(t.value.IsEnabled())) != on then [UpdateCall(t.value.ep.uri, map["Enabled" := Bool(on)])] else []))
    {
      var t := Target(items, key);
      if t.Err? {
        return Err(t.error);
      }
      if key.Text? {
        var k := BaseLists.FirstStop(NamesOf(items), key.s);
        SwitchAt(k, on);
      } else if on {
        key.x.Enable();
      } else {
        key.x.Disable();
      }
      return Ok(());
    }

    /** `disable(poller)` and `enable(poller)` as written: a poller named by text is never switched. */
    method SwitchAsWritten(key: BaseLists.Key<OrionPoller>, on: bool) returns (r: Result<()>)
      requires Valid()
      requires key.Item? ==> key.x.Valid() && key.x.ep.swis == swis
      modifies TargetEndpoints(items, key)`attrs, swis`log
      ensures items == old(items)
      ensures !(key.Item? && key.x.ep in old(EndpointsOf(items))) ==> Valid()
      ensures var t := TargetAsWritten(items, key);
        && (t.Err? ==> r == Err(t.error) && swis.log == old(swis.log))
        && (t.Ok? ==> r == Ok(()) && t.value.Valid()
                      && SwitchedFrom(t.value.ep.attrs, old(t.value.ep.attrs), on)
                      && Truthy(t.value.IsEnabled()) == on
                      && swis.log == old(swis.log) +
                         (if Truthy(old(t.value.IsEnabled())) != on then [UpdateCall(t.value.ep.uri, map["Enabled" := Bool(on)])] else []))
    {
      var t := TargetAsWritten(items, key);
      if t.Err? {
        return Err(t.error);
      }
      r := Switch(key, on);
    }

    /**
     * `delete_all`: without fetching, one delete call for the URIs of every
     * poller listed, none when there is none, and an empty list; True.
     */
    method DeleteAll() returns (r: bool)
      requires Valid()
      modifies this`items, swis`log
      ensures Valid() && items == [] && r
      ensures swis.log == old(swis.log) + (if old(items) == [] then [] else [DeleteCall(old(UrisOf(items)))])
    {
      if items != [] {
        swis.Delete(UrisOf(items));
        items := [];
      }
      return true;
    }

    /** The first `i` pollers are switched from the attributes `attrs0` to `on`; the others are as they were. */
    predicate SwitchedUpTo(attrs0: seq<Props>, on: bool, i: nat)
      reads this, EndpointsOf(items)
    {
      SwitchedSeq(AttrsOf(items), attrs0, on, i)
    }

    /** The loop state of `SwitchAll` after `i` pollers: `SwitchState` of the list's snapshots and its client's log. */
    predicate Switching(attrs0: seq<Props>, flags: seq<bool>, uris: seq<string>, log0: seq<Call>, on: bool, i: nat)
      reads this, EndpointsOf(items), swis
    {
      SwitchState(AttrsOf(items), UrisOf(items), swis.log, attrs0, flags, uris, log0, on, i)
    }

    /** Sets the flag of the `i`th poller to `on` as `enable` or `disable` does. */
    method SwitchAt(i: nat, on: bool)
      requires Valid() && i < |items|
      modifies items[i].ep`attrs, swis`log
      ensures Valid()
      ensures SwitchedFrom(items[i].ep.attrs, old(items[i].ep.attrs), on)
      ensures Truthy(Get(items[i].ep.attrs, "is_enabled")) == on
      ensures forall j :: 0 <= j < |items| && j != i ==> items[j].ep.attrs == old(items[j].ep.attrs)
      ensures swis.log == old(swis.log) +
        (if Truthy(old(items[i].IsEnabled())) != on then [UpdateCall(items[i].ep.uri, map["Enabled" := Bool(on)])] else [])
    {
      if on {
        items[i].Enable();
      } else {
        items[i].Disable();
      }
    }

    /** One pass of the loop of `SwitchAll`: the `i`th poller is switched when its flag's truth is not `on`. */
    method SwitchStep(i: nat, on: bool, ghost attrs0: seq<Props>, ghost flags: seq<bool>, ghost uris: seq<string>,
                      ghost log0: seq<Call>)
      requires Valid() && i < |items| && Switching(attrs0, flags, uris, log0, on, i)
      modifies items[i].ep`attrs, swis`log
      ensures Valid() && Switching(attrs0, flags, uris, log0, on, i + 1)
    {
      ghost var attrs := AttrsOf(items);
      ghost var us := UrisOf(items);
      ghost var log := swis.log;
      if Truthy(items[i].IsEnabled()) != on {
        SwitchAt(i, on);
        FrameOne(items, i, attrs, us);
        SwitchStateStep(attrs, us, log, attrs0, flags, uris, log0, on, i, items[i].ep.attrs);
      } else {
        SwitchStateStep(attrs, us, log, attrs0, flags, uris, log0, on, i, attrs[i]);
        assert attrs[i := attrs[i]] == attrs;
      }
    }

    /**
     * The loop of `disable_all` (`on` false) and of `enable_all` as it is
     * meant (`on` true): every poller whose flag's truth is not `on` is
     * switched and saved.
     */
    method SwitchAll(on: bool)
      requires Valid()
      modifies EndpointsOf(items)`attrs, swis`log
      ensures Valid() && SwitchedUpTo(old(AttrsOf(items)), on, |items|)
      ensures swis.log == old(swis.log) + Pollers.SwitchCalls(old(FlagsOf(items)), old(UrisOf(items)), on)
    {
      ghost var flags := FlagsOf(items);
      ghost var uris := UrisOf(items);
      ghost var attrs0 := AttrsOf(items);
      SwitchStateStart(attrs0, uris, swis.log, flags, on);
      for i := 0 to |items|
        invariant Valid() && Switching(attrs0, flags, uris, old(swis.log), on, i)
      {
        SwitchStep(i, on, attrs0, flags, uris, old(swis.log));
      }
      SwitchStateEnd(AttrsOf(items), UrisOf(items), swis.log, attrs0, flags, uris, old(swis.log), on);
    }

    /** `disable_all`: every poller switched off, so that afterwards none is enabled; True. */
    method DisableAll() returns (r: bool)
      requires Valid()
      modifies EndpointsOf(items)`attrs, swis`log
      ensures Valid() && SwitchedUpTo(old(AttrsOf(items)), false, |items|) && r
      ensures forall i :: 0 <= i < |items| ==> !Truthy(items[i].IsEnabled())
      ensures swis.log == old(swis.log) + Pollers.SwitchCalls(old(FlagsOf(items)), old(UrisOf(items)), false)
    {
      SwitchAll(false);
      return true;
    }

    /** `enable_all` as it is evidently meant: every poller switched on, so that afterwards all are enabled; True. */
    method EnableAll() returns (r: bool)
      requires Valid()
      modifies EndpointsOf(items)`attrs, swis`log
      ensures Valid() && SwitchedUpTo(old(AttrsOf(items)), true, |items|) && r
      ensures forall i :: 0 <= i < |items| ==> Truthy(items[i].IsEnabled())
      ensures swis.log == old(swis.log) + Pollers.SwitchCalls(old(FlagsOf(items)), old(UrisOf(items)), true)
    {
      SwitchAll(true);
      return true;
    }

    /**
     * `enable_all` as written: it calls `disable` on every disabled
     * poller, which does nothing, so no poller and no call changes; True.
     */
    method EnableAllAsWritten() returns (r: bool)
      requires Valid()
      modifies EndpointsOf(items)`attrs, swis`log
      ensures Valid() && AttrsOf(items) == old(AttrsOf(items)) && r
      ensures swis.log == old(swis.log)
    {
      ghost var attrs0 := AttrsOf(items);
      for i := 0 to |items|
        invariant Valid() && AttrsOf(items) == attrs0
        invariant swis.log == old(swis.log)
      {
        if !Truthy(items[i].IsEnabled()) {
          DisableDisabled(i);
        }
      }
      return true;
    }

    /** `disable` on a disabled poller changes nothing. */
    method DisableDisabled(i: nat)
      requires Valid() && i < |items| && !Truthy(items[i].IsEnabled())
      modifies items[i].ep`attrs, swis`log
      ensures Valid() && AttrsOf(items) == old(AttrsOf(items)) && swis.log == old(swis.log)
    {
      ghost var attrs := AttrsOf(items);
      ghost var us := UrisOf(items);
      items[i].Disable();
      FrameOne(items, i, attrs, us);
      assert attrs[i := attrs[i]] == attrs;
    }

    /** One row of `fetch`: a new poller that extends `BuiltFrom` by that row. */
    method BuildNext(ps: seq<OrionPoller>, rows: seq<Props>, row: Props) returns (r: Result<OrionPoller>)
      requires BuiltFrom(ps, rows)
      modifies swis`log
      ensures swis.log == old(swis.log)
      ensures r.Err? <==> RowError(row).Some?
      ensures r.Err? ==> r.error == RowError(row).value
      ensures r.Ok? ==> fresh(r.value) && fresh(r.value.ep) && BuiltFrom(ps + [r.value], rows + [row])
    {
      r := PollerFromRow(swis, row);
      if r.Ok? {
        var qs := ps + [r.value];
        assert forall j :: 0 <= j < |ps| ==> qs[j] == ps[j];
      }
    }

    /** The pollers of query rows, built in order; the first row that cannot be built raises. */
    method BuildAll(rows: seq<Props>) returns (r: Result<seq<OrionPoller>>)
      modifies swis`log
      ensures swis.log == old(swis.log)
      ensures r.Ok? <==> RowsError(rows).None?
      ensures r.Err? ==> RowsError(rows) == Some(r.error)
      ensures r.Ok? ==> BuiltFrom(r.value, rows) && forall i :: 0 <= i < |rows| ==> fresh(r.value[i]) && fresh(r.value[i].ep)
    {
      var ps: seq<OrionPoller> := [];
      for i := 0 to |rows|
        invariant swis.log == old(swis.log)
        invariant BuiltFrom(ps, rows[..i])
        invariant forall j :: 0 <= j < i ==> fresh(ps[j]) && fresh(ps[j].ep)
      {
        var p := BuildNext(ps, rows[..i], rows[i]);
        if p.Err? {
          RowsErrorAt(rows, i);
          return Err(p.error);
        }
        assert rows[..i + 1] == rows[..i] + [rows[i]];
        ps := ps + [p.value];
      }
      assert rows[..|rows|] == rows;
      RowsErrorNone(rows);
      return Ok(ps);
    }

    /**
     * `fetch`: the node's pollers replace the list when the query returns
     * any; with no rows, or when a row cannot be built, the list is kept.
     */
    method Fetch() returns (r: Result<()>)
      requires Valid()
      modifies this`items, swis`log
      ensures Valid()
      ensures swis.log == old(swis.log) + [QueryCall(FetchQuery(nodeId))]
      ensures var rows := swis.RowsFor(FetchQuery(nodeId));
        && (rows == [] ==> r == Ok(()) && items == old(items))
        && (rows != [] && RowsError(rows).Some? ==> r == Err(RowsError(rows).value) && items == old(items))
        && (rows != [] && RowsError(rows).None? ==> r == Ok(()) && BuiltFrom(items, rows))
    {
      var rows := swis.RunQuery(FetchQuery(nodeId));
      if rows == [] {
        return Ok(());
      }
      var ps := BuildAll(rows);
      if ps.Err? {
        return Err(ps.error);
      }
      items := ps.value;
      forall i | 0 <= i < |items| ensures items[i].ep.swis == swis && items[i].Valid() {
        assert FromRow(items[i], swis, rows[i]);
      }
      return Ok(());
    }
  }
}
