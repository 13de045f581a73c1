/**
 * Pollers of the newest generation (pysolarwinds/entities/orion/pollers.py):
 * a `Poller` is an `Entity` whose one writable attribute `is_enabled` maps
 * to the record's `Enabled`, and a node's `PollerList` adds, deletes,
 * enables and disables them.
 */
module Pollers {
  import opened Wrappers
  import opened PyValue
  import opened Transport
  import Lists
  import BaseLists
  import Endpoints
  import Entities
  import NodeEntity

  /** `URI_TEMPLATE`. */
  const PollerTemplate := Endpoints.UriTemplate("swis://", "/Orion/Orion.Pollers/PollerID=", "")

  /** `WRITE_ATTR_MAP`. */
  const WriteMap: seq<(string, string)> := [("is_enabled", "Enabled")]

  /** The table the poller query module selects from. */
  const PollerTable := "Orion.Nodes"

  /** The SWIS entity type new pollers are created as. */
  const PollerType := "Orion.Pollers"

  /** The query of `_get_data`: pollers of one type. */
  function TypeQuery(pollerType: Value): Query
  {
    Query(PollerTable, [("PollerType", pollerType)])
  }

  /** The query of `fetch`: the pollers of one node. */
  function NodeQuery(nodeId: Value): Query
  {
    Query(PollerTable, [("NetObjectID", nodeId)])
  }

  /** For the poller write map, the diff of `save` is the `Enabled` flag when it differs, and the write-back sets it. */
  lemma SaveFlag(attrs: Props, data: Props)
    requires "Enabled" in data
    ensures Entities.SaveChanges(attrs, data, WriteMap) ==
      if Get(attrs, "is_enabled") != data["Enabled"] then Ok(map["Enabled" := Get(attrs, "is_enabled")]) else Ok(map[])
    ensures Entities.WrittenBack(data, attrs, WriteMap) == data["Enabled" := Get(attrs, "is_enabled")]
  {
    assert WriteMap[..0] == [];
  }

  // ---- construction ----

  /**
   * `_get_data`: with a poller type, the first row of the query for it
   * (SWObjectNotFoundError when there is none); without one, None.
   */
  function PollerLookup(swis: Swis, pollerType: Value): (r: Result<Option<Props>>)
    ensures !Truthy(pollerType) ==> r == Ok(None)
    ensures Truthy(pollerType) ==> (r.Ok? <==> |swis.RowsFor(TypeQuery(pollerType))| != 0)
    ensures Truthy(pollerType) && r.Ok? ==> r.value == Some(swis.RowsFor(TypeQuery(pollerType))[0])
    ensures r.Err? ==> r.error == SWObjectNotFoundError
  {
    if !Truthy(pollerType) then Ok(None)
    else
      var rows := swis.RowsFor(TypeQuery(pollerType));
      if |rows| == 0 then Err(SWObjectNotFoundError) else Ok(Some(rows[0]))
  }

  /** What `_get_data` is asked for: only when neither id, URI nor record is given. */
  function Found(swis: Swis, id: Value, uri: string, data: Props, pollerType: Value): Result<Option<Props>>
  {
    if !Truthy(id) && uri == "" && |data| == 0 then PollerLookup(swis, pollerType) else Ok(None)
  }

  /** The URI and record a new poller starts from: a lookup failure, or the identity of `Entity.__init__`. */
  function Identified(swis: Swis, id: Value, uri: string, data: Props, pollerType: Value): Result<(string, Props)>
  {
    var found := Found(swis, id, uri, data, pollerType);
    if found.Err? then Err(found.error)
    else Entities.InitialIdentity(swis.host, PollerTemplate, id, uri, data, found.value)
  }

  /**
   * Given nothing, a poller is found by its type (SWObjectNotFoundError
   * when no row has it) or refused with ValueError when it has no type;
   * given a record, the record and its URI are used as they are.
   */
  lemma IdentifiedCases(swis: Swis, id: Value, uri: string, data: Props, pollerType: Value)
    ensures var r := Identified(swis, id, uri, data, pollerType);
      && (!Truthy(id) && uri == "" && |data| == 0 && !Truthy(pollerType) ==> r == Err(ValueError))
      && (!Truthy(id) && uri == "" && |data| == 0 && Truthy(pollerType) && |swis.RowsFor(TypeQuery(pollerType))| == 0 ==>
            r == Err(SWObjectNotFoundError))
      && (uri == "" && |data| != 0 ==> r == Ok((Endpoints.DataUri(data), data)))
      && (uri != "" ==> r == Ok((uri, data)))
  {
  }

  /** `_id`, with a missing PollerID read as None. */
  function PollerIdOf(d: Props): Value
  {
    Get(d, "PollerID")
  }

  /** `poller_type or data.get("PollerType", "")`. */
  function TypeOf(data: Props, pollerType: Value): Value
  {
    Or(pollerType, GetOr(data, "PollerType", Str("")))
  }

  /** The attributes `__init__` ends with: the poller type and the record's flag. */
  function PollerAttrs(data: Props, pollerType: Value): Props
    requires "Enabled" in data
  {
    map["poller_type" := TypeOf(data, pollerType), "is_enabled" := data["Enabled"]]
  }

  /**
   * `display_name or poller_type`: the display name unless it is falsy; a
   * record without DisplayName is a KeyError.
   */
  function NameOf(data: Props, pollerType: Value): (r: Result<Value>)
    ensures r.Err? <==> "DisplayName" !in data
    ensures r.Err? ==> r.error == KeyError
    ensures r.Ok? && Truthy(data["DisplayName"]) ==> r.value == data["DisplayName"]
    ensures r.Ok? && !Truthy(data["DisplayName"]) ==> r.value == pollerType
  {
    if "DisplayName" !in data then Err(KeyError) else Ok(Or(data["DisplayName"], pollerType))
  }

  /**
   * Attributes `attrs` and record `data` are what `disable` (`on` false) or
   * `enable` (`on` true) leaves of `attrs0` and `data0`: unchanged when the
   * flag's truth already is `on`, else both the flag and `Enabled` set to
   * `on`.
   */
  predicate SwitchedFrom(attrs: Props, data: Props, attrs0: Props, data0: Props, on: bool)
  {
    if Truthy(Get(attrs0, "is_enabled")) == on then attrs == attrs0 && data == data0
    else attrs == attrs0["is_enabled" := Bool(on)] && data == data0["Enabled" := Bool(on)]
  }

  /**
   * Snapshots `attrs` and `data` of a list, against `attrs0` and `data0`
   * before: the first `i` are switched as `SwitchedFrom` says and their
   * flags' truth is `on`; the others are as they were.
   */
  predicate SwitchedSeq(attrs: seq<Props>, data: seq<Props>, attrs0: seq<Props>, data0: seq<Props>, on: bool, i: nat)
  {
    && |attrs| == |attrs0| && |data| == |attrs0| && |data0| == |attrs0| && i <= |attrs0|
    && (forall j :: 0 <= j < i ==>
          SwitchedFrom(attrs[j], data[j], attrs0[j], data0[j], on) && Truthy(Get(attrs[j], "is_enabled")) == on)
    && (forall j :: i <= j < |attrs0| ==> attrs[j] == attrs0[j] && data[j] == data0[j])
  }

  /** Switching the `i`th entry extends `SwitchedSeq` by one. */
  lemma SwitchedSeqStep(attrs: seq<Props>, data: seq<Props>, attrs0: seq<Props>, data0: seq<Props>,
                        on: bool, i: nat, a: Props, d: Props)
    requires SwitchedSeq(attrs, data, attrs0, data0, on, i) && i < |attrs0|
    requires SwitchedFrom(a, d, attrs[i], data[i], on) && Truthy(Get(a, "is_enabled")) == on
    ensures SwitchedSeq(attrs[i := a], data[i := d], attrs0, data0, on, i + 1)
  {
  }

  /**
   * The loop state of `switch_all` on snapshots: `SwitchedSeq` after `i`
   * entries, the URIs `us` unchanged, `flags` the flags' truth before, and
   * the updates for the first `i` sent after `log0`.
   */
  predicate SwitchState(attrs: seq<Props>, data: seq<Props>, us: seq<string>, log: seq<Call>,
                        attrs0: seq<Props>, data0: seq<Props>, flags: seq<bool>, uris: seq<string>,
                        log0: seq<Call>, on: bool, i: nat)
  {
    && SwitchedSeq(attrs, data, attrs0, data0, on, i)
    && |flags| == |attrs0| && |uris| == |attrs0| && us == uris
    && (forall j :: 0 <= j < |attrs0| ==> flags[j] == Truthy(Get(attrs0[j], "is_enabled")))
    && log == log0 + SwitchCalls(flags[..i], uris[..i], on)
  }

  /** Switching the `i`th entry, and sending its update when its flag's truth was not `on`, extends `SwitchState` by one. */
  lemma SwitchStateStep(attrs: seq<Props>, data: seq<Props>, us: seq<string>, log: seq<Call>,
                        attrs0: seq<Props>, data0: seq<Props>, flags: seq<bool>, uris: seq<string>,
                        log0: seq<Call>, on: bool, i: nat, a: Props, d: Props)
    requires SwitchState(attrs, data, us, log, attrs0, data0, flags, uris, log0, on, i) && i < |attrs0|
    requires SwitchedFrom(a, d, attrs[i], data[i], on) && Truthy(Get(a, "is_enabled")) == on
    ensures SwitchState(attrs[i := a], data[i := d], us,
      log + (if Truthy(Get(attrs[i], "is_enabled")) != on then [UpdateCall(us[i], map["Enabled" := Bool(on)])] else []),
      attrs0, data0, flags, uris, log0, on, i + 1)
  {
    SwitchCallsStep(flags, uris, on, i);
    SwitchedSeqStep(attrs, data, attrs0, data0, on, i, a, d);
  }

  /** When only the `i`th poller's attributes and record differ from `attrs` and `data`, and no URI from `us`, the snapshots differ at `i` alone. */
  lemma FrameOne(ps: seq<Poller>, i: nat, attrs: seq<Props>, data: seq<Props>, us: seq<string>)
    requires i < |ps| && |attrs| == |ps| && |data| == |ps| && |us| == |ps|
    requires forall j :: 0 <= j < |ps| && j != i ==> ps[j].entity.attrs == attrs[j] && ps[j].entity.data == data[j]
    requires forall j :: 0 <= j < |ps| ==> ps[j].entity.uri == us[j]
    ensures AttrsOf(ps) == attrs[i := ps[i].entity.attrs]
    ensures DataOf(ps) == data[i := ps[i].entity.data]
    ensures UrisOf(ps) == us
  {
  }

  /**
   * A poller: an `Entity` with the poller template and write map, and the
   * id of its node. Its `name` is computed from the record and the type,
   * neither of which enabling or disabling changes, so it is kept as the
   * value it has at construction, which `Valid` ties to the record.
   */
  class Poller {
    const entity: Entities.Entity
    const nodeId: Value
    const name: Result<Value>

    constructor (entity: Entities.Entity, nodeId: Value)
      ensures this.entity == entity && this.nodeId == nodeId
      ensures name == NameOf(entity.data, Get(entity.attrs, "poller_type"))
    {
      this.entity := entity;
      this.nodeId := nodeId;
      name := NameOf(entity.data, Get(entity.attrs, "poller_type"));
    }

    /**
     * The flag agrees with the record's `Enabled`, as `__init__` sets it and
     * `save` writes it back, and `name` is what the record and type give.
     */
    predicate Valid()
      reads entity
    {
      && entity.writeMap == WriteMap
      && "Enabled" in entity.data
      && Get(entity.attrs, "is_enabled") == entity.data["Enabled"]
      && name == Name()
    }

    /** `is_enabled`. */
    function IsEnabled(): Value
      reads entity
    {
      Get(entity.attrs, "is_enabled")
    }

    /** `poller_type`. */
    function Type(): Value
      reads entity
    {
      Get(entity.attrs, "poller_type")
    }

    /** `name`. */
    function Name(): Result<Value>
      reads entity
    {
      NameOf(entity.data, Type())
    }

    /**
     * The state `disable` (`on` false) or `enable` (`on` true) leaves,
     * from the attributes and record before: unchanged when the flag's
     * truth already is `on`, else both the flag and `Enabled` set to `on`.
     */
    predicate Switched(attrs0: Props, data0: Props, on: bool)
      reads entity
    {
      SwitchedFrom(entity.attrs, entity.data, attrs0, data0, on)
    }

    /**
     * `disable`: an enabled poller clears its flag and saves, which sends
     * `Enabled` False; a disabled one is left alone.
     */
    method Disable()
      requires Valid()
      modifies entity`attrs, entity`data, entity.swis`log
      ensures Valid() && Switched(old(entity.attrs), old(entity.data), false)
      ensures !Truthy(IsEnabled()) && Name() == old(Name())
      ensures entity.swis.log == old(entity.swis.log) +
        (if Truthy(old(IsEnabled())) then [UpdateCall(entity.uri, map["Enabled" := Bool(false)])] else [])
    {
      if Truthy(IsEnabled()) {
        entity.attrs := entity.attrs["is_enabled" := Bool(false)];
        SaveFlag(entity.attrs, entity.data);
        var _ := entity.Save(map[]);
      }
    }

    /**
     * `enable`: a disabled poller sets its flag and saves, which sends
     * `Enabled` True; an enabled one is left alone.
     */
    method Enable()
      requires Valid()
      modifies entity`attrs, entity`data, entity.swis`log
      ensures Valid() && Switched(old(entity.attrs), old(entity.data), true)
      ensures Truthy(IsEnabled()) && Name() == old(Name())
      ensures entity.swis.log == old(entity.swis.log) +
        (if !Truthy(old(IsEnabled())) then [UpdateCall(entity.uri, map["Enabled" := Bool(true)])] else [])
    {
      if !Truthy(IsEnabled()) {
        entity.attrs := entity.attrs["is_enabled" := Bool(true)];
        SaveFlag(entity.attrs, entity.data);
        var _ := entity.Save(map[]);
      }
    }

    /**
     * `delete`: one delete call for the URI, then the poller leaves its
     * node's list (`pollers`) if it is listed there.
     */
    method Delete(pollers: PollerList)
      requires pollers.Valid() && entity.swis == pollers.swis
      modifies entity.swis`log, pollers`items
      ensures pollers.Valid() && this !in pollers.items
      ensures entity.swis.log == old(entity.swis.log) + [DeleteCall([entity.uri])]
      ensures pollers.items == if this in old(pollers.items) then Lists.RemoveFirst(old(pollers.items), this) else old(pollers.items)
    {
      entity.Delete();
      pollers.Forget(this);
    }
  }

  /** The `_get_data` step of `Entity.__init__`, with the query it runs when it looks the type up. */
  method Find(swis: Swis, id: Value, uri: string, data: Props, pollerType: Value) returns (found: Result<Option<Props>>)
    modifies swis`log
    ensures found == Found(swis, id, uri, data, pollerType)
    ensures swis.log == old(swis.log) +
      (if !Truthy(id) && uri == "" && |data| == 0 && Truthy(pollerType) then [QueryCall(TypeQuery(pollerType))] else [])
  {
    found := Ok(None);
    if !Truthy(id) && uri == "" && |data| == 0 && Truthy(pollerType) {
      var rows := swis.RunQuery(TypeQuery(pollerType));
      if |rows| == 0 {
        return Err(SWObjectNotFoundError);
      }
      found := Ok(Some(rows[0]));
    }
  }

  /** `Entity.__init__` for a poller: the lookup, the identity and the id from PollerID (KeyError without one, unless given). */
  method Identify(swis: Swis, id: Value, uri: string, data: Props, pollerType: Value) returns (r: Result<Entities.Entity>)
    modifies swis`log
    ensures var u := Identified(swis, id, uri, data, pollerType);
      && (u.Err? ==> r == Err(u.error))
      && (r.Ok? ==>
            && u.Ok? && (Truthy(id) || "PollerID" in NodeEntity.RecordOf(swis, u.value))
            && fresh(r.value)
            && r.value.swis == swis && r.value.template == PollerTemplate && r.value.writeMap == WriteMap
            && r.value.uri == u.value.0
            && r.value.data == NodeEntity.RecordOf(swis, u.value)
            && r.value.id == (if Truthy(id) then id else NodeEntity.RecordOf(swis, u.value)["PollerID"]))
      && (u.Ok? && !Truthy(id) && "PollerID" !in NodeEntity.RecordOf(swis, u.value) ==> r == Err(KeyError))
      && (u.Ok? && (Truthy(id) || "PollerID" in NodeEntity.RecordOf(swis, u.value)) ==> r.Ok?)
    ensures Extends(old(swis.log), swis.log)
    ensures |data| != 0 || (!Truthy(id) && uri == "" && !Truthy(pollerType)) ==> swis.log == old(swis.log)
  {
    var found := Find(swis, id, uri, data, pollerType);
    if found.Err? {
      assert Extends(old(swis.log), swis.log);
      return Err(found.error);
    }
    ghost var mid := swis.log;
    ghost var u := Entities.InitialIdentity(swis.host, PollerTemplate, id, uri, data, found.value);
    assert u == Identified(swis, id, uri, data, pollerType);
    var entity := Entities.Construct(swis, PollerTemplate, WriteMap, id, uri, data, map["poller_type" := pollerType],
                                     found.value, PollerIdOf);
    assert Extends(mid, swis.log) && Extends(old(swis.log), mid);
    ExtendsTrans(old(swis.log), mid, swis.log);
    if entity.Err? {
      return Err(entity.error);
    }
    if !Truthy(id) && "PollerID" !in entity.value.data {
      return Err(KeyError);
    }
    return entity;
  }

  /**
   * `Poller(swis, node, id, uri, data, poller_type)`: `Identify`, then the
   * poller type (given, else the record's) and the record's `Enabled`
   * (KeyError without one).
   */
  method NewPoller(swis: Swis, nodeId: Value, id: Value, uri: string, data: Props, pollerType: Value) returns (r: Result<Poller>)
    modifies swis`log
    ensures var u := Identified(swis, id, uri, data, pollerType);
      && (u.Err? ==> r == Err(u.error))
      && (u.Ok? ==>
            var record := NodeEntity.RecordOf(swis, u.value);
            && (r.Ok? <==> (Truthy(id) || "PollerID" in record) && "Enabled" in record)
            && (r.Err? ==> r.error == KeyError)
            && (r.Ok? ==>
                  && fresh(r.value) && fresh(r.value.entity)
                  && r.value.nodeId == nodeId && r.value.Valid()
                  && r.value.entity.swis == swis && r.value.entity.template == PollerTemplate
                  && r.value.entity.uri == u.value.0 && r.value.entity.data == record
                  && r.value.entity.id == (if Truthy(id) then id else record["PollerID"])
                  && r.value.entity.attrs == PollerAttrs(record, pollerType)))
    ensures Extends(old(swis.log), swis.log)
    ensures |data| != 0 || (!Truthy(id) && uri == "" && !Truthy(pollerType)) ==> swis.log == old(swis.log)
  {
    var entity := Identify(swis, id, uri, data, pollerType);
    if entity.Err? {
      return Err(entity.error);
    }
    if "Enabled" !in entity.value.data {
      return Err(KeyError);
    }
    entity.value.attrs := PollerAttrs(entity.value.data, pollerType);
    var p := new Poller(entity.value, nodeId);
    return Ok(p);
  }

  /** Why a poller cannot be built from a query row, if it cannot. */
  function RowError(row: Props): (r: Option<Error>)
    ensures r.None? <==> |row| != 0 && "PollerID" in row && "Enabled" in row
    ensures r == Some(ValueError) <==> |row| == 0
    ensures r.Some? ==> r.value == ValueError || r.value == KeyError
  {
    if |row| == 0 then Some(ValueError)
    else if "PollerID" !in row || "Enabled" !in row then Some(KeyError)
    else None
  }

  /** The name of a poller built from `row` alone. */
  function RowName(row: Props): Result<Value>
  {
    NameOf(row, TypeOf(row, Null))
  }

  /** The poller a key names for `delete`, `disable` or `enable`: by name through `[...]`, or the poller itself. */
  function Target(ps: seq<Poller>, key: BaseLists.Key<Poller>): (r: Result<Poller>)
    ensures key.Item? ==> r == Ok(key.x)
    ensures key.Position? || key.OtherKey? ==> r == Err(AttributeError)
    ensures key.Text? && r.Ok? ==> r.value in ps && r.value.name == Ok(Str(key.s))
  {
    BaseLists.Target(ps, NamesOf(ps), key)
  }

  /**
   * The same as written: `[...]` of pysolarwinds/list.py answers the text
   * itself, so a poller named by text is never acted on.
   */
  function TargetAsWritten(ps: seq<Poller>, key: BaseLists.Key<Poller>): (r: Result<Poller>)
    ensures key.Text? ==> r.Err?
    ensures key.Text? && Target(ps, key).Ok? ==> r == Err(AttributeError)
    ensures !key.Text? ==> r == Target(ps, key)
  {
    BaseLists.TargetByNameFails(ps, NamesOf(ps), key);
    BaseLists.TargetAsWritten(ps, NamesOf(ps), key)
  }

  /** The entity that `disable` or `enable` of a list may change: the target's, none when there is none. */
  function TargetEntities(ps: seq<Poller>, key: BaseLists.Key<Poller>): set<Entities.Entity>
  {
    var t := Target(ps, key); if t.Ok? then {t.value.entity} else {}
  }

  /** The poller's node, client, URI, record, id, attributes and name are the ones `row` gives. */
  predicate Shows(p: Poller, swis: Swis, nodeId: Value, row: Props)
    reads p.entity
    requires "Enabled" in row
  {
    && p.nodeId == nodeId && p.entity.swis == swis
    && p.entity.uri == Endpoints.DataUri(row) && p.entity.data == row
    && p.entity.id == Get(row, "PollerID") && p.entity.attrs == PollerAttrs(row, Null)
    && p.name == RowName(row)
  }

  /** A poller as `Poller(swis, node, data=row)` builds it. */
  predicate FromRow(p: Poller, swis: Swis, nodeId: Value, row: Props)
    reads p.entity
    requires "Enabled" in row
  {
    p.Valid() && p.entity.template == PollerTemplate && Shows(p, swis, nodeId, row)
  }

  /** `Poller(swis, node, data=row)`: a non-empty row with PollerID and Enabled, and no call. */
  method PollerFromRow(swis: Swis, nodeId: Value, row: Props) returns (r: Result<Poller>)
    modifies swis`log
    ensures r.Err? <==> RowError(row).Some?
    ensures r.Err? ==> r.error == RowError(row).value
    ensures r.Ok? ==> fresh(r.value) && fresh(r.value.entity) && "Enabled" in row && FromRow(r.value, swis, nodeId, row)
    ensures swis.log == old(swis.log)
  {
    IdentifiedCases(swis, Null, "", row, Null);
    r := NewPoller(swis, nodeId, Null, "", row, Null);
  }

  // ---- lists of pollers ----

  /** The entities of a list of pollers. */
  function EntitiesOf(ps: seq<Poller>): (r: seq<Entities.Entity>)
    ensures |r| == |ps| && forall i :: 0 <= i < |ps| ==> r[i] == ps[i].entity
  {
    if ps == [] then [] else EntitiesOf(ps[..|ps| - 1]) + [ps[|ps| - 1].entity]
  }

  /** `names`, each as the poller answers it or the error it raises. */
  function NamesOf(ps: seq<Poller>): (r: seq<Result<Value>>)
    ensures |r| == |ps| && forall i :: 0 <= i < |ps| ==> r[i] == ps[i].name
  {
    if ps == [] then [] else NamesOf(ps[..|ps| - 1]) + [ps[|ps| - 1].name]
  }

  /** The attributes of each poller. */
  function AttrsOf(ps: seq<Poller>): (r: seq<Props>)
    reads EntitiesOf(ps)
    ensures |r| == |ps| && forall i :: 0 <= i < |ps| ==> r[i] == ps[i].entity.attrs
  {
    if ps == [] then []
    else
      assert EntitiesOf(ps[..|ps| - 1]) == EntitiesOf(ps)[..|ps| - 1];
      AttrsOf(ps[..|ps| - 1]) + [ps[|ps| - 1].entity.attrs]
  }

  /** The record of each poller. */
  function DataOf(ps: seq<Poller>): (r: seq<Props>)
    reads EntitiesOf(ps)
    ensures |r| == |ps| && forall i :: 0 <= i < |ps| ==> r[i] == ps[i].entity.data
  {
    if ps == [] then []
    else
      assert EntitiesOf(ps[..|ps| - 1]) == EntitiesOf(ps)[..|ps| - 1];
      DataOf(ps[..|ps| - 1]) + [ps[|ps| - 1].entity.data]
  }

  /** The URIs of a list of pollers. */
  function UrisOf(ps: seq<Poller>): (r: seq<string>)
    reads EntitiesOf(ps)
    ensures |r| == |ps| && forall i :: 0 <= i < |ps| ==> r[i] == ps[i].entity.uri
  {
    if ps == [] then []
    else
      assert EntitiesOf(ps[..|ps| - 1]) == EntitiesOf(ps)[..|ps| - 1];
      UrisOf(ps[..|ps| - 1]) + [ps[|ps| - 1].entity.uri]
  }

  /** Whether each poller's flag is truthy. */
  function FlagsOf(ps: seq<Poller>): (r: seq<bool>)
    reads EntitiesOf(ps)
    ensures |r| == |ps| && forall i :: 0 <= i < |ps| ==> r[i] == Truthy(ps[i].IsEnabled())
  {
    if ps == [] then []
    else
      assert EntitiesOf(ps[..|ps| - 1]) == EntitiesOf(ps)[..|ps| - 1];
      FlagsOf(ps[..|ps| - 1]) + [Truthy(ps[|ps| - 1].IsEnabled())]
  }

  /** The URIs of the pollers built from query rows. */
  function RowUris(rows: seq<Props>): (r: seq<string>)
    ensures |r| == |rows| && forall i :: 0 <= i < |rows| ==> r[i] == Endpoints.DataUri(rows[i])
  {
    if rows == [] then [] else RowUris(rows[..|rows| - 1]) + [Endpoints.DataUri(rows[|rows| - 1])]
  }

  /** The first row no poller can be built from, by its error. */
  function RowsError(rows: seq<Props>): (r: Option<Error>)
    decreases |rows|
  {
    if rows == [] then None
    else if RowError(rows[0]).Some? then RowError(rows[0])
    else RowsError(rows[1..])
  }

  /** Building every row succeeds exactly when each row has what a poller needs; a failure is the first row's error. */
  lemma {:induction false} RowsErrorFirst(rows: seq<Props>)
    ensures RowsError(rows).None? <==> forall i :: 0 <= i < |rows| ==> RowError(rows[i]).None?
    ensures RowsError(rows).Some? ==>
      exists i :: 0 <= i < |rows| && RowError(rows[i]) == RowsError(rows) && forall j :: 0 <= j < i ==> RowError(rows[j]).None?
    decreases |rows|
  {
    if rows != [] {
      RowsErrorFirst(rows[1..]);
      if RowError(rows[0]).None? {
        if RowsError(rows[1..]).Some? {
          var i :| 0 <= i < |rows[1..]| && RowError(rows[1..][i]) == RowsError(rows[1..])
            && forall j :: 0 <= j < i ==> RowError(rows[1..][j]).None?;
          assert RowError(rows[i + 1]) == RowsError(rows);
          forall j | 0 <= j < i + 1 ensures RowError(rows[j]).None? {
            if j > 0 {
              assert rows[j] == rows[1..][j - 1];
            }
          }
        } else {
          forall i | 0 <= i < |rows| ensures RowError(rows[i]).None? {
            if i > 0 {
              assert rows[i] == rows[1..][i - 1];
            }
          }
        }
      }
    }
  }

  /** Rows until position `i` build; row `i` has the error `e`. */
  lemma RowsErrorAt(rows: seq<Props>, i: nat)
    requires i < |rows| && RowError(rows[i]).Some?
    requires forall j :: 0 <= j < i ==> RowError(rows[j]).None?
    ensures RowsError(rows) == RowError(rows[i])
    decreases i
  {
    if i > 0 {
      RowsErrorAt(rows[1..], i - 1);
    }
  }

  /** The payload `add` creates a poller with. */
  function AddPayload(nodeId: Value, pollerType: string, enabled: bool): Props
  {
    map["PollerType" := Str(pollerType), "NetObject" := Str(NodeEntity.NetObject(nodeId)),
        "NetObjectType" := Str("N"), "NetObjectID" := nodeId, "Enabled" := Bool(enabled)]
  }

  /** The URI `create` answers for the poller `add` makes of `name`. */
  function NewUri(swis: Swis, nodeId: Value, name: string, enabled: bool): string
  {
    swis.CreatedUri(PollerType, AddPayload(nodeId, name, enabled))
  }

  /** The calls `add` makes for its names: per name, the create and then the read of the URI it answered. */
  function AddCalls(swis: Swis, nodeId: Value, names: seq<string>, enabled: bool): (r: seq<Call>)
    ensures |r| == 2 * |names|
  {
    if names == [] then []
    else AddCalls(swis, nodeId, names[..|names| - 1], enabled)
         + [CreateCall(PollerType, AddPayload(nodeId, names[|names| - 1], enabled)),
            ReadCall(NewUri(swis, nodeId, names[|names| - 1], enabled))]
  }

  /** Per name, `add` creates a poller with the name as its type on the node, then reads the new URI back. */
  lemma {:induction false} AddCallsAt(swis: Swis, nodeId: Value, names: seq<string>, enabled: bool, i: nat)
    requires i < |names|
    ensures AddCalls(swis, nodeId, names, enabled)[2 * i] == CreateCall(PollerType, AddPayload(nodeId, names[i], enabled))
    ensures AddCalls(swis, nodeId, names, enabled)[2 * i + 1] == ReadCall(NewUri(swis, nodeId, names[i], enabled))
    decreases |names|
  {
    if i < |names| - 1 {
      AddCallsAt(swis, nodeId, names[..|names| - 1], enabled, i);
      assert names[..|names| - 1][i] == names[i];
    }
  }

  lemma AddCallsExtend(log0: seq<Call>, swis: Swis, nodeId: Value, names: seq<string>, enabled: bool)
    ensures Extends(log0, log0 + AddCalls(swis, nodeId, names, enabled))
  {
    assert (log0 + AddCalls(swis, nodeId, names, enabled))[..|log0|] == log0;
  }

  lemma AddCallsStep(swis: Swis, nodeId: Value, names: seq<string>, enabled: bool, i: nat)
    requires i < |names|
    ensures AddCalls(swis, nodeId, names[..i + 1], enabled) ==
      AddCalls(swis, nodeId, names[..i], enabled)
      + [CreateCall(PollerType, AddPayload(nodeId, names[i], enabled)), ReadCall(NewUri(swis, nodeId, names[i], enabled))]
  {
    assert names[..i + 1][..i] == names[..i];
  }

  /** The updates `disable_all` (`on` false) or `enable_all` (`on` true) sends: one per poller whose flag's truth differs. */
  function SwitchCalls(flags: seq<bool>, uris: seq<string>, on: bool): (r: seq<Call>)
    requires |flags| == |uris|
    ensures |r| <= |flags|
    ensures (forall i :: 0 <= i < |flags| ==> flags[i] == on) ==> r == []
  {
    if flags == [] then []
    else SwitchCalls(flags[..|flags| - 1], uris[..|uris| - 1], on)
         + (if flags[|flags| - 1] != on then [UpdateCall(uris[|uris| - 1], map["Enabled" := Bool(on)])] else [])
  }

  lemma SwitchCallsStep(flags: seq<bool>, uris: seq<string>, on: bool, i: nat)
    requires |flags| == |uris| && i < |flags|
    ensures SwitchCalls(flags[..i + 1], uris[..i + 1], on) ==
      SwitchCalls(flags[..i], uris[..i], on) + (if flags[i] != on then [UpdateCall(uris[i], map["Enabled" := Bool(on)])] else [])
  {
    assert flags[..i + 1][..i] == flags[..i];
    assert uris[..i + 1][..i] == uris[..i];
  }

  /** Pollers on one client, each valid, no entity listed twice. */
  predicate ValidPollers(ps: seq<Poller>, swis: Swis)
    reads EntitiesOf(ps)
  {
    && (forall i :: 0 <= i < |ps| ==> ps[i].entity.swis == swis && ps[i].Valid())
    && (forall i, j :: 0 <= i < j < |ps| ==> ps[i].entity != ps[j].entity)
  }

  /** A list `r` that is a valid `ps` without its `k`th poller is valid and lacks that poller. */
  lemma ShiftValid(ps: seq<Poller>, r: seq<Poller>, k: nat, swis: Swis)
    requires k < |ps| && |r| + 1 == |ps|
    requires forall i :: 0 <= i < |r| ==> r[i] == ps[if i < k then i else i + 1]
    requires ValidPollers(ps, swis)
    ensures ValidPollers(r, swis) && ps[k] !in r
  {
    forall i | 0 <= i < |r| ensures r[i].entity.swis == swis && r[i].Valid() && r[i] != ps[k] {
      var i1 := if i < k then i else i + 1;
      assert r[i] == ps[i1] && i1 != k;
    }
    forall i, j | 0 <= i < j < |r| ensures r[i].entity != r[j].entity {
      var i1 := if i < k then i else i + 1;
      var j1 := if j < k then j else j + 1;
      assert r[i] == ps[i1] && r[j] == ps[j1] && i1 < j1;
    }
  }

  /** Removing a listed poller keeps the list valid and drops the poller. */
  lemma RemoveValid(ps: seq<Poller>, p: Poller, swis: Swis)
    requires ValidPollers(ps, swis) && p in ps
    ensures ValidPollers(Lists.RemoveFirst(ps, p), swis) && p !in Lists.RemoveFirst(ps, p)
  {
    Lists.RemoveFirstAt(ps, p);
    ShiftValid(ps, Lists.RemoveFirst(ps, p), Lists.IndexOf(ps, p), swis);
  }

  /** `get(name)` on a list of pollers. */
  function Lookup(ps: seq<Poller>, name: string): Result<Option<Poller>>
  {
    BaseLists.Get(ps, NamesOf(ps), BaseLists.Text(name))
  }

  /** A sequence one longer than its prefix `b` is `b` and its last element. */
  lemma GrownByOne<T>(s: seq<T>, b: seq<T>)
    requires |s| == |b| + 1 && s[..|b|] == b
    ensures s == b + [s[|b|]]
  {
    assert s == s[..|b|] + [s[|b|]];
  }

  /** Appending keeps a prefix. */
  lemma PrefixKept<T>(b: seq<T>, x: T, n: nat)
    requires n <= |b|
    ensures (b + [x])[..n] == b[..n]
  {
  }

  lemma ValidAppend(ps: seq<Poller>, p: Poller, swis: Swis)
    requires ValidPollers(ps, swis) && p.Valid() && p.entity.swis == swis
    requires forall i :: 0 <= i < |ps| ==> ps[i].entity != p.entity
    ensures ValidPollers(ps + [p], swis)
  {
    var r := ps + [p];
    assert forall i :: 0 <= i < |ps| ==> r[i] == ps[i];
  }

  /** The create and read-back of `add` for one name, and the poller built from the record read. */
  method CreatePoller(swis: Swis, nodeId: Value, name: string, enabled: bool) returns (r: Result<Poller>)
    modifies swis`log
    ensures var u := NewUri(swis, nodeId, name, enabled);
      && swis.log == old(swis.log) + [CreateCall(PollerType, AddPayload(nodeId, name, enabled)), ReadCall(u)]
      && (r.Err? <==> RowError(swis.RecordAt(u)).Some?)
      && (r.Err? ==> r.error == RowError(swis.RecordAt(u)).value)
      && (r.Ok? ==> fresh(r.value) && fresh(r.value.entity) && "Enabled" in swis.RecordAt(u)
                    && FromRow(r.value, swis, nodeId, swis.RecordAt(u)))
  {
    var uri := swis.Create(PollerType, AddPayload(nodeId, name, enabled));
    var data := swis.Read(uri);
    r := PollerFromRow(swis, nodeId, data);
  }

  /** `get` on a prefix of a list is not affected by an append. */
  lemma LookupPrefix(before: seq<Poller>, p: Poller, n: nat, name: string)
    requires n <= |before|
    ensures Lookup((before + [p])[..n], name) == Lookup(before[..n], name)
  {
    PrefixKept(before, p, n);
  }

  /** `get(names[j])` found nothing among the first `n + j` pollers of `items`. */
  predicate UnlistedAt(items: seq<Poller>, n: nat, names: seq<string>, j: nat)
  {
    n + j <= |items| && j < |names| && Lookup(items[..n + j], names[j]) == Ok(None)
  }

  /**
   * After `i` names of `add`: `i` pollers were appended to `items0`, the
   * calls for `i` names were made after `log0`, and `get` found none of
   * those names among the pollers listed before it.
   */
  predicate AddedSoFar(items: seq<Poller>, log: seq<Call>, items0: seq<Poller>, log0: seq<Call>, swis: Swis, nodeId: Value,
                       names: seq<string>, enabled: bool, i: nat)
  {
    && i <= |names| && |items| == |items0| + i && items[..|items0|] == items0
    && log == log0 + AddCalls(swis, nodeId, names[..i], enabled)
    && (forall j :: 0 <= j < i ==> UnlistedAt(items, |items0|, names, j))
  }

  /** A name `get` does not find, created and appended, extends `AddedSoFar` by one. */
  lemma AddedStep(before: seq<Poller>, p: Poller, log: seq<Call>, items0: seq<Poller>, log0: seq<Call>, swis: Swis,
                  nodeId: Value, names: seq<string>, enabled: bool, i: nat)
    requires AddedSoFar(before, log, items0, log0, swis, nodeId, names, enabled, i) && i < |names|
    requires Lookup(before, names[i]) == Ok(None)
    ensures AddedSoFar(before + [p],
                       log + [CreateCall(PollerType, AddPayload(nodeId, names[i], enabled)), ReadCall(NewUri(swis, nodeId, names[i], enabled))],
                       items0, log0, swis, nodeId, names, enabled, i + 1)
  {
    var after := before + [p];
    PrefixKept(before, p, |items0|);
    AddCallsStep(swis, nodeId, names, enabled, i);
    forall j | 0 <= j < i + 1 ensures UnlistedAt(after, |items0|, names, j) {
      if j == i {
        UnlistedNext(before, p, |items0|, names, i);
      } else {
        UnlistedKept(before, p, |items0|, names, j);
      }
    }
  }

  /** An append leaves what `get` found among the pollers listed before. */
  lemma UnlistedKept(before: seq<Poller>, p: Poller, n: nat, names: seq<string>, j: nat)
    requires UnlistedAt(before, n, names, j)
    ensures UnlistedAt(before + [p], n, names, j)
  {
    LookupPrefix(before, p, n + j, names[j]);
  }

  /** A name `get` does not find among all `n + i` pollers listed is unlisted at `i` once one more is appended. */
  lemma UnlistedNext(before: seq<Poller>, p: Poller, n: nat, names: seq<string>, i: nat)
    requires |before| == n + i && i < |names| && Lookup(before, names[i]) == Ok(None)
    ensures UnlistedAt(before + [p], n, names, i)
  {
    LookupPrefix(before, p, n + i, names[i]);
    assert before[..n + i] == before;
  }

  /** The record `add` reads back for `name`. */
  function NewRecord(swis: Swis, nodeId: Value, name: string, enabled: bool): Props
  {
    swis.RecordAt(NewUri(swis, nodeId, name, enabled))
  }

  /** The records `add` reads back for `names`, in order. */
  function NewRecords(swis: Swis, nodeId: Value, names: seq<string>, enabled: bool): (r: seq<Props>)
    ensures |r| == |names|
  {
    if names == [] then [] else NewRecords(swis, nodeId, names[..|names| - 1], enabled) + [NewRecord(swis, nodeId, names[|names| - 1], enabled)]
  }

  /** Entry `i` of `NewRecords` is the record read back for `names[i]`. */
  lemma {:induction false} NewRecordsAt(swis: Swis, nodeId: Value, names: seq<string>, enabled: bool, i: nat)
    requires i < |names|
    ensures NewRecords(swis, nodeId, names, enabled)[i] == NewRecord(swis, nodeId, names[i], enabled)
  {
    var init := names[..|names| - 1];
    if i < |names| - 1 {
      NewRecordsAt(swis, nodeId, init, enabled, i);
      assert init[i] == names[i];
    }
  }

  /**
   * The first `i` pollers appended after the `n0` listed before show the
   * first `i` of the records `rows`.
   */
  predicate AppendedFor(items: seq<Poller>, n0: nat, swis: Swis, nodeId: Value, rows: seq<Props>, i: nat)
    reads EntitiesOf(items)
  {
    && n0 + i <= |items| && i <= |rows|
    && forall j :: 0 <= j < i ==> "Enabled" in rows[j] && Shows(items[n0 + j], swis, nodeId, rows[j])
  }

  /** Appending a poller that shows the next record extends `AppendedFor` by one. */
  lemma AppendedGrow(items: seq<Poller>, before: seq<Poller>, n0: nat, swis: Swis, nodeId: Value, rows: seq<Props>, i: nat)
    requires AppendedFor(before, n0, swis, nodeId, rows, i) && |before| == n0 + i && i < |rows|
    requires |items| == |before| + 1 && items[..|before|] == before
    requires "Enabled" in rows[i] && Shows(items[|before|], swis, nodeId, rows[i])
    ensures AppendedFor(items, n0, swis, nodeId, rows, i + 1)
  {
    forall j | 0 <= j < i + 1
      ensures "Enabled" in rows[j] && Shows(items[n0 + j], swis, nodeId, rows[j])
    {
      if j < i {
        assert items[n0 + j] == items[..|before|][n0 + j];
      }
    }
  }

  /** A node's `PollerList`: its pollers, all on the node's client, no entity listed twice. */
  class PollerList {
    const swis: Swis
    const nodeId: Value
    var items: seq<Poller>

    constructor (swis: Swis, nodeId: Value)
      ensures this.swis == swis && this.nodeId == nodeId && items == []
    {
      this.swis := swis;
      this.nodeId := nodeId;
      items := [];
    }

    predicate Valid()
      reads this, EntitiesOf(items)
    {
      ValidPollers(items, swis)
    }

    /** The list's part of an item's `delete`: the item leaves the list if `get` finds it there. */
    method Forget(x: Poller)
      requires Valid() && x.entity.swis == swis
      modifies this`items
      ensures Valid() && x !in items
      ensures items == if x in old(items) then Lists.RemoveFirst(old(items), x) else old(items)
    {
      var names := NamesOf(items);
      var found := BaseLists.Get(items, names, BaseLists.Item(x));
      BaseLists.GetItem(items, names, x);
      if found.Ok? && found.value.Some? {
        RemoveValid(items, x, swis);
        items := Lists.RemoveFirst(items, x);
      }
    }

    /** With the query `rows` answered, `Valid` holds of pollers built from them. */
    predicate BuiltFrom(ps: seq<Poller>, rows: seq<Props>)
      reads EntitiesOf(ps)
    {
      && |ps| == |rows|
      && (forall i :: 0 <= i < |rows| ==> RowError(rows[i]).None? && FromRow(ps[i], swis, nodeId, rows[i]))
      && (forall i, j :: 0 <= i < j < |ps| ==> ps[i].entity != ps[j].entity)
    }

    /** `get(name)` finds a poller. */
    predicate Taken(s: string)
      reads this
    {
      Lookup(items, s).Ok? && Lookup(items, s).value.Some?
    }

    /** Appends a poller on this client whose entity is not listed yet. */
    method Append(p: Poller)
      requires Valid() && p.Valid() && p.entity.swis == swis
      requires forall i :: 0 <= i < |items| ==> items[i].entity != p.entity
      modifies this`items
      ensures items == old(items) + [p] && Valid()
    {
      ValidAppend(items, p, swis);
      items := items + [p];
    }

    /**
     * One pass of the loop of `add`: a name some poller already answers is
     * refused with SWObjectExistsError (a name that cannot be read raises
     * first); otherwise the poller is created on the node with the flag,
     * read back and appended, and answered.
     */
    method AddOne(name: string, enabled: bool) returns (r: Result<Poller>)
      requires Valid()
      modifies this`items, swis`log
      ensures Valid()
      ensures r.Err? ==> items == old(items) && Extends(old(swis.log), swis.log)
      ensures Lookup(old(items), name).Err? ==> r == Err(Lookup(old(items), name).error) && swis.log == old(swis.log)
      ensures Lookup(old(items), name).Ok? && Lookup(old(items), name).value.Some? ==>
        r == Err(SWObjectExistsError) && swis.log == old(swis.log)
      ensures Lookup(old(items), name) == Ok(None) ==>
        && swis.log == old(swis.log) + [CreateCall(PollerType, AddPayload(nodeId, name, enabled)), ReadCall(NewUri(swis, nodeId, name, enabled))]
        && (r.Err? <==> RowError(NewRecord(swis, nodeId, name, enabled)).Some?)
        && (r.Err? ==> r.error == RowError(NewRecord(swis, nodeId, name, enabled)).value)
      ensures r.Ok? ==>
        && Lookup(old(items), name) == Ok(None) && items == old(items) + [r.value]
        && fresh(r.value) && fresh(r.value.entity) && "Enabled" in NewRecord(swis, nodeId, name, enabled)
        && FromRow(r.value, swis, nodeId, NewRecord(swis, nodeId, name, enabled))
    {
      var g := Lookup(items, name);
      if g.Err? {
        return Err(g.error);
      }
      if g.value.Some? {
        return Err(SWObjectExistsError);
      }
      r := CreatePoller(swis, nodeId, name, enabled);
      if r.Ok? {
        Append(r.value);
      }
    }

    /** `AddedSoFar` of this list's pollers and calls. */
    predicate Adding(items0: seq<Poller>, log0: seq<Call>, names: seq<string>, enabled: bool, i: nat)
      reads this, swis
    {
      AddedSoFar(items, swis.log, items0, log0, swis, nodeId, names, enabled, i)
    }

    /**
     * One name of `add`: on success the state after `i + 1` names, the
     * poller appended showing the record read back for the name; on
     * failure the list unchanged.
     */
    method AddStep(i: nat, names: seq<string>, enabled: bool, ghost items0: seq<Poller>, ghost log0: seq<Call>,
                   ghost rows: seq<Props>)
      returns (r: Result<()>)
      requires Valid() && i < |names| && i < |rows|
      requires rows[i] == NewRecord(swis, nodeId, names[i], enabled)
      requires Adding(items0, log0, names, enabled, i)
      modifies this`items, swis`log
      ensures Valid()
      ensures r.Ok? ==> Adding(items0, log0, names, enabled, i + 1)
      ensures r.Ok? ==>
        && |items| == |old(items)| + 1 && items[..|old(items)|] == old(items)
        && "Enabled" in rows[i] && Shows(items[|old(items)|], swis, nodeId, rows[i])
      ensures r.Err? ==> items == old(items) && |items0| <= |items| && items[..|items0|] == items0 && Extends(log0, swis.log)
      ensures old(Taken(names[i])) ==> r == Err(SWObjectExistsError) && items == old(items) && swis.log == old(swis.log)
    {
      ghost var before := items;
      ghost var log := swis.log;
      var p := AddOne(names[i], enabled);
      if p.Err? {
        assert Extends(log0, log) by {
          assert log[..|log0|] == log0;
        }
        ExtendsTrans(log0, log, swis.log);
        return Err(p.error);
      }
      AddedStep(before, p.value, log, items0, log0, swis, nodeId, names, enabled, i);
      PrefixKept(before, p.value, |before|);
      assert before[..|before|] == before;
      return Ok(());
    }

    /** What the loop of `add` knows after `i` names: `Adding`, `AppendedFor` of `rows`, and the calls so far extend `log0`. */
    predicate AddState(items0: seq<Poller>, log0: seq<Call>, names: seq<string>, enabled: bool, rows: seq<Props>, i: nat)
      reads this, swis, EntitiesOf(items)
    {
      && Valid() && Adding(items0, log0, names, enabled, i)
      && AppendedFor(items, |items0|, swis, nodeId, rows, i) && Extends(log0, swis.log)
    }

    /** `AddStep`, keeping what the loop of `add` knows of the pollers appended so far. */
    method AddNext(i: nat, names: seq<string>, enabled: bool, ghost items0: seq<Poller>, ghost log0: seq<Call>,
                   ghost rows: seq<Props>)
      returns (r: Result<()>)
      requires i < |names| && i < |rows|
      requires rows[i] == NewRecord(swis, nodeId, names[i], enabled)
      requires AddState(items0, log0, names, enabled, rows, i)
      modifies this`items, swis`log
      ensures r.Ok? ==> AddState(items0, log0, names, enabled, rows, i + 1)
      ensures r.Err? ==>
        && Valid() && Extends(log0, swis.log) && items == old(items) && |items0| <= |items| && items[..|items0|] == items0
        && AppendedFor(items, |items0|, swis, nodeId, rows, i)
      ensures old(Taken(names[i])) ==> r == Err(SWObjectExistsError) && items == old(items) && swis.log == old(swis.log)
    {
      ghost var n0 := |items0|;
      label Head:
      ghost var before := items;
      r := AddStep(i, names, enabled, items0, log0, rows);
      forall j | 0 <= j < i
        ensures "Enabled" in rows[j] && Shows(before[n0 + j], swis, nodeId, rows[j])
      {
        assert unchanged@Head(before[n0 + j].entity);
      }
      if r.Err? {
        assert items == before;
        assert AppendedFor(before, n0, swis, nodeId, rows, i);
        return;
      }
      AppendedGrow(items, before, n0, swis, nodeId, rows, i);
      AddCallsExtend(log0, swis, nodeId, names[..i + 1], enabled);
    }

    /**
     * `add(names, enabled=...)` (a single name is passed as a one-name
     * list): each name in turn is looked up among the pollers listed so
     * far, then created and appended. What was appended before a failure
     * stays; a first name already taken is refused with nothing changed.
     * Every poller appended shows the record read back for its name. On success there is one poller and one
     * create and read per name, and no name was found among the pollers
     * listed before it.
     */
    method Add(names: seq<string>, enabled: bool) returns (r: Result<()>)
      requires Valid()
      modifies this`items, swis`log
      ensures Valid()
      ensures |old(items)| <= |items| && items[..|old(items)|] == old(items)
      ensures AppendedFor(items, |old(items)|, swis, nodeId, NewRecords(swis, nodeId, names, enabled), |items| - |old(items)|)
      ensures Extends(old(swis.log), swis.log)
      ensures names != [] && old(Taken(names[0])) ==> r == Err(SWObjectExistsError) && items == old(items) && swis.log == old(swis.log)
      ensures r.Ok? ==>
        && |items| == |old(items)| + |names|
        && swis.log == old(swis.log) + AddCalls(swis, nodeId, names, enabled)
        && forall j :: 0 <= j < |names| ==> UnlistedAt(items, |old(items)|, names, j)
    {
      ghost var taken0 := names != [] && Taken(names[0]);
      ghost var rows := NewRecords(swis, nodeId, names, enabled);
      assert items[..|items|] == items;
      assert old(swis.log) + AddCalls(swis, nodeId, names[..0], enabled) == old(swis.log);
      for i := 0 to |names|
        invariant AddState(old(items), old(swis.log), names, enabled, rows, i)
        invariant taken0 ==> i == 0
      {
        if i == 0 {
          assert items == items[..|old(items)|];
        }
        NewRecordsAt(swis, nodeId, names, enabled, i);
        r := AddNext(i, names, enabled, old(items), old(swis.log), rows);
        if r.Err? {
          return;
        }
      }
      assert names[..|names|] == names;
      return Ok(());
    }

    /**
     * `fetch`: the node's pollers as the query lists them; when the query
     * returns nothing the previous pollers stay, and a row no poller can be
     * built from raises, leaving them too.
     */
    method Fetch() returns (r: Result<()>)
      requires Valid()
      modifies this`items, swis`log
      ensures Valid()
      ensures swis.log == old(swis.log) + [QueryCall(NodeQuery(nodeId))]
      ensures var rows := swis.RowsFor(NodeQuery(nodeId));
        && (rows == [] ==> r == Ok(()) && items == old(items))
        && (rows != [] ==> (r.Ok? <==> RowsError(rows).None?))
        && (r.Err? ==> items == old(items) && RowsError(rows) == Some(r.error))
        && (rows != [] && r.Ok? ==> BuiltFrom(items, rows) && forall i :: 0 <= i < |items| ==> fresh(items[i]) && fresh(items[i].entity))
    {
      var rows := swis.RunQuery(NodeQuery(nodeId));
      if rows != [] {
        var built := BuildAll(rows);
        if built.Err? {
          return Err(built.error);
        }
        items := built.value;
      }
      return Ok(());
    }

    /** `[Poller(swis, node, data=x) for x in rows]`, stopping at the first row that fails. */
    method BuildAll(rows: seq<Props>) returns (r: Result<seq<Poller>>)
      modifies swis`log
      ensures swis.log == old(swis.log)
      ensures r.Ok? <==> RowsError(rows).None?
      ensures r.Err? ==> RowsError(rows) == Some(r.error)
      ensures r.Ok? ==> BuiltFrom(r.value, rows) && forall i :: 0 <= i < |rows| ==> fresh(r.value[i]) && fresh(r.value[i].entity)
    {
      var ps: seq<Poller> := [];
      for i := 0 to |rows|
        invariant swis.log == old(swis.log)
        invariant BuiltFrom(ps, rows[..i])
        invariant forall j :: 0 <= j < i ==> fresh(ps[j]) && fresh(ps[j].entity)
      {
        var p := BuildNext(ps, rows[..i], rows[i]);
        if p.Err? {
          RowsErrorAt(rows, i);
          return Err(p.error);
        }
        assert rows[..i + 1] == rows[..i] + [rows[i]];
        ps := ps + [p.value];
      }
      assert rows[..|rows|] == rows;
      RowsErrorFirst(rows);
      return Ok(ps);
    }

    /** One row of `BuildAll`: a new poller that extends `BuiltFrom` by that row. */
    method BuildNext(ps: seq<Poller>, rows: seq<Props>, row: Props) returns (r: Result<Poller>)
      requires BuiltFrom(ps, rows)
      modifies swis`log
      ensures swis.log == old(swis.log)
      ensures r.Err? <==> RowError(row).Some?
      ensures r.Err? ==> r.error == RowError(row).value
      ensures r.Ok? ==> fresh(r.value) && fresh(r.value.entity) && BuiltFrom(ps + [r.value], rows + [row])
    {
      r := PollerFromRow(swis, nodeId, row);
      if r.Ok? {
        BuiltAppend(ps, rows, r.value, row);
      }
    }

    /** A poller built from one more row, on an entity not listed, extends `BuiltFrom` by it. */
    lemma BuiltAppend(ps: seq<Poller>, rows: seq<Props>, p: Poller, row: Props)
      requires BuiltFrom(ps, rows) && RowError(row).None? && FromRow(p, swis, nodeId, row)
      requires forall j :: 0 <= j < |ps| ==> ps[j].entity != p.entity
      ensures BuiltFrom(ps + [p], rows + [row])
    {
      var qs := ps + [p];
      assert forall j :: 0 <= j < |ps| ==> qs[j] == ps[j];
    }

    /**
     * `delete_all`: a fetch, then one delete call for every poller
     * listed, and an empty list. When the query returns nothing the
     * pollers listed before are the ones deleted.
     */
    method DeleteAll() returns (r: Result<()>)
      requires Valid()
      modifies this`items, swis`log
      ensures Valid()
      ensures var rows := swis.RowsFor(NodeQuery(nodeId));
        var gone := if rows == [] then old(UrisOf(items)) else RowUris(rows);
        && (r.Err? ==> items == old(items) && swis.log == old(swis.log) + [QueryCall(NodeQuery(nodeId))])
        && (r.Ok? ==> items == [] && swis.log == old(swis.log) + [QueryCall(NodeQuery(nodeId))] + (if gone == [] then [] else [DeleteCall(gone)]))
    {
      ghost var oldUris := UrisOf(items);
      r := Fetch();
      if r.Err? {
        return;
      }
      ghost var rows := swis.RowsFor(NodeQuery(nodeId));
      if rows != [] {
        BuiltUris(items, rows);
      } else {
        assert UrisOf(items) == oldUris;
      }
      assert |UrisOf(items)| == |items|;
      DeleteListed();
    }

    /** The pollers built from rows have the rows' URIs. */
    lemma BuiltUris(ps: seq<Poller>, rows: seq<Props>)
      requires BuiltFrom(ps, rows)
      ensures UrisOf(ps) == RowUris(rows)
    {
      forall i | 0 <= i < |ps| ensures UrisOf(ps)[i] == RowUris(rows)[i] {
        assert FromRow(ps[i], swis, nodeId, rows[i]);
      }
    }

    /** One delete call for the URIs of every poller listed, none when there is none, and an empty list. */
    method DeleteListed()
      requires Valid()
      modifies this`items, swis`log
      ensures Valid() && items == []
      ensures swis.log == old(swis.log) + (if old(items) == [] then [] else [DeleteCall(old(UrisOf(items)))])
    {
      if items != [] {
        swis.Delete(UrisOf(items));
        items := [];
      }
    }

    /**
     * `delete(poller)`: the poller named (a text through `[...]`; a
     * position has no `delete`) is deleted and leaves the list.
     */
    method Delete(key: BaseLists.Key<Poller>) returns (r: Result<()>)
      requires Valid()
      requires key.Item? ==> key.x.entity.swis == swis
      modifies this`items, swis`log
      ensures Valid()
      ensures var t := Target(old(items), key);
        && (t.Err? ==> r == Err(t.error) && items == old(items) && swis.log == old(swis.log))
        && (t.Ok? ==> r == Ok(())
                      && swis.log == old(swis.log) + [DeleteCall([t.value.entity.uri])]
                      && items == (if t.value in old(items) then Lists.RemoveFirst(old(items), t.value) else old(items))
                      && t.value !in items)
    {
      var t := Target(items, key);
      if t.Err? {
        return Err(t.error);
      }
      t.value.Delete(this);
      return Ok(());
    }

    /**
     * `delete(poller)` as written: a text through `[...]` answers the text,
     * which has no `delete`, so only a poller passed in is deleted.
     */
    method DeleteAsWritten(key: BaseLists.Key<Poller>) returns (r: Result<()>)
      requires Valid()
      requires key.Item? ==> key.x.entity.swis == swis
      modifies this`items, swis`log
      ensures Valid()
      ensures var t := TargetAsWritten(old(items), key);
        && (t.Err? ==> r == Err(t.error) && items == old(items) && swis.log == old(swis.log))
        && (t.Ok? ==> r == Ok(())
                      && swis.log == old(swis.log) + [DeleteCall([t.value.entity.uri])]
                      && items == (if t.value in old(items) then Lists.RemoveFirst(old(items), t.value) else old(items))
                      && t.value !in items)
    {
      var t := TargetAsWritten(items, key);
      if t.Err? {
        return Err(t.error);
      }
      r := Delete(key);
    }

    /**
     * `disable(poller)` (`on` false) and `enable(poller)` (`on` true) as
     * evidently meant: the poller named (a text through `[...]`) or passed
     * in is switched as its own `disable` or `enable` does, and None is
     * answered; the list stays as it is.
     */
    method Switch(key: BaseLists.Key<Poller>, on: bool) returns (r: Result<()>)
      requires Valid()
      requires key.Item? ==> key.x.Valid() && key.x.entity.swis == swis
      modifies TargetEntities(items, key)`attrs, TargetEntities(items, key)`data, swis`log
      ensures items == old(items)
      ensures !(key.Item? && key.x.entity in old(EntitiesOf(items))) ==> Valid()
      ensures var t := Target(items, key);
        && (t.Err? ==> r == Err(t.error) && swis.log == old(swis.log))
        && (t.Ok? ==> r == Ok(()) && t.value.Valid()
                      && t.value.Switched(old(t.value.entity.attrs), old(t.value.entity.data), on)
                      && Truthy(t.value.IsEnabled()) == on
                      && swis.log == old(swis.log) +
                         (if Truthy(old(t.value.IsEnabled())) != on then [UpdateCall(t.value.entity.uri, map["Enabled" := Bool(on)])] else []))
    {
      var t := Target(items, key);
      if t.Err? {
        return Err(t.error);
      }
      if key.Text? {
        var k := BaseLists.FirstStop(NamesOf(items), key.s);
        SwitchAt(k, on);
      } else if on {
        key.x.Enable();
      } else {
        key.x.Disable();
      }
      return Ok(());
    }

    /** `disable(poller)` and `enable(poller)` as written: a poller named by text is never switched. */
    method SwitchAsWritten(key: BaseLists.Key<Poller>, on: bool) returns (r: Result<()>)
      requires Valid()
      requires key.Item? ==> key.x.Valid() && key.x.entity.swis == swis
      modifies TargetEntities(items, key)`attrs, TargetEntities(items, key)`data, swis`log
      ensures items == old(items)
      ensures !(key.Item? && key.x.entity in old(EntitiesOf(items))) ==> Valid()
      ensures var t := TargetAsWritten(items, key);
        && (t.Err? ==> r == Err(t.error) && swis.log == old(swis.log))
        && (t.Ok? ==> r == Ok(()) && t.value.Valid()
                      && t.value.Switched(old(t.value.entity.attrs), old(t.value.entity.data), on)
                      && Truthy(t.value.IsEnabled()) == on
                      && swis.log == old(swis.log) +
                         (if Truthy(old(t.value.IsEnabled())) != on then [UpdateCall(t.value.entity.uri, map["Enabled" := Bool(on)])] else []))
    {
      var t := TargetAsWritten(items, key);
      if t.Err? {
        return Err(t.error);
      }
      r := Switch(key, on);
    }

    /** Sets the flag of the `i`th poller to `on` as `enable` or `disable` does. */
    method SwitchAt(i: nat, on: bool)
      requires Valid() && i < |items|
      modifies items[i].entity`attrs, items[i].entity`data, swis`log
      ensures Valid()
      ensures SwitchedFrom(items[i].entity.attrs, items[i].entity.data, old(items[i].entity.attrs), old(items[i].entity.data), on)
      ensures Truthy(Get(items[i].entity.attrs, "is_enabled")) == on
      ensures forall j :: 0 <= j < |items| && j != i ==>
        items[j].entity.attrs == old(items[j].entity.attrs) && items[j].entity.data == old(items[j].entity.data)
      ensures swis.log == old(swis.log) +
        (if Truthy(old(items[i].IsEnabled())) != on then [UpdateCall(items[i].entity.uri, map["Enabled" := Bool(on)])] else [])
    {
      if on {
        items[i].Enable();
      } else {
        items[i].Disable();
      }
    }

    /**
     * The loop of `disable_all` (`on` false) and of `enable_all` as it is
     * meant (`on` true): every poller whose flag's truth is not `on` is
     * switched and saved.
     */
    method SwitchAll(on: bool)
      requires Valid()
      modifies EntitiesOf(items)`attrs, EntitiesOf(items)`data, swis`log
      ensures Valid() && SwitchedUpTo(old(AttrsOf(items)), old(DataOf(items)), on, |items|)
      ensures swis.log == old(swis.log) + SwitchCalls(old(FlagsOf(items)), old(UrisOf(items)), on)
    {
      ghost var flags := FlagsOf(items);
      ghost var uris := UrisOf(items);
      ghost var attrs0 := AttrsOf(items);
      ghost var data0 := DataOf(items);
      for i := 0 to |items|
        invariant Valid() && Switching(attrs0, data0, flags, uris, old(swis.log), on, i)
      {
        SwitchStep(i, on, attrs0, data0, flags, uris, old(swis.log));
      }
      assert flags[..|items|] == flags && uris[..|items|] == uris;
    }

    /**
     * The first `i` pollers are switched from their attributes and records
     * `attrs0`, `data0`, and their flags' truth is `on`; the others are as
     * they were.
     */
    predicate SwitchedUpTo(attrs0: seq<Props>, data0: seq<Props>, on: bool, i: nat)
      reads this, EntitiesOf(items)
    {
      SwitchedSeq(AttrsOf(items), DataOf(items), attrs0, data0, on, i)
    }

    /**
     * The loop state of `SwitchAll` after `i` pollers: `SwitchState` of
     * the list's snapshots and its client's log.
     */
    predicate Switching(attrs0: seq<Props>, data0: seq<Props>, flags: seq<bool>, uris: seq<string>,
                        log0: seq<Call>, on: bool, i: nat)
      reads this, EntitiesOf(items), swis
    {
      SwitchState(AttrsOf(items), DataOf(items), UrisOf(items), swis.log, attrs0, data0, flags, uris, log0, on, i)
    }

    /** One pass of the loop of `SwitchAll`: the `i`th poller is switched when its flag's truth is not `on`. */
    method SwitchStep(i: nat, on: bool, ghost attrs0: seq<Props>, ghost data0: seq<Props>,
                      ghost flags: seq<bool>, ghost uris: seq<string>, ghost log0: seq<Call>)
      requires Valid() && i < |items| && Switching(attrs0, data0, flags, uris, log0, on, i)
      modifies items[i].entity`attrs, items[i].entity`data, swis`log
      ensures Valid() && Switching(attrs0, data0, flags, uris, log0, on, i + 1)
    {
      ghost var attrs := AttrsOf(items);
      ghost var data := DataOf(items);
      ghost var us := UrisOf(items);
      ghost var log := swis.log;
      if Truthy(items[i].IsEnabled()) != on {
        SwitchAt(i, on);
        FrameOne(items, i, attrs, data, us);
        SwitchStateStep(attrs, data, us, log, attrs0, data0, flags, uris, log0, on, i, items[i].entity.attrs, items[i].entity.data);
      } else {
        SwitchStateStep(attrs, data, us, log, attrs0, data0, flags, uris, log0, on, i, attrs[i], data[i]);
        assert attrs[i := attrs[i]] == attrs && data[i := data[i]] == data;
      }
    }

    /** `disable_all`: every poller switched off, so that afterwards none is enabled. */
    method DisableAll()
      requires Valid()
      modifies EntitiesOf(items)`attrs, EntitiesOf(items)`data, swis`log
      ensures Valid() && SwitchedUpTo(old(AttrsOf(items)), old(DataOf(items)), false, |items|)
      ensures forall i :: 0 <= i < |items| ==> !Truthy(items[i].IsEnabled())
      ensures swis.log == old(swis.log) + SwitchCalls(old(FlagsOf(items)), old(UrisOf(items)), false)
    {
      SwitchAll(false);
    }

    /** `enable_all` as it is evidently meant: every poller switched on, so that afterwards all are enabled. */
    method EnableAll()
      requires Valid()
      modifies EntitiesOf(items)`attrs, EntitiesOf(items)`data, swis`log
      ensures Valid() && SwitchedUpTo(old(AttrsOf(items)), old(DataOf(items)), true, |items|)
      ensures forall i :: 0 <= i < |items| ==> Truthy(items[i].IsEnabled())
      ensures swis.log == old(swis.log) + SwitchCalls(old(FlagsOf(items)), old(UrisOf(items)), true)
    {
      SwitchAll(true);
    }

    /**
     * `enable_all` as written: it calls `disable` on every disabled
     * poller, which does nothing, so no poller and no call changes.
     */
    method EnableAllAsWritten()
      requires Valid()
      modifies EntitiesOf(items), swis`log
      ensures Valid()
      ensures forall i :: 0 <= i < |items| ==>
        items[i].entity.attrs == old(items[i].entity.attrs) && items[i].entity.data == old(items[i].entity.data)
      ensures swis.log == old(swis.log)
    {
      for i := 0 to |items|
        invariant Valid()
        invariant forall j :: 0 <= j < |items| ==>
          items[j].entity.attrs == old(items[j].entity.attrs) && items[j].entity.data == old(items[j].entity.data)
        invariant swis.log == old(swis.log)
      {
        if !Truthy(items[i].IsEnabled()) {
          SwitchAt(i, false);
        }
      }
    }
  }
}
