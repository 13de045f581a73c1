/**
 * The `Node` entity of the newest generation
 * (pysolarwinds/entities/orion/nodes.py): how a node is found by caption or
 * IP address, the attribute defaults taken from its record, the payload
 * `save` sends, its `repr`, re-managing, and the status predicates read
 * from the record.
 */
module NodeEntity {
  import opened Wrappers
  import opened PyValue
  import opened Transport
  import opened Text
  import Endpoints
  import Entities
  import Interfaces

  /** `URI_TEMPLATE`. */
  const NodeTemplate := Endpoints.UriTemplate("swis://", "/Orion/Orion.Nodes/NodeID=", "")

  /** `WRITE_ATTR_MAP`, in declaration order. */
  const WriteMap: seq<(string, string)> := [
    ("caption", "Caption"), ("ip_address", "IPAddress"), ("snmp_version", "SNMPVersion"),
    ("snmpv2_ro_community", "Community"), ("snmpv2_rw_community", "RWCommunity"),
    ("polling_method", "ObjectSubType")]

  // ---- _get_data ----

  /** The node query on one column. */
  function ByColumn(column: string, v: Value): Query
  {
    Query("Orion.Nodes", [(column, v)])
  }

  /** The rows of a lookup must hold exactly one node. */
  function UniqueRow(rows: seq<Props>): (r: Result<Props>)
    ensures r.Ok? <==> |rows| == 1
    ensures r.Ok? ==> r.value == rows[0]
    ensures |rows| == 0 ==> r == Err(SWObjectNotFound)
    ensures |rows| > 1 ==> r == Err(SWNonUniqueResultError)
  {
    if |rows| == 0 then Err(SWObjectNotFound)
    else if |rows| > 1 then Err(SWNonUniqueResultError)
    else Ok(rows[0])
  }

  /** The column `_get_data` looks a node up by: the caption when set, else the IP address, else none. */
  function LookupQueries(caption: Value, ipAddress: Value): (qs: seq<Query>)
    ensures |qs| <= 1
    ensures Truthy(caption) ==> qs == [ByColumn("Caption", caption)]
    ensures !Truthy(caption) && Truthy(ipAddress) ==> qs == [ByColumn("IPAddress", ipAddress)]
    ensures qs == [] <==> !Truthy(caption) && !Truthy(ipAddress)
  {
    if Truthy(caption) then [ByColumn("Caption", caption)]
    else if Truthy(ipAddress) then [ByColumn("IPAddress", ipAddress)]
    else []
  }

  /** `_get_data`: the one row of the lookup, or None when there is nothing to look up by. */
  function NodeLookup(swis: Swis, caption: Value, ipAddress: Value): (r: Result<Option<Props>>)
    ensures LookupQueries(caption, ipAddress) == [] ==> r == Ok(None)
    ensures LookupQueries(caption, ipAddress) != [] ==>
      var rows := swis.RowsFor(LookupQueries(caption, ipAddress)[0]);
      && (r.Ok? <==> |rows| == 1)
      && (r.Ok? ==> r.value == Some(rows[0]))
      && (r.Err? ==> r.error == (if |rows| == 0 then SWObjectNotFound else SWNonUniqueResultError))
  {
    var qs := LookupQueries(caption, ipAddress);
    if qs == [] then Ok(None)
    else
      var row := UniqueRow(swis.RowsFor(qs[0]));
      if row.Err? then Err(row.error) else Ok(Some(row.value))
  }

  /** A caption, when set, decides the lookup alone: the IP address is then never consulted. */
  lemma CaptionWins(swis: Swis, caption: Value, ip1: Value, ip2: Value)
    requires Truthy(caption)
    ensures NodeLookup(swis, caption, ip1) == NodeLookup(swis, caption, ip2)
  {
  }

  /** The query of `_get_data` and its outcome. */
  method GetData(swis: Swis, caption: Value, ipAddress: Value) returns (r: Result<Option<Props>>)
    modifies swis`log
    ensures r == NodeLookup(swis, caption, ipAddress)
    ensures swis.log == old(swis.log) + QueryLog(LookupQueries(caption, ipAddress))
  {
    if Truthy(caption) {
      var rows := swis.RunQuery(ByColumn("Caption", caption));
      var row := UniqueRow(rows);
      if row.Err? {
        return Err(row.error);
      }
      return Ok(Some(row.value));
    }
    if Truthy(ipAddress) {
      var rows := swis.RunQuery(ByColumn("IPAddress", ipAddress));
      var row := UniqueRow(rows);
      if row.Err? {
        return Err(row.error);
      }
      return Ok(Some(row.value));
    }
    return Ok(None);
  }

  // ---- __init__: the attribute defaults ----

  /** `data.get("ObjectSubType", "icmp")`, which must be a string for `.lower()`. */
  function SubType(data: Props): Result<string>
  {
    if "ObjectSubType" !in data then Ok("icmp")
    else if data["ObjectSubType"].Str? then Ok(data["ObjectSubType"].s)
    else Err(AttributeError)
  }

  /**
   * The attributes `__init__` sets from the record: the record's caption and
   * address unless falsy (then the arguments), the lower-cased subtype
   * (default "icmp"), version 0 and empty communities by default. The
   * record must name the polling engine (KeyError), and a subtype that is
   * not a string cannot be lower-cased (AttributeError).
   */
  function NodeAttrs(data: Props, caption: Value, ipAddress: Value): (r: Result<Props>)
    ensures r.Err? <==> "EngineID" !in data || SubType(data).Err?
    ensures "EngineID" !in data ==> r == Err(KeyError)
    ensures "EngineID" in data && SubType(data).Err? ==> r == Err(AttributeError)
    ensures r.Ok? ==> r.value.Keys == {"caption", "ip_address", "polling_method", "snmp_version", "snmpv2_ro_community", "snmpv2_rw_community"}
  {
    if "EngineID" !in data then Err(KeyError)
    else if SubType(data).Err? then Err(AttributeError)
    else Ok(map["caption" := Or(GetOr(data, "Caption", Str("")), caption),
                "ip_address" := Or(GetOr(data, "IPAddress", Str("")), ipAddress),
                "polling_method" := Str(Lower(SubType(data).value)),
                "snmp_version" := GetOr(data, "SNMPVersion", Int(0)),
                "snmpv2_ro_community" := GetOr(data, "Community", Str("")),
                "snmpv2_rw_community" := GetOr(data, "RWCommunity", Str(""))])
  }

  /**
   * The defaults: the polling method is the record's subtype lower-cased,
   * "icmp" without one; the version 0 and the communities "" when the
   * record has none; the caption and address come from the arguments
   * only when the record's are falsy.
   */
  lemma NodeAttrsDefaults(data: Props, caption: Value, ipAddress: Value)
    requires NodeAttrs(data, caption, ipAddress).Ok?
    ensures var a := NodeAttrs(data, caption, ipAddress).value;
      && a["polling_method"].Str?
      && (forall i :: 0 <= i < |a["polling_method"].s| ==> !IsUpper(a["polling_method"].s[i]))
      && ("ObjectSubType" !in data ==> a["polling_method"] == Str("icmp"))
      && ("SNMPVersion" !in data ==> a["snmp_version"] == Int(0))
      && ("Community" !in data ==> a["snmpv2_ro_community"] == Str(""))
      && ("RWCommunity" !in data ==> a["snmpv2_rw_community"] == Str(""))
      && (a["caption"] == caption <==> !Truthy(Get(data, "Caption")) || Get(data, "Caption") == caption)
      && (a["ip_address"] == ipAddress <==> !Truthy(Get(data, "IPAddress")) || Get(data, "IPAddress") == ipAddress)
  {
    assert Lower("icmp") == "icmp";
  }

  // ---- save ----

  /**
   * The payload of `save`: the six writable properties, with the polling
   * method upper-cased; it is never empty, so an update is always sent.
   */
  function SavePayload(attrs: Props): (r: Result<Props>)
    ensures r.Err? <==> !Get(attrs, "polling_method").Str?
    ensures r.Err? ==> r.error == AttributeError
    ensures r.Ok? ==> r.value.Keys == {"Caption", "IPAddress", "SNMPVersion", "Community", "RWCommunity", "ObjectSubType"}
    ensures r.Ok? ==> r.value["ObjectSubType"] == Str(Upper(Get(attrs, "polling_method").s))
  {
    var pm := Get(attrs, "polling_method");
    if !pm.Str? then Err(AttributeError)
    else Ok(map["Caption" := Get(attrs, "caption"), "IPAddress" := Get(attrs, "ip_address"),
                "SNMPVersion" := Get(attrs, "snmp_version"), "Community" := Get(attrs, "snmpv2_ro_community"),
                "RWCommunity" := Get(attrs, "snmpv2_rw_community"), "ObjectSubType" := Str(Upper(pm.s))])
  }

  /** Every other payload entry is the attribute `WRITE_ATTR_MAP` maps to it. */
  lemma SavePayloadFollowsWriteMap(attrs: Props)
    requires SavePayload(attrs).Ok?
    ensures forall i :: 0 <= i < |WriteMap| - 1 ==> SavePayload(attrs).value[WriteMap[i].1] == Get(attrs, WriteMap[i].0)
  {
  }

  // ---- __repr__ ----

  /** `__repr__`: by caption when set, else by IP address, else by id. */
  function ReprOf(caption: Value, ipAddress: Value, id: Value): (r: string)
    ensures Truthy(caption) ==> r == "Node(caption='" + StrOf(caption) + "')"
    ensures !Truthy(caption) && Truthy(ipAddress) ==> r == "Node(ip_address='" + StrOf(ipAddress) + "')"
    ensures !Truthy(caption) && !Truthy(ipAddress) ==> r == "Node(id=" + StrOf(id) + ")"
  {
    if Truthy(caption) then "Node(caption='" + StrOf(caption) + "')"
    else if Truthy(ipAddress) then "Node(ip_address='" + StrOf(ipAddress) + "')"
    else "Node(id=" + StrOf(id) + ")"
  }

  /** Cancelling a common prefix and suffix. */
  lemma Cancel(p: string, a: string, b: string, q: string)
    requires p + a + q == p + b + q
    ensures a == b
  {
    assert |a| == |b|;
    assert a == (p + a + q)[|p|..|p| + |a|];
    assert b == (p + b + q)[|p|..|p| + |b|];
  }

  /** Two nodes with captions have the same repr only when the captions are the same. */
  lemma ReprNamesCaption(c1: string, c2: string, ip1: Value, ip2: Value, id1: Value, id2: Value)
    requires c1 != "" && c2 != ""
    requires ReprOf(Str(c1), ip1, id1) == ReprOf(Str(c2), ip2, id2)
    ensures c1 == c2
  {
    Cancel("Node(caption='", c1, c2, "')");
  }

  // ---- status read from the record and the suppression state ----

  /**
   * `agent_port`: `int` of a truthy AgentPort, else None. A text is read
   * as `int` reads it (stripped, signed, underscores between digits); one
   * that is not a number is a ValueError.
   */
  function AgentPort(data: Props): (r: Result<Option<int>>)
    ensures !Truthy(Get(data, "AgentPort")) ==> r == Ok(None)
    ensures Get(data, "AgentPort").Int? && Truthy(Get(data, "AgentPort")) ==> r == Ok(Some(Get(data, "AgentPort").i))
    ensures Get(data, "AgentPort").Str? && Truthy(Get(data, "AgentPort")) ==>
      var t := Interfaces.IntOfText(Strip(Get(data, "AgentPort").s));
      (r.Ok? <==> t.Ok?) && (t.Ok? ==> r == Ok(Some(t.value)))
    ensures r.Err? ==> r.error == ValueError
    ensures r.Ok? && r.value.Some? ==> Truthy(Get(data, "AgentPort"))
  {
    var v := Get(data, "AgentPort");
    if !Truthy(v) then Ok(None)
    else match Interfaces.IntOf(v)
      case Ok(i) => Ok(Some(i))
      case Err(e) => Err(e)
  }

  /** `is_cmts`: whether CMTS is "Y"; a record without CMTS is a KeyError. */
  function IsCmts(data: Props): (r: Result<bool>)
    ensures r.Err? <==> "CMTS" !in data
    ensures r.Err? ==> r.error == KeyError
    ensures r.Ok? ==> (r.value <==> data["CMTS"] == Str("Y"))
  {
    if "CMTS" !in data then Err(KeyError) else Ok(data["CMTS"] == Str("Y"))
  }

  /** `alerts_are_suppressed` on the state SWIS reports: SuppressionMode 1. */
  function AlertsAreSuppressed(state: Props): (r: Result<bool>)
    ensures r.Err? <==> "SuppressionMode" !in state
    ensures r.Ok? ==> (r.value <==> EqualsInt(state["SuppressionMode"], 1))
  {
    if "SuppressionMode" !in state then Err(KeyError) else Ok(EqualsInt(state["SuppressionMode"], 1))
  }

  /** `alerts_will_be_suppressed`: SuppressionMode 3. */
  function AlertsWillBeSuppressed(state: Props): (r: Result<bool>)
    ensures r.Err? <==> "SuppressionMode" !in state
    ensures r.Ok? ==> (r.value <==> EqualsInt(state["SuppressionMode"], 3))
  {
    if "SuppressionMode" !in state then Err(KeyError) else Ok(EqualsInt(state["SuppressionMode"], 3))
  }

  /** Alerts are never both suppressed now and scheduled for suppression. */
  lemma SuppressionExclusive(state: Props)
    requires "SuppressionMode" in state
    ensures !(AlertsAreSuppressed(state).value && AlertsWillBeSuppressed(state).value)
  {
  }

  /**
   * The check `suppress_alerts` makes of the state read back: a start must
   * be set, and an end too when one was asked for; a state without the key
   * is a KeyError.
   */
  function SuppressionConfirmed(state: Props, endGiven: bool): (r: Result<bool>)
    ensures r.Ok? ==> r.value
    ensures r.Ok? <==> Truthy(Get(state, "SuppressedFrom")) && (endGiven ==> Truthy(Get(state, "SuppressedUntil")))
    ensures r == Err(KeyError) <==> "SuppressedFrom" !in state || (Truthy(state["SuppressedFrom"]) && endGiven && "SuppressedUntil" !in state)
  {
    if "SuppressedFrom" !in state then Err(KeyError)
    else if !Truthy(state["SuppressedFrom"]) then Err(SWAlertSuppressionError)
    else if endGiven && "SuppressedUntil" !in state then Err(KeyError)
    else if endGiven && !Truthy(state["SuppressedUntil"]) then Err(SWAlertSuppressionError)
    else Ok(true)
  }

  /** The `N:<id>` net object a node's verbs name. */
  function NetObject(id: Value): string
  {
    "N:" + StrOf(id)
  }

  /** A node: an `Entity` with the node's template and write map, and the node's own operations. */
  class Node {
    const entity: Entities.Entity

    constructor (entity: Entities.Entity)
      ensures this.entity == entity
    {
      this.entity := entity;
    }

    /** `__repr__` of this node. */
    function Repr(): string
      reads entity
    {
      ReprOf(Get(entity.attrs, "caption"), Get(entity.attrs, "ip_address"), entity.id)
    }

    /**
     * `save` (without the settings step): the payload is always sent, and
     * the record then takes every mapped attribute, the lower-case polling
     * method included.
     */
    method Save() returns (r: Result<()>)
      modifies entity`data, entity.swis`log
      ensures r.Ok? <==> SavePayload(entity.attrs).Ok?
      ensures r.Err? ==> r.error == AttributeError && entity.data == old(entity.data) && entity.swis.log == old(entity.swis.log)
      ensures r.Ok? ==>
        && entity.data == Entities.WrittenBack(old(entity.data), entity.attrs, entity.writeMap)
        && entity.swis.log == old(entity.swis.log) + [UpdateCall(entity.uri, SavePayload(entity.attrs).value)]
    {
      var payload := SavePayload(entity.attrs);
      if payload.Err? {
        return Err(payload.error);
      }
      r := entity.Save(payload.value);
    }

    /**
     * `remanage`: an unmanaged node is re-managed with one invoke naming
     * `N:<id>` and then read again; a managed one is refused with
     * SWObjectManageError, and a record without UnManaged is a KeyError.
     */
    method Remanage() returns (r: Result<bool>)
      modifies entity`data, entity.swis`log
      ensures "UnManaged" !in old(entity.data) ==> r == Err(KeyError)
      ensures "UnManaged" in old(entity.data) && !Truthy(old(entity.data)["UnManaged"]) ==> r == Err(SWObjectManageError)
      ensures r.Err? ==> entity.data == old(entity.data) && entity.swis.log == old(entity.swis.log)
      ensures r.Ok? ==>
        && "UnManaged" in old(entity.data) && Truthy(old(entity.data)["UnManaged"])
        && r.value
        && entity.data == entity.swis.RecordAt(entity.uri)
        && entity.swis.log == old(entity.swis.log) + [InvokeCall("Orion.Nodes", "Remanage", [Str(NetObject(entity.id))]), ReadCall(entity.uri)]
    {
      if "UnManaged" !in entity.data {
        return Err(KeyError);
      }
      if !Truthy(entity.data["UnManaged"]) {
        return Err(SWObjectManageError);
      }
      var _ := entity.swis.Invoke("Orion.Nodes", "Remanage", [Str(NetObject(entity.id))]);
      entity.Read();
      return Ok(true);
    }

    /**
     * `unmanage`: one invoke naming `N:<id>`, the start (by default
     * `tenMinutesAgo`), the end (by default `nowPlusDuration`) and False,
     * then a read.
     */
    method Unmanage(start: Value, end: Value, tenMinutesAgo: Value, nowPlusDuration: Value) returns (r: bool)
      modifies entity`data, entity.swis`log
      ensures r
      ensures entity.data == entity.swis.RecordAt(entity.uri)
      ensures entity.swis.log == old(entity.swis.log) +
        [InvokeCall("Orion.Nodes", "Unmanage", [Str(NetObject(entity.id)), if Truthy(start) then start else tenMinutesAgo,
                                                if Truthy(end) then end else nowPlusDuration, Bool(false)]),
         ReadCall(entity.uri)]
    {
      var from := if Truthy(start) then start else tenMinutesAgo;
      var until := if Truthy(end) then end else nowPlusDuration;
      var _ := entity.swis.Invoke("Orion.Nodes", "Unmanage", [Str(NetObject(entity.id)), from, until, Bool(false)]);
      entity.Read();
      return true;
    }

    /** `resume_alerts`: one invoke naming the node's URI. */
    method ResumeAlerts() returns (r: bool)
      modifies entity.swis`log
      ensures r
      ensures entity.swis.log == old(entity.swis.log) + [InvokeCall("Orion.AlertSuppression", "ResumeAlerts", [Str(entity.uri)])]
    {
      var _ := entity.swis.Invoke("Orion.AlertSuppression", "ResumeAlerts", [Str(entity.uri)]);
      return true;
    }

    /**
     * `suppress_alerts`: the suppression request (start by default
     * `anHourAgo`, end None when not given), then the state read back with
     * `_get_alert_suppression_state`, the first record the state verb
     * answers (none is an IndexError), which must confirm the request.
     */
    method SuppressAlerts(start: Value, end: Value, anHourAgo: Value) returns (r: Result<bool>)
      modifies entity.swis`log
      ensures var answer := entity.swis.InvokeRecords("GetAlertSuppressionState");
        && (answer == [] ==> r == Err(IndexError))
        && (answer != [] ==> r == SuppressionConfirmed(answer[0], Truthy(end)))
      ensures entity.swis.log == old(entity.swis.log) +
        [InvokeCall("Orion.AlertSuppression", "SuppressAlerts",
                    [Str(entity.uri), if start == Null then anHourAgo else start, if Truthy(end) then end else Null]),
         InvokeCall("Orion.AlertSuppression", "GetAlertSuppressionState", [Str(entity.uri)])]
    {
      var from := if start == Null then anHourAgo else start;
      var until := if Truthy(end) then end else Null;
      var _ := entity.swis.Invoke("Orion.AlertSuppression", "SuppressAlerts", [Str(entity.uri), from, until]);
      var state := SuppressionState();
      if state.Err? {
        return Err(state.error);
      }
      r := SuppressionConfirmed(state.value, Truthy(end));
    }

    /** `_get_alert_suppression_state`: the first record the state verb answers; none is an IndexError. */
    method SuppressionState() returns (r: Result<Props>)
      modifies entity.swis`log
      ensures var answer := entity.swis.InvokeRecords("GetAlertSuppressionState");
        r == (if answer == [] then Err(IndexError) else Ok(answer[0]))
      ensures entity.swis.log == old(entity.swis.log) +
        [InvokeCall("Orion.AlertSuppression", "GetAlertSuppressionState", [Str(entity.uri)])]
    {
      var answer := entity.swis.InvokeForRecords("Orion.AlertSuppression", "GetAlertSuppressionState", [Str(entity.uri)]);
      if |answer| == 0 {
        return Err(IndexError);
      }
      return Ok(answer[0]);
    }
  }

  /** What `_get_data` is asked for: only when neither id, URI nor record is given. */
  function Found(swis: Swis, id: Value, uri: string, data: Props, caption: Value, ipAddress: Value): Result<Option<Props>>
  {
    if !Truthy(id) && uri == "" && |data| == 0 then NodeLookup(swis, caption, ipAddress) else Ok(None)
  }

  /** The URI and record a new node starts from: a lookup failure, or the identity of `Entity.__init__`. */
  function Identified(swis: Swis, id: Value, uri: string, data: Props, caption: Value, ipAddress: Value): (r: Result<(string, Props)>)
  {
    var found := Found(swis, id, uri, data, caption, ipAddress);
    if found.Err? then Err(found.error)
    else Entities.InitialIdentity(swis.host, NodeTemplate, id, uri, data, found.value)
  }

  /**
   * A node given nothing but a caption or address that matches no node, or
   * several, fails with the lookup's error; given nothing at all it fails
   * with ValueError; given a URI it is never looked up and keeps that URI.
   */
  lemma IdentifiedCases(swis: Swis, id: Value, uri: string, data: Props, caption: Value, ipAddress: Value)
    ensures var r := Identified(swis, id, uri, data, caption, ipAddress);
      && (!Truthy(id) && uri == "" && |data| == 0 && !Truthy(caption) && !Truthy(ipAddress) ==> r == Err(ValueError))
      && (!Truthy(id) && uri == "" && |data| == 0 && Truthy(caption) && |swis.RowsFor(ByColumn("Caption", caption))| == 0 ==> r == Err(SWObjectNotFound))
      && (!Truthy(id) && uri == "" && |data| == 0 && Truthy(caption) && |swis.RowsFor(ByColumn("Caption", caption))| > 1 ==> r == Err(SWNonUniqueResultError))
      && (uri != "" ==> r == Ok((uri, data)))
  {
  }

  /** The record an entity ends up with: the identified one, or else the one read from the URI. */
  function RecordOf(swis: Swis, identity: (string, Props)): Props
  {
    if |identity.1| != 0 then identity.1 else swis.RecordAt(identity.0)
  }

  /** `_id`, with a missing NodeID read as None. */
  function NodeIdOf(d: Props): Value
  {
    Get(d, "NodeID")
  }

  /** The `_get_data` step of `Entity.__init__`. */
  method Find(swis: Swis, id: Value, uri: string, data: Props, caption: Value, ipAddress: Value) returns (found: Result<Option<Props>>)
    modifies swis`log
    ensures found == Found(swis, id, uri, data, caption, ipAddress)
    ensures found.Err? ==> swis.log == old(swis.log) + QueryLog(LookupQueries(caption, ipAddress))
  {
    found := Ok(None);
    if !Truthy(id) && uri == "" && |data| == 0 {
      found := GetData(swis, caption, ipAddress);
    }
  }

  /** The lookup and identity resolution of `Node(...)`, up to the id read from the record. */
  method Identify(swis: Swis, id: Value, uri: string, data: Props, caption: Value, ipAddress: Value) returns (r: Result<Entities.Entity>)
    modifies swis`log
    ensures var u := Identified(swis, id, uri, data, caption, ipAddress);
      && (u.Err? ==> r == Err(u.error))
      && (r.Ok? ==>
            && u.Ok? && (Truthy(id) || "NodeID" in RecordOf(swis, u.value))
            && fresh(r.value)
            && r.value.swis == swis && r.value.template == NodeTemplate && r.value.writeMap == WriteMap
            && r.value.uri == u.value.0
            && r.value.data == RecordOf(swis, u.value)
            && r.value.id == (if Truthy(id) then id else RecordOf(swis, u.value)["NodeID"]))
      && (u.Ok? && !Truthy(id) && "NodeID" !in RecordOf(swis, u.value) ==> r == Err(KeyError))
  {
    var found := Find(swis, id, uri, data, caption, ipAddress);
    if found.Err? {
      return Err(found.error);
    }
    ghost var u := Entities.InitialIdentity(swis.host, NodeTemplate, id, uri, data, found.value);
    assert u == Identified(swis, id, uri, data, caption, ipAddress);
    var entity := Entities.Construct(swis, NodeTemplate, WriteMap, id, uri, data,
                                     map["caption" := caption, "ip_address" := ipAddress], found.value, NodeIdOf);
    if entity.Err? {
      return Err(entity.error);
    }
    if !Truthy(id) && "NodeID" !in entity.value.data {
      return Err(KeyError);
    }
    return entity;
  }

  /**
   * `Node(...)` without its child objects: `Identify`, then the attributes
   * set from the record.
   */
  method NewNode(swis: Swis, id: Value, uri: string, data: Props, caption: Value, ipAddress: Value) returns (r: Result<Node>)
    modifies swis`log
    ensures var u := Identified(swis, id, uri, data, caption, ipAddress);
      && (u.Err? ==> r == Err(u.error))
      && (r.Ok? ==>
            && u.Ok? && NodeAttrs(RecordOf(swis, u.value), caption, ipAddress).Ok?
            && fresh(r.value) && fresh(r.value.entity)
            && r.value.entity.uri == u.value.0
            && r.value.entity.data == RecordOf(swis, u.value)
            && r.value.entity.attrs == NodeAttrs(RecordOf(swis, u.value), caption, ipAddress).value)
      && (u.Ok? && "EngineID" !in RecordOf(swis, u.value) ==> r.Err?)
  {
    var entity := Identify(swis, id, uri, data, caption, ipAddress);
    if entity.Err? {
      return Err(entity.error);
    }
    var attrs := NodeAttrs(entity.value.data, caption, ipAddress);
    if attrs.Err? {
      return Err(attrs.error);
    }
    entity.value.attrs := attrs.value;
    var node := new Node(entity.value);
    return Ok(node);
  }
}
