/**
 * The node endpoint of the first generation
 * (solarwinds/endpoints/orion/node.py): the polling method, SNMP version
 * and pollers a node is given when they are not passed in, the patch it is
 * created with, and the unmanage, remanage and poller-enabling calls.
 */
module LegacyNode {
  import opened Wrappers
  import opened PyValue
  import opened Transport
  import opened LegacyEndpoints
  import Text
  import Utils

  /** `NODE_DEFAULT_POLLERS["icmp"]`. */
  const IcmpPollers: seq<string> := ["N.Status.ICMP.Native", "N.ResponseTime.ICMP.Native"]

  /** `NODE_DEFAULT_POLLERS["snmp"]`. */
  const SnmpPollers: seq<string> := [
    "N.Status.ICMP.Native", "N.ResponseTime.ICMP.Native", "N.AssetInventory.Snmp.Generic",
    "N.Cpu.SNMP.HrProcessorLoad", "N.Details.SNMP.Generic", "N.Memory.SNMP.NetSnmpReal",
    "N.ResponseTime.SNMP.Native", "N.Routing.SNMP.Ipv4CidrRoutingTable",
    "N.Topology_Layer3.SNMP.ipNetToMedia", "N.Uptime.SNMP.Generic"]

  /** The keys of `NODE_DEFAULT_POLLERS`. */
  predicate HasDefaultPollers(m: Value)
  {
    m == Str("icmp") || m == Str("snmp")
  }

  /** `NODE_DEFAULT_POLLERS[m]`. */
  function DefaultPollersFor(m: Value): seq<string>
    requires HasDefaultPollers(m)
  {
    if m == Str("icmp") then IcmpPollers else SnmpPollers
  }

  // ---- inference ----

  /** `_get_polling_method`: SNMP exactly when either community is not None. */
  function PollingMethod(community: Value, rwCommunity: Value): (m: string)
    ensures m == "snmp" <==> community != Null || rwCommunity != Null
    ensures m == "snmp" || m == "icmp"
  {
    if community != Null || rwCommunity != Null then "snmp" else "icmp"
  }

  /** `_get_snmp_version`: version 2 exactly when either community is not None, else 0. */
  function SnmpVersion(community: Value, rwCommunity: Value): (v: int)
    ensures v == 2 <==> community != Null || rwCommunity != Null
    ensures v == 2 || v == 0
  {
    if community != Null || rwCommunity != Null then 2 else 0
  }

  /** The inferred method and version always agree: SNMP goes with version 2, ICMP with 0. */
  lemma MethodMatchesVersion(community: Value, rwCommunity: Value)
    ensures PollingMethod(community, rwCommunity) == "snmp" <==> SnmpVersion(community, rwCommunity) == 2
    ensures PollingMethod(community, rwCommunity) == "icmp" <==> SnmpVersion(community, rwCommunity) == 0
  {
  }

  /** The polling settings `__init__` fixes. */
  datatype Settings = Settings(pollingMethod: string, pollers: seq<string>, snmpVersion: Value)

  /**
   * The settings of `__init__`, or what it raises, in order: each of
   * method, pollers and version is the argument when truthy and computed
   * otherwise (a list of pollers that is None or empty is falsy); a method
   * without default pollers is a KeyError, a method that is not a string
   * an AttributeError at `.upper()`, and a node with neither IP nor
   * caption an SWObjectPropertyError.
   */
  function InitSettings(caption: Value, community: Value, ipAddress: Value, pollers: seq<string>,
                        pollingMethod: Value, rwCommunity: Value, snmpVersion: Value): (r: Result<Settings>)
    ensures ipAddress == Null && caption == Null ==> r.Err?
    ensures r.Ok? ==> Truthy(pollingMethod) ==> Str(r.value.pollingMethod) == pollingMethod
    ensures r.Ok? ==> Truthy(snmpVersion) ==> r.value.snmpVersion == snmpVersion
    ensures r.Ok? ==> pollers != [] ==> r.value.pollers == pollers
  {
    var m := Or(pollingMethod, Str(PollingMethod(community, rwCommunity)));
    if pollers == [] && !HasDefaultPollers(m) then Err(KeyError)
    else if !m.Str? then Err(AttributeError)
    else if ipAddress == Null && caption == Null then Err(SWObjectPropertyError)
    else
      Ok(Settings(m.s, if pollers != [] then pollers else DefaultPollersFor(m),
                  Or(snmpVersion, Int(SnmpVersion(community, rwCommunity)))))
  }

  /**
   * Without explicit settings a node with a community is polled over
   * SNMP version 2 with the ten SNMP pollers, and one without over ICMP,
   * version 0, with the two ICMP pollers.
   */
  lemma InferredSettings(caption: Value, community: Value, ipAddress: Value, rwCommunity: Value)
    requires ipAddress != Null || caption != Null
    ensures var r := InitSettings(caption, community, ipAddress, [], Null, rwCommunity, Null);
      && r.Ok?
      && (community != Null || rwCommunity != Null ==> r.value == Settings("snmp", SnmpPollers, Int(2)))
      && (community == Null && rwCommunity == Null ==> r.value == Settings("icmp", IcmpPollers, Int(0)))
      && |r.value.pollers| == (if community != Null || rwCommunity != Null then 10 else 2)
  {
  }

  /** A method given in capitals has no default pollers: without explicit pollers the node is refused. */
  lemma CapitalMethodNeedsPollers(caption: Value, community: Value, ipAddress: Value, rwCommunity: Value, snmpVersion: Value)
    ensures InitSettings(caption, community, ipAddress, [], Str("SNMP"), rwCommunity, snmpVersion) == Err(KeyError)
  {
    assert Str("SNMP") != Str("snmp");
  }

  /** The attributes of a node that the endpoint base class reads by name. */
  function NodeAttrs(caption: Value, community: Value, engineId: Value, ipAddress: Value, nodeId: Value,
                     rwCommunity: Value, s: Settings): Props
  {
    map["caption" := caption, "community" := community, "engine_id" := engineId, "ip_address" := ipAddress,
        "node_id" := nodeId, "rw_community" := rwCommunity, "polling_method" := Str(s.pollingMethod),
        "snmp_version" := s.snmpVersion]
  }

  // ---- the class-level settings ----

  /** `_get_attr_updates`, which the node does not override. */
  function NoAttrUpdates(swp: Props): Props
  {
    map[]
  }

  /** `_get_extra_swargs` of the base class, which the node does not override. */
  function NoExtraSwargs(attrs: Props): Props
  {
    map[]
  }

  /** The `_extra_swargs` the node builds: status 1 and the polling method in capitals. */
  function NodeExtraSwargs(attrs: Props): (r: Props)
    ensures Get(r, "status") == Int(1)
    ensures Get(attrs, "polling_method").Str? ==> Get(r, "objectsubtype") == Str(Text.Upper(Get(attrs, "polling_method").s))
  {
    var pm := Get(attrs, "polling_method");
    var status: Props := map["status" := Int(1)];
    if pm.Str? then status["objectsubtype" := Str(Text.Upper(pm.s))] else status
  }

  const SwargsAttrs: seq<string> := ["caption", "community", "engine_id", "ip_address", "rw_community", "snmp_version"]

  /** The class attributes of `OrionNode` as written: its extra swargs are never consulted. */
  const AsWrittenConfig: Config :=
    Config("Orion.Nodes", "NodeID", "node_id", ["ip_address", "caption"], SwargsAttrs,
           ["ip_address", "engine_id"], NoAttrUpdates, NoExtraSwargs)

  /** The class attributes with the extra swargs put in the patch. */
  const NodeConfig: Config := AsWrittenConfig.(extraSwargs := NodeExtraSwargs)

  /** Dropping underscores never lengthens a name. */
  lemma {:induction false} UnscoredShorter(name: string)
    ensures |Utils.Unscored(name)| <= |name|
  {
    if name != [] {
      UnscoredShorter(name[1..]);
    }
  }

  /** A name that starts with a letter keeps it in front. */
  lemma UnscoredHead(name: string)
    requires name != [] && name[0] != '_'
    ensures Utils.Unscored(name) == [name[0]] + Utils.Unscored(name[1..])
  {
  }

  /** No attribute name becomes "objectsubtype": they are all shorter. */
  lemma SwargsNamesShort()
    ensures forall i :: 0 <= i < |SwargsAttrs| ==> Utils.Unscored(SwargsAttrs[i]) != "objectsubtype"
  {
    forall i | 0 <= i < |SwargsAttrs|
      ensures Utils.Unscored(SwargsAttrs[i]) != "objectsubtype"
    {
      UnscoredShorter(SwargsAttrs[i]);
      assert |SwargsAttrs[i]| <= 12;
    }
  }

  /** No attribute name becomes "status": their first two letters differ from it. */
  lemma SwargsNamesNotStatus()
    ensures forall i :: 0 <= i < |SwargsAttrs| ==> Utils.Unscored(SwargsAttrs[i]) != "status"
  {
    forall i | 0 <= i < |SwargsAttrs|
      ensures Utils.Unscored(SwargsAttrs[i]) != "status"
    {
      NameAvoidsStatus(SwargsAttrs[i]);
    }
  }

  /** A name whose first two letters are not those of "status" does not become it. */
  lemma NameAvoidsStatus(k: string)
    requires |k| > 1 && k[0] != '_' && k[1] != '_' && (k[0] != 's' || k[1] != 't')
    ensures Utils.Unscored(k) != "status"
  {
    var u := Utils.Unscored(k);
    UnscoredHead(k);
    UnscoredHead(k[1..]);
    assert u[0] == k[0] && u[1] == k[1];
    assert "status"[0] == 's' && "status"[1] == 't';
  }

  /** As written, the patch a node is created with has no status and no subtype. */
  lemma ExtraSwargsUnused(attrs: Props, hasCustomProperties: bool, customProperties: Option<Props>)
    ensures var b := BuiltSwargs(attrs, AsWrittenConfig.swargsAttrs, AsWrittenConfig.extraSwargs(attrs), hasCustomProperties, customProperties);
      b.properties.Some? ==> "status" !in b.properties.value && "objectsubtype" !in b.properties.value
  {
    var keys := AsWrittenConfig.swargsAttrs;
    SwargsPropertiesKeys(attrs, keys);
    SwargsNamesShort();
    SwargsNamesNotStatus();
    var p := Update(SwargsProperties(attrs, keys), map[]);
    assert p.Keys == SwargsProperties(attrs, keys).Keys;
  }

  /** With the extra swargs in place, the patch of a node carries status 1 and its polling method in capitals as the subtype. */
  lemma PatchCarriesSettings(caption: Value, community: Value, engineId: Value, ipAddress: Value, nodeId: Value,
                             rwCommunity: Value, s: Settings, customProperties: Option<Props>)
    ensures var attrs := NodeAttrs(caption, community, engineId, ipAddress, nodeId, rwCommunity, s);
      var b := BuiltSwargs(attrs, NodeConfig.swargsAttrs, NodeConfig.extraSwargs(attrs), true, customProperties);
      && b.properties.Some?
      && Get(b.properties.value, "status") == Int(1)
      && Get(b.properties.value, "objectsubtype") == Str(Text.Upper(s.pollingMethod))
  {
    var attrs := NodeAttrs(caption, community, engineId, ipAddress, nodeId, rwCommunity, s);
    var extra := NodeExtraSwargs(attrs);
    assert Get(attrs, "polling_method") == Str(s.pollingMethod);
    assert "status" in extra && "objectsubtype" in extra;
    var p := Update(SwargsProperties(attrs, NodeConfig.swargsAttrs), extra);
    assert "status" in p;
  }

  // ---- unmanage ----

  /**
   * The unmanage window as written: a missing start is an hour before now
   * and a missing end a day after, but `now` is only bound when the start
   * is missing, so a start without an end fails.
   */
  function UnmanageWindowAsWritten(start: Value, end: Value, hourAgo: Value, dayAhead: Value): (r: Result<(Value, Value)>)
  {
    if start == Null then Ok((hourAgo, if end == Null then dayAhead else end))
    else if end == Null then Err(UnboundLocalError)
    else Ok((start, end))
  }

  /** The unmanage window: each bound defaults on its own. */
  function UnmanageWindow(start: Value, end: Value, hourAgo: Value, dayAhead: Value): (Value, Value)
  {
    (if start == Null then hourAgo else start, if end == Null then dayAhead else end)
  }

  /** The window as written fails exactly for a start without an end, and agrees with the intended one otherwise. */
  lemma WindowAsWrittenFails(start: Value, end: Value, hourAgo: Value, dayAhead: Value)
    ensures UnmanageWindowAsWritten(start, end, hourAgo, dayAhead).Err? <==> start != Null && end == Null
    ensures UnmanageWindowAsWritten(start, end, hourAgo, dayAhead).Ok? ==>
      UnmanageWindowAsWritten(start, end, hourAgo, dayAhead).value == UnmanageWindow(start, end, hourAgo, dayAhead)
  {
  }

  /** A given start with no end: the window as written raises, the intended one ends a day from now. */
  lemma StartWithoutEnd(start: Value, hourAgo: Value, dayAhead: Value)
    requires start != Null
    ensures UnmanageWindowAsWritten(start, Null, hourAgo, dayAhead) == Err(UnboundLocalError)
    ensures UnmanageWindow(start, Null, hourAgo, dayAhead) == (start, dayAhead)
  {
  }

  /** `_swdata["properties"]["UnManaged"]`: subscripting a missing part fails, a missing key is a KeyError. */
  function ManagedFlag(swdata: Option<SwData>): (r: Result<Value>)
    ensures r.Ok? <==> swdata.Some? && swdata.value.properties.Some? && "UnManaged" in swdata.value.properties.value
    ensures r.Ok? ==> r.value == swdata.value.properties.value["UnManaged"]
  {
    if swdata.None? || swdata.value.properties.None? then Err(TypeError)
    else if "UnManaged" !in swdata.value.properties.value then Err(KeyError)
    else Ok(swdata.value.properties.value["UnManaged"])
  }

  /** The SWIS net object name of a node. */
  function NetObject(id: Value): string
  {
    "N:" + StrOf(id)
  }

  // ---- enable_pollers ----

  /** The properties of one poller `enable_pollers` creates. */
  function PollerPayload(pollerType: string, nodeId: Value): Props
  {
    map["PollerType" := Str(pollerType), "NetObject" := Str(NetObject(nodeId)), "NetObjectType" := Str("N"),
        "NetObjectID" := nodeId, "Enabled" := Bool(true)]
  }

  /** The creates `enable_pollers` sends, one per poller type, in order. */
  function PollerCreates(pollerTypes: seq<string>, nodeId: Value): (w: seq<Call>)
    ensures |w| == |pollerTypes|
  {
    if pollerTypes == [] then [] else
      PollerCreates(pollerTypes[..|pollerTypes| - 1], nodeId)
      + [CreateCall("Orion.Pollers", PollerPayload(pollerTypes[|pollerTypes| - 1], nodeId))]
  }

  /** The poller creates in order. */
  lemma {:induction false} PollerCreatesAt(pollerTypes: seq<string>, nodeId: Value, i: nat)
    requires i < |pollerTypes|
    ensures PollerCreates(pollerTypes, nodeId)[i] == CreateCall("Orion.Pollers", PollerPayload(pollerTypes[i], nodeId))
    decreases |pollerTypes|
  {
    var init := pollerTypes[..|pollerTypes| - 1];
    if i < |init| {
      PollerCreatesAt(init, nodeId, i);
      assert init[i] == pollerTypes[i];
    }
  }

  /** Every poller create is a write. */
  lemma {:induction false} PollerCreatesWrite(pollerTypes: seq<string>, nodeId: Value)
    ensures Writes(PollerCreates(pollerTypes, nodeId)) == PollerCreates(pollerTypes, nodeId)
    decreases |pollerTypes|
  {
    if pollerTypes != [] {
      var init := pollerTypes[..|pollerTypes| - 1];
      var c := CreateCall("Orion.Pollers", PollerPayload(pollerTypes[|pollerTypes| - 1], nodeId));
      PollerCreatesWrite(init, nodeId);
      WritesAppend(PollerCreates(init, nodeId), [c]);
      assert [c][1..] == [];
    }
  }

  /** Each poller created is an enabled Orion.Pollers entry of the given type bound to the node. */
  lemma EnablesEveryPoller(pollerTypes: seq<string>, nodeId: Value, i: nat)
    requires i < |pollerTypes|
    ensures var c := PollerCreates(pollerTypes, nodeId)[i];
      && c.CreateCall? && c.entity == "Orion.Pollers"
      && Get(c.props, "PollerType") == Str(pollerTypes[i])
      && Get(c.props, "Enabled") == Bool(true)
      && Get(c.props, "NetObjectType") == Str("N")
      && Get(c.props, "NetObject") == Str("N:" + StrOf(nodeId))
      && Get(c.props, "NetObjectID") == nodeId
  {
    PollerCreatesAt(pollerTypes, nodeId, i);
    assert |"PollerType"| == 10 && |"NetObject"| == 9 && |"NetObjectType"| == 13;
    assert |"NetObjectID"| == 11 && |"Enabled"| == 7;
  }

  lemma PollerCreatesSent(past: seq<Call>, pollerTypes: seq<string>, nodeId: Value)
    ensures SentSince(past, past + PollerCreates(pollerTypes, nodeId), PollerCreates(pollerTypes, nodeId))
  {
    var w := PollerCreates(pollerTypes, nodeId);
    assert (past + w)[..|past|] == past;
    assert (past + w)[|past|..] == w;
    PollerCreatesWrite(pollerTypes, nodeId);
  }

  /**
   * The node id `enable_pollers` uses as written: `self.node_id or
   * self._get_id()`, where `_get_id` stores the id but returns None.
   */
  function PollerNodeIdAsWritten(nodeId: Value): Value
  {
    Or(nodeId, Null)
  }

  /** The node id intended: the `node_id` attribute, once `_get_id` has filled it in. */
  function PollerNodeId(nodeId: Value, fetched: Value): Value
  {
    Or(nodeId, fetched)
  }

  /** A node id of 0 that `_get_id` confirms: as written the pollers are bound to "N:None". */
  lemma ForgottenNodeId()
    ensures PollerPayload("N.Status.ICMP.Native", PollerNodeIdAsWritten(Int(0)))["NetObject"] == Str("N:None")
    ensures PollerPayload("N.Status.ICMP.Native", PollerNodeId(Int(0), Int(0)))["NetObject"] == Str("N:0")
  {
    assert Text.IntText(0) == "0";
  }

  /** A node endpoint: the endpoint state of the base class and the pollers to enable. */
  class OrionNode {
    const endpoint: LegacyEndpoint
    const pollers: seq<string>

    constructor (endpoint: LegacyEndpoint, pollers: seq<string>)
      ensures this.endpoint == endpoint && this.pollers == pollers
    {
      this.endpoint := endpoint;
      this.pollers := pollers;
    }

    /**
     * `unmanage`: for an existing node whose cached properties say it is
     * managed, one Unmanage invoke over the window; False when it does
     * not exist or is already unmanaged. The window is the intended
     * `UnmanageWindow`; as written a start without an end raises first
     * (`UnmanageWindowAsWritten`).
     */
    method Unmanage(start: Value, end: Value, hourAgo: Value, dayAhead: Value) returns (r: Result<bool>)
      modifies endpoint`uri, endpoint`present, endpoint`swdata, endpoint.swis`log
      ensures var w := UnmanageWindow(start, end, hourAgo, dayAhead);
        r == Ok(true) ==> SentSince(old(endpoint.swis.log), endpoint.swis.log,
          [InvokeCall("Orion.Nodes", "Unmanage", [Str(NetObject(Get(endpoint.attrs, "node_id"))), w.0, w.1, Bool(false)])])
      ensures r != Ok(true) ==> SentSince(old(endpoint.swis.log), endpoint.swis.log, [])
      ensures r.Ok? ==> (r.value <==> endpoint.present && ManagedFlag(endpoint.swdata) == Ok(Bool(false)))
      ensures var l := UriLookup(endpoint.config, endpoint.swis, endpoint.attrs, old(endpoint.uri), false);
        r.Err? ==> (l.result.Err? && r.error == l.result.error) || ManagedFlag(endpoint.swdata) == Err(r.error)
    {
      var w := UnmanageWindow(start, end, hourAgo, dayAhead);
      var e := endpoint.Exists(false);
      if e.Err? {
        return Err(e.error);
      }
      if !e.value {
        return Ok(false);
      }
      ghost var log1 := endpoint.swis.log;
      var g := endpoint.GetSwData(false, PropertiesPart);
      assert g.Ok?;
      SentSinceTrans(old(endpoint.swis.log), log1, endpoint.swis.log, [], []);
      var flag := ManagedFlag(endpoint.swdata);
      if flag.Err? {
        return Err(flag.error);
      }
      if flag.value != Bool(false) {
        return Ok(false);
      }
      ghost var log2 := endpoint.swis.log;
      var c := InvokeCall("Orion.Nodes", "Unmanage", [Str(NetObject(Get(endpoint.attrs, "node_id"))), w.0, w.1, Bool(false)]);
      var _ := endpoint.swis.Invoke(c.entity, c.verb, c.args);
      SentWrite(log2, c);
      SentSinceTrans(old(endpoint.swis.log), log2, endpoint.swis.log, [], [c]);
      return Ok(true);
    }

    /**
     * `remanage`: for an existing node whose cached properties say it is
     * unmanaged, one Remanage invoke; False when it is managed, and None
     * when it does not exist.
     */
    method Remanage() returns (r: Result<Option<bool>>)
      modifies endpoint`uri, endpoint`present, endpoint`swdata, endpoint.swis`log
      ensures r == Ok(Some(true)) ==> SentSince(old(endpoint.swis.log), endpoint.swis.log,
          [InvokeCall("Orion.Nodes", "Remanage", [Str(NetObject(Get(endpoint.attrs, "id")))])])
      ensures r != Ok(Some(true)) ==> SentSince(old(endpoint.swis.log), endpoint.swis.log, [])
      ensures r.Ok? ==> (r.value.None? <==> !endpoint.present)
      ensures r.Ok? && r.value.Some? ==> (r.value.value <==> ManagedFlag(endpoint.swdata) == Ok(Bool(true)))
      ensures var l := UriLookup(endpoint.config, endpoint.swis, endpoint.attrs, old(endpoint.uri), false);
        r.Err? ==> (l.result.Err? && r.error == l.result.error) || ManagedFlag(endpoint.swdata) == Err(r.error)
    {
      var e := endpoint.Exists(false);
      if e.Err? {
        return Err(e.error);
      }
      if !e.value {
        return Ok(None);
      }
      ghost var log1 := endpoint.swis.log;
      var g := endpoint.GetSwData(false, PropertiesPart);
      assert g.Ok?;
      SentSinceTrans(old(endpoint.swis.log), log1, endpoint.swis.log, [], []);
      var flag := ManagedFlag(endpoint.swdata);
      if flag.Err? {
        return Err(flag.error);
      }
      if flag.value != Bool(true) {
        return Ok(Some(false));
      }
      ghost var log2 := endpoint.swis.log;
      var c := InvokeCall("Orion.Nodes", "Remanage", [Str(NetObject(Get(endpoint.attrs, "id")))]);
      var _ := endpoint.swis.Invoke(c.entity, c.verb, c.args);
      SentWrite(log2, c);
      SentSinceTrans(old(endpoint.swis.log), log2, endpoint.swis.log, [], [c]);
      return Ok(Some(true));
    }

    /**
     * `enable_pollers`: one enabled poller created per poller type, bound
     * to the node id, which `_get_id` fills in when it is not set. The id
     * bound is the intended `PollerNodeId`; as written a falsy id stays
     * "None" (`PollerNodeIdAsWritten`).
     */
    method EnablePollers() returns (r: Result<bool>)
      modifies endpoint`attrs, endpoint.swis`log
      ensures Truthy(Get(old(endpoint.attrs), "node_id")) ==> endpoint.attrs == old(endpoint.attrs)
      ensures r.Ok? ==> r.value && SentSince(old(endpoint.swis.log), endpoint.swis.log, PollerCreates(pollers, Get(endpoint.attrs, "node_id")))
      ensures r.Err? ==> endpoint.swis.log == old(endpoint.swis.log)
    {
      var nodeId := Get(endpoint.attrs, "node_id");
      if !Truthy(nodeId) {
        var i := endpoint.GetId();
        if i.Err? {
          return Err(i.error);
        }
        nodeId := PollerNodeId(nodeId, Get(endpoint.attrs, "node_id"));
      }
      assert nodeId == Get(endpoint.attrs, "node_id");
      var swis := endpoint.swis;
      ghost var log0 := swis.log;
      assert log0 == old(endpoint.swis.log);
      ghost var attrs0 := endpoint.attrs;
      for k := 0 to |pollers|
        invariant swis.log == log0 + PollerCreates(pollers[..k], nodeId)
        invariant endpoint.attrs == attrs0
      {
        assert pollers[..k + 1][..k] == pollers[..k];
        var _ := swis.Create("Orion.Pollers", PollerPayload(pollers[k], nodeId));
      }
      assert pollers[..|pollers|] == pollers;
      PollerCreatesSent(log0, pollers, nodeId);
      assert SentSince(old(endpoint.swis.log), endpoint.swis.log, PollerCreates(pollers, nodeId));
      return Ok(true);
    }

    /** `create`: the base class's create, and when it created the node, its pollers enabled. */
    method Create() returns (r: Result<bool>)
      modifies endpoint`uri, endpoint`present, endpoint`swdata, endpoint`swargs, endpoint`attrs,
               endpoint`customProperties, endpoint`hasCustomProperties, endpoint.swis`log
      ensures r == Ok(false) ==> SentSince(old(endpoint.swis.log), endpoint.swis.log, [])
      ensures r == Ok(true) ==> endpoint.swargs.Some? && endpoint.swargs.value.properties.Some? && SentSince(old(endpoint.swis.log), endpoint.swis.log,
          CreateWrites(endpoint.config, endpoint.swis, endpoint.swargs.value) + PollerCreates(pollers, Get(endpoint.attrs, "node_id")))
      ensures Extends(old(endpoint.swis.log), endpoint.swis.log)
    {
      r := endpoint.Create();
      if r != Ok(true) {
        return;
      }
      ghost var log1 := endpoint.swis.log;
      var p := EnablePollers();
      if p.Err? {
        return Err(p.error);
      }
      SentSinceTrans(old(endpoint.swis.log), log1, endpoint.swis.log,
                     CreateWrites(endpoint.config, endpoint.swis, endpoint.swargs.value),
                     PollerCreates(pollers, Get(endpoint.attrs, "node_id")));
    }
  }

  /**
   * `OrionNode(swis, ...)`: the settings fixed, the attributes stored with
   * custom properties defaulting to {}, and, as the base class's
   * `__init__` does, a refresh when the node already exists.
   */
  method NewOrionNode(swis: Swis, caption: Value, community: Value, customProperties: Option<Props>, engineId: Value,
                      ipAddress: Value, nodeId: Value, pollers: seq<string>, pollingMethod: Value,
                      rwCommunity: Value, snmpVersion: Value) returns (r: Result<OrionNode>)
    modifies swis`log
    ensures var s := InitSettings(caption, community, ipAddress, pollers, pollingMethod, rwCommunity, snmpVersion);
      && (s.Err? ==> r == Err(s.error) && swis.log == old(swis.log))
      && (r.Ok? ==>
            s.Ok? && r.value.pollers == s.value.pollers
            && Initialized(r.value, swis, NodeAttrs(caption, community, engineId, ipAddress, nodeId, rwCommunity, s.value),
                           customProperties.GetOr(map[])))
    ensures SentSince(old(swis.log), swis.log, [])
  {
    SentNothing(swis.log);
    var s := InitSettings(caption, community, ipAddress, pollers, pollingMethod, rwCommunity, snmpVersion);
    if s.Err? {
      return Err(s.error);
    }
    var attrs := NodeAttrs(caption, community, engineId, ipAddress, nodeId, rwCommunity, s.value);
    r := Initialize(swis, attrs, customProperties.GetOr(map[]), s.value.pollers);
  }

  /** What construction leaves: a fresh endpoint with the node's settings, and its own attributes unless it was found. */
  ghost predicate Initialized(node: OrionNode, swis: Swis, attrs: Props, customProperties: Props)
    reads node, node.endpoint
  {
    && node.endpoint.swis == swis && node.endpoint.config == NodeConfig
    && (!node.endpoint.present ==> node.endpoint.attrs == attrs && node.endpoint.customProperties == Some(customProperties))
  }

  /**
   * The base class's `__init__`: a refresh when the node exists, defaults
   * (none for a node) otherwise. The endpoint is given the intended
   * `NodeConfig`, whose extra swargs are sent; as written they never are
   * (`AsWrittenConfig`).
   */
  method Initialize(swis: Swis, attrs: Props, customProperties: Props, pollers: seq<string>) returns (r: Result<OrionNode>)
    modifies swis`log
    ensures SentSince(old(swis.log), swis.log, [])
    ensures r.Ok? ==>
      fresh(r.value) && fresh(r.value.endpoint) && r.value.pollers == pollers
      && Initialized(r.value, swis, attrs, customProperties)
  {
    var ep := new LegacyEndpoint(NodeConfig, swis, attrs, true, Some(customProperties));
    var e := ep.Exists(false);
    if e.Err? {
      return Err(e.error);
    }
    if e.value {
      ghost var log1 := swis.log;
      var f := ep.Refresh();
      SentSinceTrans(old(swis.log), log1, swis.log, [], []);
      if f.Err? {
        return Err(f.error);
      }
    }
    var node := new OrionNode(ep, pollers);
    return Ok(node);
  }
}
