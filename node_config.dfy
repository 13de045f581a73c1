/**
 * The configuration rules of the `Node` endpoint
 * (pysolarwinds/endpoints/orion/node.py): how the polling method and SNMP
 * version are defaulted and inferred, the management status, the property
 * patch a node sends, the credential list and interface-plugin context of a
 * discovery, and which interfaces and volumes a resource import deletes.
 */
module NodeConfig {
  import opened Wrappers
  import opened PyValue
  import opened Text
  import Endpoints

  /** Python's truthiness of an optional string attribute. */
  predicate Given(s: Option<string>)
  {
    s.Some? && s.value != ""
  }

  /** The constructor refuses a node with neither an IP address nor a caption (an empty one will do). */
  function IdentityCheck(ipAddress: Option<string>, caption: Option<string>): (e: Option<Error>)
    ensures e.Some? <==> ipAddress.None? && caption.None?
    ensures e.Some? ==> e.value == SWObjectPropertyError
  {
    if ipAddress.None? && caption.None? then Some(SWObjectPropertyError) else None
  }

  // ---- _set_defaults, _get_polling_method, _get_snmp_version ----

  /** The polling method and SNMP version `_set_defaults` picks when no method is given. */
  function Defaults(ro: Option<string>, rw: Option<string>, v3Ro: bool, v3Rw: bool): (d: (string, int))
    ensures d.0 == "snmp" <==> d.1 != 0
    ensures d.1 == 2 <==> Given(ro) || Given(rw)
    ensures d.1 == 3 <==> !Given(ro) && !Given(rw) && (v3Ro || v3Rw)
    ensures d == ("icmp", 0) <==> !Given(ro) && !Given(rw) && !v3Ro && !v3Rw
  {
    if Given(ro) || Given(rw) then ("snmp", 2)
    else if v3Ro || v3Rw then ("snmp", 3)
    else ("icmp", 0)
  }

  /**
   * `_get_polling_method`: a given method wins; otherwise "snmp" when a
   * community is cached or set, or the version is anything but 0 (None
   * included), else "icmp".
   */
  function PollingMethod(explicit: Option<string>, swp: Props, ro: Option<string>, rw: Option<string>, version: Option<int>): (r: string)
    ensures Given(explicit) ==> r == explicit.value
    ensures !Given(explicit) ==>
      (r == "snmp" <==> Truthy(Get(swp, "Community")) || Given(ro) || Truthy(Get(swp, "RWCommunity")) || Given(rw) || version != Some(0))
    ensures !Given(explicit) ==> r == "snmp" || r == "icmp"
  {
    if Given(explicit) then explicit.value
    else if Truthy(Get(swp, "Community")) || Given(ro) || Truthy(Get(swp, "RWCommunity")) || Given(rw) || version != Some(0) then "snmp"
    else "icmp"
  }

  /** `_get_snmp_version`: a non-zero version wins; else 2 for a community, 3 for an SNMPv3 credential, 0 otherwise. */
  function SnmpVersion(version: Option<int>, ro: Option<string>, rw: Option<string>, v3Ro: bool, v3Rw: bool): (r: int)
    ensures version.Some? && version.value != 0 ==> r == version.value
    ensures (version.None? || version == Some(0)) ==> r == Defaults(ro, rw, v3Ro, v3Rw).1
  {
    if version.Some? && version.value != 0 then version.value
    else if Given(ro) || Given(rw) then 2
    else if v3Ro || v3Rw then 3
    else 0
  }

  /**
   * On a new node (empty cache, no method given) the inference agrees with
   * the defaults: inferring from the defaulted version gives the defaulted
   * method, and the version inferred from nothing is the defaulted one.
   */
  lemma InferenceAgreesWithDefaults(ro: Option<string>, rw: Option<string>, v3Ro: bool, v3Rw: bool)
    ensures var d := Defaults(ro, rw, v3Ro, v3Rw);
      && PollingMethod(None, map[], ro, rw, Some(d.1)) == d.0
      && SnmpVersion(None, ro, rw, v3Ro, v3Rw) == d.1
      && SnmpVersion(Some(d.1), ro, rw, v3Ro, v3Rw) == d.1
  {
  }

  // ---- is_managed, is_unmanaged ----

  /** `isinstance(status, int)`: Python's booleans are integers too. */
  predicate IsIntValue(v: Value) { v.Int? || v.Bool? }

  function IntOf(v: Value): int
    requires IsIntValue(v)
  {
    if v.Int? then v.i else if v.b then 1 else 0
  }

  /** `is_unmanaged`: whether the integer status is 9; None for a status that is not an integer. */
  function IsUnmanaged(status: Value): (r: Option<bool>)
    ensures r.Some? <==> IsIntValue(status)
    ensures r == Some(true) <==> status == Int(9)
  {
    if IsIntValue(status) then Some(IntOf(status) == 9) else None
  }

  /** `is_managed`: whether the integer status is anything but 9; None for a status that is not an integer. */
  function IsManaged(status: Value): (r: Option<bool>)
    ensures r.Some? <==> IsIntValue(status)
    ensures r == Some(false) <==> status == Int(9)
  {
    if IsIntValue(status) then Some(IntOf(status) != 9) else None
  }

  /** The two status predicates are each other's negation, and agree on when they are None. */
  lemma ManagedIsNegation(status: Value)
    ensures IsManaged(status).Some? <==> IsUnmanaged(status).Some?
    ensures IsManaged(status).Some? ==> IsManaged(status).value == !IsUnmanaged(status).value
  {
  }

  // ---- _get_extra_swargs, _build_swargs ----

  /** The node's patch properties; the extra swargs, `Status` then `ObjectSubType`, are written over them in turn. */
  function NodeProperties(caption: Value, ipAddress: Value, ro: Option<string>, rw: Option<string>,
                          pollingMethod: Option<string>, version: Option<int>, v3Ro: bool, v3Rw: bool,
                          engineId: Value, swp: Props): Props
  {
    var base := map["Caption" := caption, "IPAddress" := ipAddress,
                     "Community" := OptStr(ro), "RWCommunity" := OptStr(rw),
                     "ObjectSubType" := OptStr(pollingMethod),
                     "SNMPVersion" := Int(SnmpVersion(version, ro, rw, v3Ro, v3Rw)),
                     "EngineID" := engineId];
    var extra := ExtraSwargs(swp, PollingMethod(pollingMethod, swp, ro, rw, version));
    base["Status" := extra["Status"]]["ObjectSubType" := extra["ObjectSubType"]]
  }

  /** An optional string attribute as a value. */
  function OptStr(s: Option<string>): (v: Value)
    ensures s.Some? ==> v == Str(s.value)
    ensures s.None? ==> v == Null
  {
    if s.Some? then Str(s.value) else Null
  }

  /** `_get_extra_swargs`: the cached status, or 1 when it is falsy, and the upper-cased polling method. */
  function ExtraSwargs(swp: Props, pollingMethod: string): (r: Props)
    ensures r.Keys == {"Status", "ObjectSubType"}
    ensures Truthy(Get(swp, "Status")) ==> r["Status"] == Get(swp, "Status")
    ensures !Truthy(Get(swp, "Status")) ==> r["Status"] == Int(1)
    ensures r["ObjectSubType"] == Str(Upper(pollingMethod))
  {
    map["Status" := if Truthy(Get(swp, "Status")) then Get(swp, "Status") else Int(1),
        "ObjectSubType" := Str(Upper(pollingMethod))]
  }

  /** The patch has exactly the seven node columns and `Status`. */
  lemma NodePropertiesKeys(caption: Value, ipAddress: Value, ro: Option<string>, rw: Option<string>,
                           pollingMethod: Option<string>, version: Option<int>, v3Ro: bool, v3Rw: bool,
                           engineId: Value, swp: Props)
    ensures NodeProperties(caption, ipAddress, ro, rw, pollingMethod, version, v3Ro, v3Rw, engineId, swp).Keys
      == {"Caption", "IPAddress", "Community", "RWCommunity", "ObjectSubType", "SNMPVersion", "EngineID", "Status"}
  {
  }

  /** The given values go under their SWIS names, with the inferred SNMP version. */
  lemma NodePropertiesValues(caption: Value, ipAddress: Value, ro: Option<string>, rw: Option<string>,
                             pollingMethod: Option<string>, version: Option<int>, v3Ro: bool, v3Rw: bool,
                             engineId: Value, swp: Props)
    ensures var p := NodeProperties(caption, ipAddress, ro, rw, pollingMethod, version, v3Ro, v3Rw, engineId, swp);
      && "Caption" in p && p["Caption"] == caption
      && "IPAddress" in p && p["IPAddress"] == ipAddress
      && "EngineID" in p && p["EngineID"] == engineId
      && "SNMPVersion" in p && p["SNMPVersion"] == Int(SnmpVersion(version, ro, rw, v3Ro, v3Rw))
  {
    var extra := ExtraSwargs(swp, PollingMethod(pollingMethod, swp, ro, rw, version));
    var base := map["Caption" := caption, "IPAddress" := ipAddress,
                     "Community" := OptStr(ro), "RWCommunity" := OptStr(rw),
                     "ObjectSubType" := OptStr(pollingMethod),
                     "SNMPVersion" := Int(SnmpVersion(version, ro, rw, v3Ro, v3Rw)),
                     "EngineID" := engineId];
    assert NodeProperties(caption, ipAddress, ro, rw, pollingMethod, version, v3Ro, v3Rw, engineId, swp)
      == base["Status" := extra["Status"]]["ObjectSubType" := extra["ObjectSubType"]];
    assert |"Caption"| == 7 && |"IPAddress"| == 9 && |"EngineID"| == 8 && |"SNMPVersion"| == 11;
    assert |"Status"| == 6 && |"ObjectSubType"| == 13;
  }

  /**
   * The raw `polling_method` attribute never reaches the patch: its
   * `ObjectSubType` is always the upper-cased inferred method, and its
   * status is never falsy.
   */
  lemma PatchCarriesInferredMethod(caption: Value, ipAddress: Value, ro: Option<string>, rw: Option<string>,
                                   pollingMethod: Option<string>, version: Option<int>, v3Ro: bool, v3Rw: bool,
                                   engineId: Value, swp: Props)
    ensures var p := NodeProperties(caption, ipAddress, ro, rw, pollingMethod, version, v3Ro, v3Rw, engineId, swp);
      && p["ObjectSubType"] == Str(Upper(PollingMethod(pollingMethod, swp, ro, rw, version)))
      && Truthy(p["Status"])
      && p["Community"] == OptStr(ro) && p["RWCommunity"] == OptStr(rw)
  {
  }

  /**
   * `_build_swargs`: the node's patch properties and its custom properties
   * (`{}` when the node has no `custom_properties` attribute), stored as
   * the new `_swargs` when either is truthy; None when `_swargs` is left
   * as it was. The properties always hold the node columns, so the new
   * arguments are always stored.
   */
  function NodeSwargs(caption: Value, ipAddress: Value, ro: Option<string>, rw: Option<string>,
                      pollingMethod: Option<string>, version: Option<int>, v3Ro: bool, v3Rw: bool,
                      engineId: Value, swp: Props, hasCustom: bool, custom: Option<Props>): (s: Option<Endpoints.Swargs>)
    ensures s.Some?
    ensures s.value.properties == NodeProperties(caption, ipAddress, ro, rw, pollingMethod, version, v3Ro, v3Rw, engineId, swp)
    ensures hasCustom ==> s.value.customProperties == custom
    ensures !hasCustom ==> s.value.customProperties == Some(map[])
  {
    var p := NodeProperties(caption, ipAddress, ro, rw, pollingMethod, version, v3Ro, v3Rw, engineId, swp);
    var cp := if hasCustom then custom else Some(map[]);
    NodePropertiesKeys(caption, ipAddress, ro, rw, pollingMethod, version, v3Ro, v3Rw, engineId, swp);
    assert "Caption" in p;
    if NonEmpty(p) || NonEmpty(cp.GetOr(map[])) then Some(Endpoints.Swargs(p, cp)) else None
  }

  // ---- discover: the credential list ----

  /** A `{"CredentialID": ..., "Order": ...}` entry of the core plugin context. */
  datatype CredentialEntry = CredentialEntry(credentialId: Value, order: int)

  /**
   * The checks `discover` makes before building anything: SNMP only, an
   * IP address, and at least one community or SNMPv3 credential.
   */
  function DiscoveryGuard(protocol: string, ipAddress: Option<string>, ro: Option<string>, rw: Option<string>,
                          v3Ro: bool, v3Rw: bool): (e: Option<Error>)
    ensures e.None? <==> protocol == "snmp" && Given(ipAddress) && (Given(ro) || Given(rw) || v3Ro || v3Rw)
    ensures protocol != "snmp" ==> e == Some(NotImplementedError)
    ensures protocol == "snmp" && e.Some? ==> e == Some(SWObjectPropertyError)
  {
    if protocol != "snmp" then Some(NotImplementedError)
    else if !Given(ipAddress) then Some(SWObjectPropertyError)
    else if !Given(ro) && !Given(rw) && !v3Ro && !v3Rw then Some(SWObjectPropertyError)
    else None
  }

  /** The id of the SNMPv2 credential named by a community, when that credential exists. */
  function V2Id(community: Option<string>, v2Ids: map<string, Value>): (r: seq<Value>)
    ensures |r| <= 1
    ensures r != [] <==> Given(community) && community.value in v2Ids
  {
    if Given(community) && community.value in v2Ids then [v2Ids[community.value]] else []
  }

  function OptId(cred: Option<Value>): (r: seq<Value>)
    ensures r != [] <==> cred.Some?
    ensures cred.Some? ==> r == [cred.value]
  {
    if cred.Some? then [cred.value] else []
  }

  /**
   * The credential ids a discovery offers, read-write first: under version 2
   * the existing credentials named by the communities (`v2Ids` maps a name to
   * the id of the credential of that name), under version 3 the SNMPv3
   * credentials, and none under any other version.
   */
  function CandidateIds(version: Option<int>, ro: Option<string>, rw: Option<string>, v2Ids: map<string, Value>,
                        v3Ro: Option<Value>, v3Rw: Option<Value>): seq<Value>
  {
    if version == Some(2) then V2Id(rw, v2Ids) + V2Id(ro, v2Ids)
    else if version == Some(3) then OptId(v3Rw) + OptId(v3Ro)
    else []
  }

  /** The ids with `Order` numbered consecutively from 1. */
  function Numbered(ids: seq<Value>): (r: seq<CredentialEntry>)
    ensures |r| == |ids|
    ensures forall i :: 0 <= i < |ids| ==> r[i] == CredentialEntry(ids[i], i + 1)
  {
    if ids == [] then [] else Numbered(ids[..|ids| - 1]) + [CredentialEntry(ids[|ids| - 1], |ids|)]
  }

  /**
   * The appends of `discover` for one SNMP version: the read-write
   * candidate and then the read-only one, each taking the next `order`.
   */
  method OfferInTurn(first: seq<Value>, second: seq<Value>) returns (credentials: seq<CredentialEntry>)
    requires |first| <= 1 && |second| <= 1
    ensures credentials == Numbered(first + second)
  {
    credentials := [];
    var order := 1;
    if first != [] {
      credentials := credentials + [CredentialEntry(first[0], order)];
      order := order + 1;
    }
    if second != [] {
      credentials := credentials + [CredentialEntry(second[0], order)];
      order := order + 1;
    }
  }

  /**
   * The credential list of `discover`: one entry per candidate with an
   * `order` counter starting at 1; an empty list is a ValueError.
   */
  method DiscoveryCredentials(version: Option<int>, ro: Option<string>, rw: Option<string>, v2Ids: map<string, Value>,
                              v3Ro: Option<Value>, v3Rw: Option<Value>) returns (r: Result<seq<CredentialEntry>>)
    ensures r.Err? <==> CandidateIds(version, ro, rw, v2Ids, v3Ro, v3Rw) == []
    ensures r.Err? ==> r.error == ValueError
    ensures r.Ok? ==> r.value == Numbered(CandidateIds(version, ro, rw, v2Ids, v3Ro, v3Rw))
  {
    ghost var ids := CandidateIds(version, ro, rw, v2Ids, v3Ro, v3Rw);
    var credentials: seq<CredentialEntry> := [];
    if version == Some(2) {
      credentials := OfferInTurn(V2Id(rw, v2Ids), V2Id(ro, v2Ids));
    } else if version == Some(3) {
      credentials := OfferInTurn(OptId(v3Rw), OptId(v3Ro));
    }
    assert credentials == Numbered(ids);
    if |credentials| == 0 {
      return Err(ValueError);
    }
    return Ok(credentials);
  }

  /** The read-write credential comes first: with both available it has `Order` 1 and the read-only one `Order` 2. */
  lemma ReadWriteFirst(version: Option<int>, ro: Option<string>, rw: Option<string>, v2Ids: map<string, Value>,
                       v3Ro: Option<Value>, v3Rw: Option<Value>)
    requires version == Some(2) ==> Given(rw) && rw.value in v2Ids && Given(ro) && ro.value in v2Ids
    requires version == Some(3) ==> v3Rw.Some? && v3Ro.Some?
    requires version == Some(2) || version == Some(3)
    ensures var n := Numbered(CandidateIds(version, ro, rw, v2Ids, v3Ro, v3Rw));
      && |n| == 2
      && n[0].credentialId == (if version == Some(2) then v2Ids[rw.value] else v3Rw.value)
      && n[1].credentialId == (if version == Some(2) then v2Ids[ro.value] else v3Ro.value)
      && n[0].order == 1 && n[1].order == 2
  {
  }

  /** A version other than 2 or 3 can offer no credential, so such a discovery always fails. */
  lemma OtherVersionOffersNothing(version: Option<int>, ro: Option<string>, rw: Option<string>, v2Ids: map<string, Value>,
                                  v3Ro: Option<Value>, v3Rw: Option<Value>)
    requires version != Some(2) && version != Some(3)
    ensures CandidateIds(version, ro, rw, v2Ids, v3Ro, v3Rw) == []
  {
  }

  // ---- discover: the interfaces plugin context ----

  /** The three lists of `interface_type_map`. */
  datatype Category = AutoImportStatus | AutoImportVirtualTypes | AutoImportVlanPortTypes

  /** `interface_type_map`; None for a type it does not know, where indexing it raises KeyError. */
  function CategoryOf(t: string): Option<Category>
  {
    if t == "up" || t == "down" || t == "shutdown" then Some(AutoImportStatus)
    else if t == "virtual" || t == "physical" then Some(AutoImportVirtualTypes)
    else if t == "trunk" || t == "access" || t == "unknown" then Some(AutoImportVlanPortTypes)
    else None
  }

  datatype PluginContext = PluginContext(status: seq<string>, virtualTypes: seq<string>, vlanPortTypes: seq<string>, useDefaults: bool)
  {
    function Add(c: Category, t: string): (r: PluginContext)
    {
      match c
      case AutoImportStatus => this.(status := status + [t])
      case AutoImportVirtualTypes => this.(virtualTypes := virtualTypes + [t])
      case AutoImportVlanPortTypes => this.(vlanPortTypes := vlanPortTypes + [t])
    }
  }

  /** The capitalised types of category `c`, in the order requested. */
  function TypesIn(types: seq<string>, c: Category): (r: seq<string>)
    ensures |r| <= |types|
  {
    if types == [] then []
    else TypesIn(types[..|types| - 1], c) + (if CategoryOf(types[|types| - 1]) == Some(c) then [Capitalize(types[|types| - 1])] else [])
  }

  /** Every type the map knows. */
  predicate AllKnown(types: seq<string>)
  {
    forall i :: 0 <= i < |types| ==> CategoryOf(types[i]).Some?
  }

  function ContextOf(types: seq<string>): PluginContext
  {
    PluginContext(TypesIn(types, AutoImportStatus), TypesIn(types, AutoImportVirtualTypes), TypesIn(types, AutoImportVlanPortTypes), false)
  }

  lemma TypesInStep(types: seq<string>, i: nat, c: Category)
    requires i < |types|
    ensures TypesIn(types[..i + 1], c) == TypesIn(types[..i], c) + (if CategoryOf(types[i]) == Some(c) then [Capitalize(types[i])] else [])
  {
    assert types[..i + 1][..i] == types[..i];
    assert types[..i + 1][i] == types[i];
  }

  /** One more requested type added to its category's list. */
  lemma ContextStep(types: seq<string>, i: nat)
    requires i < |types| && CategoryOf(types[i]).Some?
    ensures ContextOf(types[..i + 1]) == ContextOf(types[..i]).Add(CategoryOf(types[i]).value, Capitalize(types[i]))
  {
    TypesInStep(types, i, AutoImportStatus);
    TypesInStep(types, i, AutoImportVirtualTypes);
    TypesInStep(types, i, AutoImportVlanPortTypes);
  }

  lemma AllKnownStep(types: seq<string>, i: nat)
    requires i < |types| && CategoryOf(types[i]).Some? && AllKnown(types[..i])
    ensures AllKnown(types[..i + 1])
  {
    var pre, next := types[..i], types[..i + 1];
    forall k | 0 <= k < |next| ensures CategoryOf(next[k]).Some? {
      if k < i {
        assert next[k] == pre[k];
      }
    }
  }

  /** The loop over the requested types; a type the map does not know raises KeyError. */
  method AddTypes(types: seq<string>) returns (r: Result<PluginContext>)
    ensures r.Err? <==> !AllKnown(types)
    ensures r.Err? ==> r.error == KeyError
    ensures r.Ok? ==> r.value == ContextOf(types)
  {
    var context := PluginContext([], [], [], false);
    var i := 0;
    while i < |types|
      invariant i <= |types|
      invariant AllKnown(types[..i])
      invariant context == ContextOf(types[..i])
    {
      var c := CategoryOf(types[i]);
      if c.None? {
        return Err(KeyError);
      }
      ContextStep(types, i);
      AllKnownStep(types, i);
      context := context.Add(c.value, Capitalize(types[i]));
      i := i + 1;
    }
    assert types[..i] == types;
    return Ok(context);
  }

  /**
   * The interfaces plugin context: nothing imported for None, the defaults
   * for exactly `["up"]`, and otherwise every type capitalised into its
   * category's list.
   */
  method BuildPluginContext(importInterfaces: Option<seq<string>>) returns (r: Result<PluginContext>)
    ensures importInterfaces.None? ==> r == Ok(PluginContext([], [], [], false))
    ensures importInterfaces == Some(["up"]) ==> r == Ok(PluginContext([], [], [], true))
    ensures importInterfaces.Some? && importInterfaces.value != ["up"] ==>
      && (r.Err? <==> !AllKnown(importInterfaces.value))
      && (r.Err? ==> r.error == KeyError)
      && (r.Ok? ==> r.value == ContextOf(importInterfaces.value))
  {
    if importInterfaces.None? {
      return Ok(PluginContext([], [], [], false));
    }
    var types := importInterfaces.value;
    if |types| == 1 && "up" in types {
      assert types == ["up"];
      return Ok(PluginContext([], [], [], true));
    }
    r := AddTypes(types);
  }

  /** With every type known, each one lands in exactly one list: the three lists hold as many entries as were requested. */
  lemma {:induction false} TypesPartition(types: seq<string>)
    requires AllKnown(types)
    ensures |TypesIn(types, AutoImportStatus)| + |TypesIn(types, AutoImportVirtualTypes)| + |TypesIn(types, AutoImportVlanPortTypes)| == |types|
  {
    if types != [] {
      var init := types[..|types| - 1];
      assert AllKnown(init) by {
        forall i | 0 <= i < |init| ensures CategoryOf(init[i]).Some? {
          assert init[i] == types[i];
        }
      }
      TypesPartition(init);
      assert CategoryOf(types[|types| - 1]).Some?;
    }
  }

  /** Every entry of a category's list is the capitalised form of a requested type of that category. */
  lemma {:induction false} TypesInSound(types: seq<string>, c: Category)
    ensures forall x :: x in TypesIn(types, c) ==>
      exists i :: 0 <= i < |types| && CategoryOf(types[i]) == Some(c) && x == Capitalize(types[i])
  {
    if types != [] {
      var init := types[..|types| - 1];
      TypesInSound(init, c);
      forall x | x in TypesIn(types, c)
        ensures exists i :: 0 <= i < |types| && CategoryOf(types[i]) == Some(c) && x == Capitalize(types[i])
      {
        if x in TypesIn(init, c) {
          var i :| 0 <= i < |init| && CategoryOf(init[i]) == Some(c) && x == Capitalize(init[i]);
          assert types[i] == init[i];
        } else {
          assert CategoryOf(types[|types| - 1]) == Some(c) && x == Capitalize(types[|types| - 1]);
        }
      }
    }
  }

  // ---- import_resources: what is deleted ----

  /** An imported interface or volume: `key` stands for the object's identity. */
  datatype Resource = Resource(key: int, name: string, up: bool)

  /** The `monitor_interfaces` / `monitor_volumes` argument. */
  datatype Monitor =
    | MonitorExisting                      // "existing"
    | MonitorUp                            // "up" (interfaces only)
    | MonitorAll                           // "all"
    | MonitorNone                          // None
    | MonitorNamed(names: seq<string>)     // a list of names
    | MonitorWhere(keep: Resource -> bool) // a callable
    | MonitorOther                         // any other value

  /**
   * The ValueErrors `import_resources` raises before touching anything:
   * monitoring up interfaces while unmanaging the node, or while the node
   * is already unmanaged, and a timeout that is neither seconds nor a
   * duration when the node is to be unmanaged now.
   */
  function ImportGuard(monitorInterfaces: Monitor, unmanageNode: bool, alreadyUnmanaged: Option<bool>, timeoutIsDuration: bool): (e: Option<Error>)
    ensures e.Some? ==> e.value == ValueError
    ensures monitorInterfaces.MonitorUp? && (unmanageNode || alreadyUnmanaged == Some(true)) ==> e.Some?
    ensures e.Some? <==>
      (monitorInterfaces.MonitorUp? && (unmanageNode || alreadyUnmanaged == Some(true)))
      || (unmanageNode && alreadyUnmanaged != Some(true) && !timeoutIsDuration)
  {
    if monitorInterfaces.MonitorUp? && unmanageNode then Some(ValueError)
    else if monitorInterfaces.MonitorUp? && alreadyUnmanaged == Some(true) then Some(ValueError)
    else if unmanageNode && alreadyUnmanaged != Some(true) && !timeoutIsDuration then Some(ValueError)
    else None
  }

  /** Whether the monitor selection deletes a resource; `existing` are the names from before the import. */
  predicate Unwanted(m: Monitor, existing: seq<string>, x: Resource)
  {
    match m
    case MonitorExisting => x.name !in existing
    case MonitorUp => !x.up
    case MonitorAll => false
    case MonitorNone => true
    case MonitorNamed(names) => x.name !in names
    case MonitorWhere(keep) => !keep(x)
    case MonitorOther => false
  }

  /** The monitor selection's list of resources to delete, in list order. */
  function Selected(items: seq<Resource>, m: Monitor, existing: seq<string>): seq<Resource>
  {
    if items == [] then []
    else Selected(items[..|items| - 1], m, existing) + (if Unwanted(m, existing, items[|items| - 1]) then [items[|items| - 1]] else [])
  }

  /** The selection lists exactly the unwanted resources. */
  lemma {:induction false} SelectedMembers(items: seq<Resource>, m: Monitor, existing: seq<string>)
    ensures forall x :: x in Selected(items, m, existing) <==> x in items && Unwanted(m, existing, x)
  {
    if items != [] {
      var init := items[..|items| - 1];
      assert items == init + [items[|items| - 1]];
      SelectedMembers(init, m, existing);
    }
  }

  /** Some exclusion pattern matches the name. */
  predicate Matches(patterns: seq<string -> bool>, name: string)
  {
    exists j :: 0 <= j < |patterns| && patterns[j](name)
  }

  /** One entry per exclusion pattern matching the resource's name. */
  function Hits(x: Resource, patterns: seq<string -> bool>): seq<Resource>
  {
    if patterns == [] then []
    else Hits(x, patterns[..|patterns| - 1]) + (if patterns[|patterns| - 1](x.name) then [x] else [])
  }

  /** The entries for one resource are that resource, and there is one exactly when some pattern matches. */
  lemma {:induction false} HitsMembers(x: Resource, patterns: seq<string -> bool>)
    ensures forall y :: y in Hits(x, patterns) ==> y == x
    ensures x in Hits(x, patterns) <==> Matches(patterns, x.name)
  {
    if patterns != [] {
      var init := patterns[..|patterns| - 1];
      HitsMembers(x, init);
      assert forall j :: 0 <= j < |init| ==> init[j] == patterns[j];
      if Matches(patterns, x.name) && !patterns[|patterns| - 1](x.name) {
        var j :| 0 <= j < |patterns| && patterns[j](x.name);
        assert init[j] == patterns[j];
      }
    }
  }

  /** The resources appended by the exclusion loop: each one once per matching pattern, in list order. */
  function PatternHits(items: seq<Resource>, patterns: seq<string -> bool>): seq<Resource>
  {
    if items == [] then []
    else PatternHits(items[..|items| - 1], patterns) + Hits(items[|items| - 1], patterns)
  }

  /** The exclusion loop appends exactly the resources some pattern matches. */
  lemma {:induction false} PatternHitsMembers(items: seq<Resource>, patterns: seq<string -> bool>)
    ensures forall x :: x in PatternHits(items, patterns) <==> x in items && Matches(patterns, x.name)
  {
    if items != [] {
      var init := items[..|items| - 1];
      assert items == init + [items[|items| - 1]];
      PatternHitsMembers(init, patterns);
      HitsMembers(items[|items| - 1], patterns);
    }
  }

  /** The exclusion loop: for each resource, for each pattern, the resource is appended when the pattern matches its name. */
  method MatchPatterns(items: seq<Resource>, patterns: seq<string -> bool>) returns (hits: seq<Resource>)
    ensures hits == PatternHits(items, patterns)
  {
    hits := [];
    var i := 0;
    while i < |items|
      invariant i <= |items|
      invariant hits == PatternHits(items[..i], patterns)
    {
      var j := 0;
      ghost var before := hits;
      while j < |patterns|
        invariant j <= |patterns|
        invariant hits == before + Hits(items[i], patterns[..j])
      {
        assert patterns[..j + 1][..j] == patterns[..j];
        if patterns[j](items[i].name) {
          hits := hits + [items[i]];
        }
        j := j + 1;
      }
      assert patterns[..j] == patterns;
      assert items[..i + 1][..i] == items[..i];
      i := i + 1;
    }
    assert items[..i] == items;
  }

  /** The interfaces deleted: a set, since the list is deduplicated first; any other monitor value is a ValueError. */
  method InterfacesToDelete(interfaces: seq<Resource>, m: Monitor, existing: seq<string>, patterns: seq<string -> bool>)
    returns (r: Result<set<Resource>>)
    ensures r.Err? <==> m.MonitorOther?
    ensures r.Err? ==> r.error == ValueError
    ensures r.Ok? ==> forall x :: x in r.value <==>
      x in interfaces && (Unwanted(m, existing, x) || Matches(patterns, x.name))
  {
    if m.MonitorOther? {
      return Err(ValueError);
    }
    var toDelete := Selected(interfaces, m, existing);
    var hits := MatchPatterns(interfaces, patterns);
    SelectedMembers(interfaces, m, existing);
    PatternHitsMembers(interfaces, patterns);
    toDelete := toDelete + hits;
    return Ok(set x | x in toDelete);
  }

  /**
   * The volumes deleted: the list as built, not deduplicated; "up" is not a
   * volume selection and, with any other unknown value, is a ValueError.
   */
  method VolumesToDelete(volumes: seq<Resource>, m: Monitor, existing: seq<string>, patterns: seq<string -> bool>)
    returns (r: Result<seq<Resource>>)
    ensures r.Err? <==> m.MonitorOther? || m.MonitorUp?
    ensures r.Err? ==> r.error == ValueError
    ensures r.Ok? ==> r.value == Selected(volumes, m, existing) + PatternHits(volumes, patterns)
  {
    if m.MonitorOther? || m.MonitorUp? {
      return Err(ValueError);
    }
    var hits := MatchPatterns(volumes, patterns);
    return Ok(Selected(volumes, m, existing) + hits);
  }

  /** Selecting "all" with no exclusion pattern deletes nothing; selecting None deletes every resource. */
  lemma {:induction false} SelectedExtremes(items: seq<Resource>, existing: seq<string>)
    ensures Selected(items, MonitorAll, existing) == []
    ensures Selected(items, MonitorNone, existing) == items
    ensures PatternHits(items, []) == []
  {
    if items != [] {
      SelectedExtremes(items[..|items| - 1], existing);
      assert items[..|items| - 1] + [items[|items| - 1]] == items;
    }
  }

  /**
   * Unlike the interface list, the volume list keeps duplicates: a volume
   * that the selection deletes and a pattern also matches is listed twice.
   */
  lemma VolumeListedTwice(keep: string -> bool)
    requires keep("tmp")
    ensures var v := Resource(1, "tmp", true);
      Selected([v], MonitorNone, []) + PatternHits([v], [keep]) == [v, v]
  {
    var v := Resource(1, "tmp", true);
    assert [v][..0] == [];
    assert [keep][..0] == [];
    assert Selected([v], MonitorNone, []) == [v];
    assert Hits(v, [keep]) == [v];
    assert PatternHits([v], [keep]) == [v];
  }

  // ---- the node as an object ----

  /** The SNMP configuration attributes of a node, which `_set_defaults` assigns. */
  class Node {
    var pollingMethod: Option<string>
    var snmpVersion: Option<int>
    var roCommunity: Option<string>
    var rwCommunity: Option<string>
    /** The ids of the SNMPv3 credential objects, when given. */
    var v3RoCred: Option<Value>
    var v3RwCred: Option<Value>
    /** The cached remote properties, `_swdata["properties"]`. */
    var swp: Props

    constructor (pollingMethod: Option<string>, snmpVersion: Option<int>, roCommunity: Option<string>,
                 rwCommunity: Option<string>, v3RoCred: Option<Value>, v3RwCred: Option<Value>)
      ensures this.pollingMethod == pollingMethod && this.snmpVersion == snmpVersion
      ensures this.roCommunity == roCommunity && this.rwCommunity == rwCommunity
      ensures this.v3RoCred == v3RoCred && this.v3RwCred == v3RwCred
      ensures swp == map[]
    {
      this.pollingMethod := pollingMethod;
      this.snmpVersion := snmpVersion;
      this.roCommunity := roCommunity;
      this.rwCommunity := rwCommunity;
      this.v3RoCred := v3RoCred;
      this.v3RwCred := v3RwCred;
      swp := map[];
    }

    /** `_get_polling_method` on this node. */
    function InferredMethod(): string
      reads this
    {
      PollingMethod(pollingMethod, swp, roCommunity, rwCommunity, snmpVersion)
    }

    /**
     * `_set_defaults`: with no polling method given, both the method and the
     * version are set from the credentials; afterwards the inferred method
     * and version are what was set.
     */
    method SetDefaults()
      modifies this`pollingMethod, this`snmpVersion
      ensures Given(old(pollingMethod)) ==> pollingMethod == old(pollingMethod) && snmpVersion == old(snmpVersion)
      ensures !Given(old(pollingMethod)) ==>
        var d := Defaults(roCommunity, rwCommunity, v3RoCred.Some?, v3RwCred.Some?);
        pollingMethod == Some(d.0) && snmpVersion == Some(d.1)
      ensures !Given(old(pollingMethod)) ==>
        && InferredMethod() == pollingMethod.value
        && SnmpVersion(snmpVersion, roCommunity, rwCommunity, v3RoCred.Some?, v3RwCred.Some?) == snmpVersion.value
    {
      if !Given(pollingMethod) {
        if Given(roCommunity) || Given(rwCommunity) {
          pollingMethod := Some("snmp");
          snmpVersion := Some(2);
        } else if v3RoCred.Some? || v3RwCred.Some? {
          pollingMethod := Some("snmp");
          snmpVersion := Some(3);
        } else {
          pollingMethod := Some("icmp");
          snmpVersion := Some(0);
        }
      }
    }
  }
}
