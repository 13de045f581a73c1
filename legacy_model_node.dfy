/**
 * The node model of the first generation (solarwinds/models/node.py): the
 * property map a node is created with, the polling method and pollers
 * inferred from it, the diff against the record SWIS holds, and the URI
 * lookup by caption and IP address with the id parsed from the URI.
 */
module LegacyModelNode {
  import opened Wrappers
  import opened PyValue
  import opened Transport
  import opened Text

  /** `DEFAULT_PROPERTIES`. */
  const DefaultProperties: Props := map["EngineID" := Int(1)]["Status" := Int(1)]

  /** `DEFAULT_POLLERS["icmp"]`. */
  const IcmpPollers: seq<string> := ["N.Status.ICMP.Native", "N.ResponseTime.ICMP.Native"]

  /** `DEFAULT_POLLERS["snmp"]`. */
  const SnmpPollers: seq<string> := [
    "N.ResponseTime.SNMP.Native", "N.Details.SNMP.Generic", "N.Uptime.SNMP.Generic",
    "N.Cpu.SNMP.HrProcessorLoad", "N.Memory.SNMP.NetSnmpReal", "N.AssetInventory.Snmp.Generic",
    "N.Topology_Layer3.SNMP.ipNetToMedia", "N.Routing.SNMP.Ipv4CidrRoutingTable"]

  /** The keys of `DEFAULT_POLLERS`. */
  predicate HasDefaultPollers(m: string)
  {
    m == "icmp" || m == "snmp"
  }

  /** `DEFAULT_POLLERS[m]`. */
  function DefaultPollersFor(m: string): seq<string>
    requires HasDefaultPollers(m)
  {
    if m == "icmp" then IcmpPollers else SnmpPollers
  }

  /** The pollers of a node: the "pollers" entry of its properties when set, else the defaults for its method. */
  datatype Pollers = GivenPollers(given: Value) | DefaultPollerTypes(types: seq<string>)

  // ---- __init__ ----

  /** The polling IP: the `ip` argument when truthy, else the IPAddress of the properties. */
  function IpOf(ipArg: Value, properties: Option<Props>): Value
  {
    if Truthy(ipArg) then ipArg else if properties.Some? then Get(properties.value, "IPAddress") else Null
  }

  /** The hostname: the `hostname` argument when truthy, else the Caption of the properties. */
  function HostnameOf(hostnameArg: Value, properties: Option<Props>): Value
  {
    if Truthy(hostnameArg) then hostnameArg else if properties.Some? then Get(properties.value, "Caption") else Null
  }

  /** The defaults overlaid with a non-empty properties argument, then the IP and a truthy hostname forced in. */
  function BaseProperties(properties: Option<Props>, ip: Value, hostname: Value): Props
  {
    var merged := if properties.Some? && |properties.value| != 0 then Update(DefaultProperties, properties.value) else DefaultProperties;
    var withIp := merged["IPAddress" := ip];
    if Truthy(hostname) then withIp["Caption" := hostname] else withIp
  }

  /** The polling method: the given subtype lower-cased, else "snmp" exactly when SNMPv2c settings are given. */
  function InitMethod(base: Props, snmpv2c: Option<Props>): string
  {
    var st := Get(base, "ObjectSubType");
    if Truthy(st) then (if st.Str? then Lower(st.s) else "")
    else if snmpv2c.None? then "icmp" else "snmp"
  }

  /** The community of SNMPv2c settings: "rw" when truthy, else "ro". */
  function Community(snmpv2c: Props): Value
  {
    Or(Get(snmpv2c, "rw"), Get(snmpv2c, "ro"))
  }

  /** The subtype step of `__init__`: without a truthy subtype, the one matching the inferred method. */
  function WithMethod(base: Props, snmpv2c: Option<Props>): Props
  {
    if Truthy(Get(base, "ObjectSubType")) then base
    else base["ObjectSubType" := Str(if snmpv2c.None? then "ICMP" else "SNMP")]
  }

  /** The SNMPv2c step of `__init__`: version 2, and the community for an SNMP-polled node. */
  function WithSnmp(p: Props, pollingMethod: string, snmpv2c: Option<Props>): Props
  {
    if snmpv2c.None? then p
    else
      var v := p["SNMPVersion" := Int(2)];
      if Community(snmpv2c.value) != Null && pollingMethod == "snmp" then v["Community" := Community(snmpv2c.value)] else v
  }

  /** The merged properties after the subtype and SNMPv2c steps. */
  function Finished(base: Props, snmpv2c: Option<Props>): Props
  {
    WithSnmp(WithMethod(base, snmpv2c), InitMethod(base, snmpv2c), snmpv2c)
  }

  /** `self.properties` at the end of `__init__`. */
  function InitProperties(ipArg: Value, hostnameArg: Value, properties: Option<Props>, snmpv2c: Option<Props>): Props
  {
    Finished(BaseProperties(properties, IpOf(ipArg, properties), HostnameOf(hostnameArg, properties)), snmpv2c)
  }

  /** The later steps leave every key but the ones they set alone. */
  lemma LaterStepsKeep(base: Props, snmpv2c: Option<Props>, k: string)
    requires k != "ObjectSubType" && k != "SNMPVersion" && k != "Community"
    ensures Get(Finished(base, snmpv2c), k) == Get(base, k)
  {
  }

  /** The merged properties `__init__` can finish with: a truthy subtype is a string, and the method has default pollers unless pollers are given. */
  predicate Accepted(base: Props, snmpv2c: Option<Props>)
  {
    var st := Get(base, "ObjectSubType");
    && (Truthy(st) ==> st.Str?)
    && (Get(base, "pollers") == Null ==> HasDefaultPollers(InitMethod(base, snmpv2c)))
  }

  /** `self.pollers` at the end of `__init__`. */
  function InitPollers(base: Props, pollingMethod: string): Pollers
  {
    if Get(base, "pollers") != Null then GivenPollers(Get(base, "pollers"))
    else DefaultPollerTypes(if HasDefaultPollers(pollingMethod) then DefaultPollersFor(pollingMethod) else [])
  }

  /**
   * The exceptions `__init__` raises, in the order it meets them: a falsy
   * argument without a properties argument to fall back on (KeyError), no
   * IP at all (SWObjectPropertyError), a subtype that is not a string
   * (AttributeError), and a method without default pollers (KeyError).
   */
  function InitError(ipArg: Value, hostnameArg: Value, properties: Option<Props>, snmpv2c: Option<Props>): (r: Option<Error>)
    ensures !Truthy(ipArg) && properties.None? ==> r == Some(KeyError)
    ensures properties.Some? && IpOf(ipArg, properties) == Null ==> r == Some(SWObjectPropertyError)
  {
    if !Truthy(ipArg) && properties.None? then Some(KeyError)
    else if IpOf(ipArg, properties) == Null then Some(SWObjectPropertyError)
    else if !Truthy(hostnameArg) && properties.None? then Some(KeyError)
    else
      var base := BaseProperties(properties, IpOf(ipArg, properties), HostnameOf(hostnameArg, properties));
      var st := Get(base, "ObjectSubType");
      if Truthy(st) && !st.Str? then Some(AttributeError)
      else if Get(base, "pollers") == Null && !HasDefaultPollers(InitMethod(base, snmpv2c)) then Some(KeyError)
      else None
  }

  /** The map sent to create a node keeps the polling IP and a truthy hostname whatever the properties say, and the defaults under them. */
  lemma InitPropertiesForced(ipArg: Value, hostnameArg: Value, properties: Option<Props>, snmpv2c: Option<Props>)
    ensures var p := InitProperties(ipArg, hostnameArg, properties, snmpv2c);
      && Get(p, "IPAddress") == IpOf(ipArg, properties)
      && (Truthy(HostnameOf(hostnameArg, properties)) ==> Get(p, "Caption") == HostnameOf(hostnameArg, properties))
      && (properties.None? || "EngineID" !in properties.value ==> Get(p, "EngineID") == Int(1))
      && (properties.None? || "Status" !in properties.value ==> Get(p, "Status") == Int(1))
  {
    var base := BaseProperties(properties, IpOf(ipArg, properties), HostnameOf(hostnameArg, properties));
    assert |"IPAddress"| == 9 && |"Caption"| == 7 && |"EngineID"| == 8 && |"Status"| == 6;
    assert |"ObjectSubType"| == 13 && |"SNMPVersion"| == 11 && |"Community"| == 9;
    assert "IPAddress"[0] != "Community"[0];
    LaterStepsKeep(base, snmpv2c, "IPAddress");
    LaterStepsKeep(base, snmpv2c, "Caption");
    LaterStepsKeep(base, snmpv2c, "EngineID");
    LaterStepsKeep(base, snmpv2c, "Status");
  }

  /** Every other property the caller gives is passed on unchanged. */
  lemma InitPropertiesKeepsGiven(ipArg: Value, hostnameArg: Value, properties: Option<Props>, snmpv2c: Option<Props>, k: string)
    requires properties.Some? && k in properties.value
    requires k != "IPAddress" && k != "Caption" && k != "ObjectSubType" && k != "SNMPVersion" && k != "Community"
    ensures Get(InitProperties(ipArg, hostnameArg, properties, snmpv2c), k) == properties.value[k]
  {
    var base := BaseProperties(properties, IpOf(ipArg, properties), HostnameOf(hostnameArg, properties));
    LaterStepsKeep(base, snmpv2c, k);
  }

  /**
   * The subtype and the method agree: a given subtype is kept and its
   * lower case is the method; otherwise the method is "snmp" exactly when
   * SNMPv2c settings are given, and the subtype becomes its upper case.
   */
  lemma InitMethodAgrees(base: Props, snmpv2c: Option<Props>)
    requires Accepted(base, snmpv2c)
    ensures var p := Finished(base, snmpv2c);
      var m := InitMethod(base, snmpv2c);
      && Get(p, "ObjectSubType").Str?
      && m == Lower(Get(p, "ObjectSubType").s)
      && (!Truthy(Get(base, "ObjectSubType")) ==> (m == "snmp" <==> snmpv2c.Some?) && Get(p, "ObjectSubType") == Str(Upper(m)))
  {
    var wm := WithMethod(base, snmpv2c);
    assert Get(Finished(base, snmpv2c), "ObjectSubType") == Get(wm, "ObjectSubType") by {
      assert |"SNMPVersion"| == 11 && |"Community"| == 9 && |"ObjectSubType"| == 13;
    }
    if !Truthy(Get(base, "ObjectSubType")) {
      SubtypeCases();
    }
  }

  /** The two subtypes `__init__` writes are the upper case of their methods. */
  lemma SubtypeCases()
    ensures Lower("ICMP") == "icmp" && Upper("icmp") == "ICMP"
    ensures Lower("SNMP") == "snmp" && Upper("snmp") == "SNMP"
  {
    assert Lower("ICMP") == "icmp";
    assert Upper("icmp") == "ICMP";
    assert Lower("SNMP") == "snmp";
    assert Upper("snmp") == "SNMP";
  }

  /**
   * With SNMPv2c settings the version is 2, and the community (read-write
   * first) is set only for an SNMP-polled node; without them neither is
   * touched.
   */
  lemma InitSnmpSettings(base: Props, snmpv2c: Option<Props>)
    ensures var p := Finished(base, snmpv2c);
      && (snmpv2c.Some? ==> Get(p, "SNMPVersion") == Int(2))
      && (snmpv2c.Some? && Community(snmpv2c.value) != Null && InitMethod(base, snmpv2c) == "snmp" ==>
            Get(p, "Community") == Community(snmpv2c.value))
      && (snmpv2c.Some? && Truthy(Get(snmpv2c.value, "rw")) && InitMethod(base, snmpv2c) == "snmp" ==>
            Get(p, "Community") == Get(snmpv2c.value, "rw"))
      && (snmpv2c.Some? && (Community(snmpv2c.value) == Null || InitMethod(base, snmpv2c) != "snmp") ==>
            Get(p, "Community") == Get(base, "Community"))
      && (snmpv2c.None? ==> Get(p, "SNMPVersion") == Get(base, "SNMPVersion") && Get(p, "Community") == Get(base, "Community"))
  {
    assert |"SNMPVersion"| == 11 && |"Community"| == 9 && |"ObjectSubType"| == 13;
  }

  /** Without a "pollers" property the pollers are the defaults of the method. */
  lemma InitPollersDefault(base: Props, snmpv2c: Option<Props>)
    requires Accepted(base, snmpv2c)
    ensures var m := InitMethod(base, snmpv2c);
      Get(base, "pollers") == Null ==> HasDefaultPollers(m) && InitPollers(base, m) == DefaultPollerTypes(DefaultPollersFor(m))
  {
  }

  /** `__init__` raises nothing exactly when the arguments give an IP and the merged properties are accepted. */
  lemma InitErrorNone(ipArg: Value, hostnameArg: Value, properties: Option<Props>, snmpv2c: Option<Props>)
    ensures InitError(ipArg, hostnameArg, properties, snmpv2c).None? <==>
      && (properties.Some? || (Truthy(ipArg) && Truthy(hostnameArg)))
      && IpOf(ipArg, properties) != Null
      && Accepted(BaseProperties(properties, IpOf(ipArg, properties), HostnameOf(hostnameArg, properties)), snmpv2c)
  {
  }

  // ---- diff ----

  /**
   * The diff of `diff`: every local property whose value in the record
   * differs, with the local value; a local key the record lacks is a
   * KeyError.
   */
  function DiffOf(local: Props, details: Props): (r: Result<Props>)
    ensures r.Err? <==> !(local.Keys <= details.Keys)
    ensures r.Err? ==> r.error == KeyError
    ensures r.Ok? ==> forall k :: k in r.value <==> k in local && details[k] != local[k]
    ensures r.Ok? ==> forall k :: k in r.value ==> r.value[k] == local[k]
  {
    if local.Keys <= details.Keys then Ok(map k | k in local && details[k] != local[k] :: local[k]) else Err(KeyError)
  }

  /** The differences among the keys already visited. */
  function DiffSoFar(local: Props, details: Props, done: set<string>): Props
    requires done <= details.Keys
  {
    map k | k in local && k in done && details[k] != local[k] :: local[k]
  }

  /** The loop of `diff`. */
  method DiffLoop(local: Props, details: Props) returns (r: Result<Props>)
    ensures r == DiffOf(local, details)
  {
    var diff: Props := map[];
    var todo := local.Keys;
    while todo != {}
      invariant todo <= local.Keys
      invariant local.Keys - todo <= details.Keys
      invariant diff == DiffSoFar(local, details, local.Keys - todo)
      decreases |todo|
    {
      var k :| k in todo;
      if k !in details {
        return Err(KeyError);
      }
      if details[k] != local[k] {
        diff := diff[k := local[k]];
      }
      todo := todo - {k};
      assert diff.Keys == DiffSoFar(local, details, local.Keys - todo).Keys;
    }
    assert diff.Keys == DiffOf(local, details).value.Keys;
    return Ok(diff);
  }

  // ---- get_uri / get_id ----

  /** The conditions of the lookup: the caption and the IP address, each only when truthy, joined by AND. */
  function WhereClauses(hostname: Value, ip: Value): (w: seq<(string, Value)>)
    ensures forall c :: c in w <==> (c == ("Caption", hostname) && Truthy(hostname)) || (c == ("IPAddress", ip) && Truthy(ip))
  {
    (if Truthy(hostname) then [("Caption", hostname)] else []) + (if Truthy(ip) then [("IPAddress", ip)] else [])
  }

  function UriQuery(hostname: Value, ip: Value): Query
  {
    Query("Orion.Nodes", WhereClauses(hostname, ip))
  }

  /** The URI of the one row the lookup must find. */
  function UriLookup(rows: seq<Props>): (r: Result<Value>)
    ensures r.Ok? ==> |rows| == 1 && "uri" in rows[0] && r.value == rows[0]["uri"]
    ensures |rows| == 0 ==> r == Err(SWObjectNotFoundError)
    ensures |rows| > 1 ==> r == Err(SWNonUniqueResultError)
    ensures |rows| == 1 && "uri" !in rows[0] ==> r == Err(KeyError)
  {
    if |rows| == 0 then Err(SWObjectNotFoundError)
    else if |rows| > 1 then Err(SWNonUniqueResultError)
    else if "uri" !in rows[0] then Err(KeyError)
    else Ok(rows[0]["uri"])
  }

  /** The longest run of digits that ends `s`. */
  function TrailingDigits(s: string): (d: string)
    ensures forall i :: 0 <= i < |d| ==> IsDigit(d[i])
  {
    if s != [] && IsDigit(s[|s| - 1]) then TrailingDigits(s[..|s| - 1]) + [s[|s| - 1]] else []
  }

  /**
   * `get_id`: the number written by the digits that end the URI (a `$` in
   * the pattern also matches before one final newline); a URI without
   * them gives no match (AttributeError), one that is not a string a
   * TypeError.
   */
  function ParseId(uri: Value): (r: Result<int>)
    ensures !uri.Str? ==> r == Err(TypeError)
    ensures r.Ok? ==> r.value >= 0
  {
    if !uri.Str? then Err(TypeError)
    else
      var s := uri.s;
      var stem := if s != [] && s[|s| - 1] == '\n' then s[..|s| - 1] else s;
      var d := TrailingDigits(stem);
      if d == [] then Err(AttributeError) else Ok(DigitsValue(d))
  }

  /** `get_uri(force)` looks the node up: no URI is stored, or `force` is set. */
  predicate LooksUp(uri: Value, force: bool) { !Truthy(uri) || force }

  /**
   * What `get_uri(force)` answers for a node whose stored URI is `uri`:
   * that URI unless it looks the node up; without hostname and IP a
   * ValueError; otherwise the lookup's error, a RecursionError for a falsy
   * URI found, the error of parsing its id, or the URI found.
   */
  function UriAnswer(swis: Swis, uri: Value, hostname: Value, ip: Value, force: bool): (r: Result<Value>)
    ensures r.Ok? ==> Truthy(r.value)
    ensures !LooksUp(uri, force) ==> r == Ok(uri)
    ensures LooksUp(uri, force) && r.Ok? ==> ParseId(r.value).Ok? && UriLookup(swis.RowsFor(UriQuery(hostname, ip))) == r
  {
    if !LooksUp(uri, force) then Ok(uri)
    else if hostname == Null && ip == Null then Err(ValueError)
    else
      var l := UriLookup(swis.RowsFor(UriQuery(hostname, ip)));
      if l.Err? then Err(l.error)
      else if !Truthy(l.value) then Err(RecursionError)
      else if ParseId(l.value).Err? then Err(ParseId(l.value).error)
      else Ok(l.value)
  }

  /** The calls `get_uri(force)` sends: one lookup query when it looks the node up by hostname or IP, else none. */
  function UriCalls(uri: Value, hostname: Value, ip: Value, force: bool): (calls: seq<Call>)
    ensures calls == [] || calls == [QueryCall(UriQuery(hostname, ip))]
    ensures calls != [] <==> LooksUp(uri, force) && !(hostname == Null && ip == Null)
  {
    if LooksUp(uri, force) && !(hostname == Null && ip == Null) then [QueryCall(UriQuery(hostname, ip))] else []
  }

  /** A URI made of a prefix not ending in a digit and a decimal id gives back that id. */
  lemma ParseIdRoundTrip(prefix: string, n: nat)
    requires prefix == [] || !IsDigit(prefix[|prefix| - 1])
    ensures ParseId(Str(prefix + NatText(n))) == Ok(n)
  {
    var s := prefix + NatText(n);
    assert s[|s| - 1] == NatText(n)[|NatText(n)| - 1];
    assert IsDigit(s[|s| - 1]);
    TrailingDigitsOf(prefix, NatText(n));
  }

  lemma {:induction false} TrailingDigitsOf(prefix: string, digits: string)
    requires prefix == [] || !IsDigit(prefix[|prefix| - 1])
    requires forall i :: 0 <= i < |digits| ==> IsDigit(digits[i])
    ensures TrailingDigits(prefix + digits) == digits
    decreases |digits|
  {
    var s := prefix + digits;
    if digits == [] {
      assert s == prefix;
    } else {
      var init := digits[..|digits| - 1];
      assert s[..|s| - 1] == prefix + init;
      assert s[|s| - 1] == digits[|digits| - 1];
      TrailingDigitsOf(prefix, init);
      assert init + [digits[|digits| - 1]] == digits;
    }
  }

  /** The property merge of `__init__`: the defaults, a non-empty properties argument over them, the IP and a truthy hostname. */
  method MergeStep(properties: Option<Props>, ip: Value, hostname: Value) returns (props: Props)
    ensures props == BaseProperties(properties, ip, hostname)
  {
    ghost var merged := if properties.Some? && |properties.value| != 0 then Update(DefaultProperties, properties.value) else DefaultProperties;
    props := DefaultProperties;
    if properties.Some? && |properties.value| != 0 {
      props := Update(props, properties.value);
    }
    assert props == merged;
    props := props["IPAddress" := ip];
    assert props == merged["IPAddress" := ip];
    if Truthy(hostname) {
      props := props["Caption" := hostname];
    }
  }

  /** The polling-method step of `__init__`. */
  method MethodStep(base: Props, snmpv2c: Option<Props>) returns (m: string, props: Props)
    requires var st := Get(base, "ObjectSubType"); Truthy(st) ==> st.Str?
    ensures m == InitMethod(base, snmpv2c) && props == WithMethod(base, snmpv2c)
  {
    props := base;
    var st := Get(props, "ObjectSubType");
    if Truthy(st) {
      m := Lower(st.s);
    } else if snmpv2c.None? {
      m := "icmp";
      props := props["ObjectSubType" := Str("ICMP")];
    } else {
      m := "snmp";
      props := props["ObjectSubType" := Str("SNMP")];
    }
  }

  /** The pollers step of `__init__`. */
  method PollersStep(props: Props, m: string) returns (pollers: Pollers)
    requires Get(props, "pollers") == Null ==> HasDefaultPollers(m)
    ensures pollers == InitPollers(props, m)
  {
    if Get(props, "pollers") == Null {
      pollers := DefaultPollerTypes(DefaultPollersFor(m));
    } else {
      pollers := GivenPollers(Get(props, "pollers"));
    }
  }

  /** The SNMPv2c step of `__init__`. */
  method SnmpStep(p: Props, m: string, snmpv2c: Option<Props>) returns (props: Props)
    ensures props == WithSnmp(p, m, snmpv2c)
  {
    props := p;
    if snmpv2c.Some? {
      props := props["SNMPVersion" := Int(2)];
      var community := Or(Get(snmpv2c.value, "rw"), Get(snmpv2c.value, "ro"));
      if community != Null && m == "snmp" {
        props := props["Community" := community];
      }
    }
  }

  /** The node model: the attributes `__init__` sets and the URI and id found later. */
  class Node {
    const swis: Swis
    var ip: Value
    var hostname: Value
    var id: Value
    var uri: Value
    var snmpv2c: Option<Props>
    var properties: Props
    var customProperties: Option<Props>
    var pollingMethod: string
    var pollers: Pollers

    /**
     * `__init__` for arguments it accepts: the IP and hostname, no URI or
     * id yet, the merged properties, and the inferred polling method and
     * pollers.
     */
    constructor (swis: Swis, ip: Value, hostname: Value, base: Props,
                 snmpv2c: Option<Props>, customProperties: Option<Props>)
      requires Accepted(base, snmpv2c)
      ensures this.swis == swis && this.ip == ip && this.hostname == hostname
      ensures id == Null && uri == Null && this.snmpv2c == snmpv2c && this.customProperties == customProperties
      ensures properties == Finished(base, snmpv2c)
      ensures pollingMethod == InitMethod(base, snmpv2c) && pollers == InitPollers(base, pollingMethod)
    {
      this.swis := swis;
      this.ip := ip;
      this.hostname := hostname;
      id := Null;
      uri := Null;
      this.snmpv2c := snmpv2c;
      this.customProperties := customProperties;
      var m, props := MethodStep(base, snmpv2c);
      pollingMethod := m;
      assert Get(props, "pollers") == Get(base, "pollers") by {
        assert |"pollers"| == 7 && |"ObjectSubType"| == 13;
      }
      var ps := PollersStep(props, m);
      pollers := ps;
      props := SnmpStep(props, m, snmpv2c);
      this.properties := props;
    }

    /**
     * `get_uri`: the stored URI unless none is stored or `force` is set;
     * otherwise the one row the lookup finds gives the URI, and its id is
     * parsed from it. A falsy URI in that row sends `get_id` back into
     * `get_uri` without end.
     */
    method GetUri(force: bool) returns (r: Result<Value>)
      modifies this`uri, this`id, swis`log
      ensures Truthy(old(uri)) && !force ==> r == Ok(old(uri)) && uri == old(uri) && id == old(id) && swis.log == old(swis.log)
      ensures (!Truthy(old(uri)) || force) && hostname == Null && ip == Null ==>
        r == Err(ValueError) && uri == old(uri) && id == old(id) && swis.log == old(swis.log)
      ensures (!Truthy(old(uri)) || force) && !(hostname == Null && ip == Null) ==>
        var l := UriLookup(swis.RowsFor(UriQuery(hostname, ip)));
        && swis.log == old(swis.log) + [QueryCall(UriQuery(hostname, ip))]
        && (l.Err? ==> r == Err(l.error) && uri == old(uri) && id == old(id))
        && (l.Ok? ==> uri == l.value)
        && (l.Ok? && !Truthy(l.value) ==> r == Err(RecursionError) && id == old(id))
        && (l.Ok? && Truthy(l.value) && ParseId(l.value).Err? ==> r == Err(ParseId(l.value).error) && id == old(id))
        && (l.Ok? && Truthy(l.value) && ParseId(l.value).Ok? ==> r == Ok(l.value) && id == Int(ParseId(l.value).value))
      ensures r == UriAnswer(swis, old(uri), hostname, ip, force) && swis.log == old(swis.log) + UriCalls(old(uri), hostname, ip, force)
      ensures r.Ok? ==> uri == r.value
    {
      if Truthy(uri) && !force {
        return Ok(uri);
      }
      if hostname == Null && ip == Null {
        return Err(ValueError);
      }
      var rows := swis.RunQuery(UriQuery(hostname, ip));
      var l := UriLookup(rows);
      if l.Err? {
        return Err(l.error);
      }
      uri := l.value;
      if !Truthy(uri) {
        return Err(RecursionError);
      }
      var parsed := ParseId(uri);
      if parsed.Err? {
        return Err(parsed.error);
      }
      id := Int(parsed.value);
      return Ok(uri);
    }

    /** `get_id`: the id parsed from the URI `get_uri` gives, also stored. */
    method GetId() returns (r: Result<int>)
      modifies this`uri, this`id, swis`log
      ensures Truthy(old(uri)) ==> r == ParseId(old(uri)) && uri == old(uri) && swis.log == old(swis.log)
      ensures r.Ok? ==> id == Int(r.value) && r == ParseId(uri)
      ensures r.Err? && Truthy(old(uri)) ==> id == old(id)
    {
      var u := GetUri(false);
      if u.Err? {
        return Err(u.error);
      }
      var parsed := ParseId(u.value);
      if parsed.Err? {
        return Err(parsed.error);
      }
      id := Int(parsed.value);
      return Ok(parsed.value);
    }

    /** `exists`: whether the lookup finds the node; only "not found" counts as no, other errors propagate. */
    method Exists() returns (r: Result<bool>)
      modifies this`uri, this`id, swis`log
      ensures hostname == Null && ip == Null ==> r == Err(ValueError)
      ensures !(hostname == Null && ip == Null) ==>
        var rows := swis.RowsFor(UriQuery(hostname, ip));
        && swis.log == old(swis.log) + [QueryCall(UriQuery(hostname, ip))]
        && (r == Ok(false) <==> |rows| == 0)
        && (r == Ok(true) ==> |rows| == 1 && "uri" in rows[0] && uri == rows[0]["uri"] && Truthy(uri))
        && (|rows| > 1 ==> r == Err(SWNonUniqueResultError))
    {
      var u := GetUri(true);
      if u == Err(SWObjectNotFoundError) {
        return Ok(false);
      }
      if u.Err? {
        return Err(u.error);
      }
      return Ok(true);
    }

    /**
     * `diff`: against the record read from the node's URI, the local
     * properties (the given ones, or the node's own with the hostname
     * written in as Caption) that differ.
     */
    method Diff(given: Option<Props>) returns (r: Result<Props>)
      modifies this`properties, this`uri, this`id, swis`log
      ensures properties == if given.None? && Truthy(hostname) then old(properties)["Caption" := hostname] else old(properties)
      ensures Extends(old(swis.log), swis.log)
      ensures r.Ok? ==>
        && Truthy(uri) && |swis.log| > 0 && swis.log[|swis.log| - 1] == ReadCall(StrOf(uri))
        && r == DiffOf(if given.Some? then given.value else properties, swis.RecordAt(StrOf(uri)))
      ensures var u := UriAnswer(swis, old(uri), hostname, ip, false);
              var sent := old(swis.log) + UriCalls(old(uri), hostname, ip, false);
        && (u.Err? ==> r == Err(u.error) && swis.log == sent)
        && (u.Ok? ==>
              && uri == u.value && swis.log == sent + [ReadCall(StrOf(u.value))]
              && r == DiffOf(if given.Some? then given.value else properties, swis.RecordAt(StrOf(u.value))))
    {
      var local: Props;
      if given.None? {
        if Truthy(hostname) {
          properties := properties["Caption" := hostname];
        }
        local := properties;
      } else {
        local := given.value;
      }
      ghost var log0 := swis.log;
      var u := GetUri(false);
      if u.Err? {
        return Err(u.error);
      }
      assert Truthy(uri) && u.value == uri;
      ghost var log1 := swis.log;
      var details := swis.Read(StrOf(u.value));
      ExtendsTrans(log0, log1, swis.log);
      r := DiffLoop(local, details);
    }
  }

  /**
   * `Node(swis, **kwargs)`: the IP and hostname taken from the arguments or
   * the properties, then the merge and the inference, or the exception
   * `__init__` raises.
   */
  method NewNode(swis: Swis, ipArg: Value, hostnameArg: Value, properties: Option<Props>,
                 snmpv2c: Option<Props>, customProperties: Option<Props>) returns (r: Result<Node>)
    ensures InitError(ipArg, hostnameArg, properties, snmpv2c).Some? ==> r == Err(InitError(ipArg, hostnameArg, properties, snmpv2c).value)
    ensures InitError(ipArg, hostnameArg, properties, snmpv2c).None? ==>
      && r.Ok? && fresh(r.value)
      && r.value.ip == IpOf(ipArg, properties) && r.value.hostname == HostnameOf(hostnameArg, properties)
      && r.value.properties == InitProperties(ipArg, hostnameArg, properties, snmpv2c)
  {
    if !Truthy(ipArg) && properties.None? {
      return Err(KeyError);
    }
    var ip := if Truthy(ipArg) then ipArg else Get(properties.value, "IPAddress");
    if ip == Null {
      return Err(SWObjectPropertyError);
    }
    if !Truthy(hostnameArg) && properties.None? {
      return Err(KeyError);
    }
    var hostname := if Truthy(hostnameArg) then hostnameArg else Get(properties.value, "Caption");
    var e := InitError(ipArg, hostnameArg, properties, snmpv2c);
    if e.Some? {
      return Err(e.value);
    }
    InitErrorNone(ipArg, hostnameArg, properties, snmpv2c);
    var base := MergeStep(properties, ip, hostname);
    var node := new Node(swis, ip, hostname, base, snmpv2c, customProperties);
    return Ok(node);
  }
}
