/**
 * The node model of the second generation (pysolarwinds/models/node.py):
 * the URI lookup by caption and IP address, which must find exactly one
 * node, and the create, read, update and delete calls built on it.
 */
module ModelNode {
  import opened Wrappers
  import opened PyValue
  import opened Transport
  import LegacyModelNode

  /** The lookup of `_get_uri`: the same AND of the truthy caption and IP conditions as the first generation. */
  function UriQuery(hostname: Value, ip: Value): (q: Query)
    ensures q.entity == "Orion.Nodes"
    ensures forall c :: c in q.where <==> (c == ("Caption", hostname) && Truthy(hostname)) || (c == ("IPAddress", ip) && Truthy(ip))
  {
    LegacyModelNode.UriQuery(hostname, ip)
  }

  /** The URI of the one row found; no row and several rows are both a ValueError. */
  function UriResult(rows: seq<Props>): (r: Result<Value>)
    ensures r.Ok? <==> |rows| == 1 && "uri" in rows[0]
    ensures r.Ok? ==> r.value == rows[0]["uri"]
    ensures |rows| != 1 ==> r == Err(ValueError)
    ensures |rows| == 1 && "uri" !in rows[0] ==> r == Err(KeyError)
  {
    if |rows| == 0 then Err(ValueError)
    else if |rows| > 1 then Err(ValueError)
    else if "uri" !in rows[0] then Err(KeyError)
    else Ok(rows[0]["uri"])
  }

  /** Whether the lookup runs at all: it needs a caption or an IP address. */
  predicate CanLook(hostname: Value, ip: Value)
  {
    hostname != Null || ip != Null
  }

  /** `_get_uri`: a ValueError without caption and IP, else one query and its single URI. */
  method GetUri(swis: Swis, hostname: Value, ip: Value) returns (r: Result<Value>)
    modifies swis`log
    ensures !CanLook(hostname, ip) ==> r == Err(ValueError) && swis.log == old(swis.log)
    ensures CanLook(hostname, ip) ==>
      && swis.log == old(swis.log) + [QueryCall(UriQuery(hostname, ip))]
      && r == UriResult(swis.RowsFor(UriQuery(hostname, ip)))
  {
    if hostname == Null && ip == Null {
      return Err(ValueError);
    }
    var rows := swis.RunQuery(UriQuery(hostname, ip));
    r := UriResult(rows);
  }

  // ---- exists ----

  /** `exists` as written: the truthiness of the single URI, so a node that is not there raises. */
  function ExistsAnswerAsWritten(rows: seq<Props>): (r: Result<bool>)
    ensures r.Ok? <==> UriResult(rows).Ok?
    ensures r.Err? ==> r.error == UriResult(rows).error
  {
    var u := UriResult(rows);
    if u.Err? then Err(u.error) else Ok(Truthy(u.value))
  }

  /** `exists` as intended: no matching node answers False. */
  function ExistsAnswer(rows: seq<Props>): (r: Result<bool>)
    ensures |rows| == 0 ==> r == Ok(false)
    ensures |rows| > 0 ==> r == ExistsAnswerAsWritten(rows)
  {
    if |rows| == 0 then Ok(false) else ExistsAnswerAsWritten(rows)
  }

  /** The lookup that finds nothing raises as written, and answers False as intended. */
  lemma MissingNodeRaises()
    ensures ExistsAnswerAsWritten([]) == Err(ValueError)
    ensures ExistsAnswer([]) == Ok(false)
  {
  }

  /**
   * The intended answer: True exactly when one row with a truthy URI
   * matches, False exactly when none matches or its URI is falsy, and an
   * error for several matches or a row without a URI.
   */
  lemma ExistsAnswerMeaning(rows: seq<Props>)
    ensures ExistsAnswer(rows) == Ok(true) <==> |rows| == 1 && "uri" in rows[0] && Truthy(rows[0]["uri"])
    ensures ExistsAnswer(rows) == Ok(false) <==> |rows| == 0 || (|rows| == 1 && "uri" in rows[0] && !Truthy(rows[0]["uri"]))
    ensures |rows| > 1 ==> ExistsAnswer(rows) == Err(ValueError)
    ensures |rows| == 1 && "uri" !in rows[0] ==> ExistsAnswer(rows) == Err(KeyError)
  {
  }

  /** `exists`: one lookup query, answered as intended. */
  method Exists(swis: Swis, hostname: Value, ip: Value) returns (r: Result<bool>)
    modifies swis`log
    ensures !CanLook(hostname, ip) ==> r == Err(ValueError) && swis.log == old(swis.log)
    ensures CanLook(hostname, ip) ==>
      && swis.log == old(swis.log) + [QueryCall(UriQuery(hostname, ip))]
      && r == ExistsAnswer(swis.RowsFor(UriQuery(hostname, ip)))
  {
    if hostname == Null && ip == Null {
      return Err(ValueError);
    }
    var rows := swis.RunQuery(UriQuery(hostname, ip));
    r := ExistsAnswer(rows);
  }

  // ---- the calls that act on one node ----

  /** The URI a call acts on: the one given, or else the one the lookup finds. */
  function Target(swis: Swis, hostname: Value, ip: Value, uri: Option<string>): (r: Result<string>)
    ensures uri.Some? ==> r == Ok(uri.value)
    ensures uri.None? && !CanLook(hostname, ip) ==> r == Err(ValueError)
    ensures uri.None? && CanLook(hostname, ip) ==>
      var l := UriResult(swis.RowsFor(UriQuery(hostname, ip)));
      (r.Ok? <==> l.Ok?) && (l.Ok? ==> r.value == StrOf(l.value)) && (l.Err? ==> r.error == l.error)
  {
    if uri.Some? then Ok(uri.value)
    else if !CanLook(hostname, ip) then Err(ValueError)
    else
      var l := UriResult(swis.RowsFor(UriQuery(hostname, ip)));
      if l.Err? then Err(l.error) else Ok(StrOf(l.value))
  }

  /** The queries sent to find that URI: one exactly when no URI is given and the lookup can run. */
  function LookupCalls(hostname: Value, ip: Value, uri: Option<string>): (c: seq<Call>)
    ensures |c| <= 1
    ensures forall i :: 0 <= i < |c| ==> c[i].QueryCall?
  {
    if uri.None? && CanLook(hostname, ip) then [QueryCall(UriQuery(hostname, ip))] else []
  }

  method ResolveUri(swis: Swis, hostname: Value, ip: Value, uri: Option<string>) returns (r: Result<string>)
    modifies swis`log
    ensures r == Target(swis, hostname, ip, uri)
    ensures swis.log == old(swis.log) + LookupCalls(hostname, ip, uri)
  {
    if uri.Some? {
      return Ok(uri.value);
    }
    var u := GetUri(swis, hostname, ip);
    if u.Err? {
      return Err(u.error);
    }
    return Ok(StrOf(u.value));
  }

  /** The "results" entry of a record, or a KeyError. */
  function ResultsOf(record: Props): (r: Result<Value>)
    ensures r.Ok? <==> "results" in record
    ensures r.Ok? ==> r.value == record["results"]
    ensures r.Err? ==> r.error == KeyError
  {
    if "results" in record then Ok(record["results"]) else Err(KeyError)
  }

  /** `get`: the "results" entry of the node's record; nothing is written. */
  method Read(swis: Swis, hostname: Value, ip: Value, uri: Option<string>) returns (r: Result<Value>)
    modifies swis`log
    ensures var t := Target(swis, hostname, ip, uri);
      && (t.Err? ==> r == Err(t.error) && swis.log == old(swis.log) + LookupCalls(hostname, ip, uri))
      && (t.Ok? ==> r == ResultsOf(swis.RecordAt(t.value)))
      && (t.Ok? ==> swis.log == old(swis.log) + LookupCalls(hostname, ip, uri) + [ReadCall(t.value)])
    ensures SentSince(old(swis.log), swis.log, [])
  {
    ghost var log0 := swis.log;
    var target := ResolveUri(swis, hostname, ip, uri);
    if target.Err? {
      SentReads(log0, LookupCalls(hostname, ip, uri));
      return Err(target.error);
    }
    var record := swis.Read(target.value);
    r := ResultsOf(record);
    assert swis.log == log0 + (LookupCalls(hostname, ip, uri) + [ReadCall(target.value)]);
    SentReads(log0, LookupCalls(hostname, ip, uri) + [ReadCall(target.value)]);
  }

  /** `delete`: the one node's URI deleted, and nothing else written. */
  method Delete(swis: Swis, hostname: Value, ip: Value, uri: Option<string>) returns (r: Result<()>)
    modifies swis`log
    ensures var t := Target(swis, hostname, ip, uri);
      && (t.Err? ==> r == Err(t.error) && SentSince(old(swis.log), swis.log, []))
      && (t.Ok? ==> r == Ok(()) && SentSince(old(swis.log), swis.log, [DeleteCall([t.value])]))
    ensures uri.Some? ==> swis.log == old(swis.log) + [DeleteCall([uri.value])]
  {
    ghost var log0 := swis.log;
    var target := ResolveUri(swis, hostname, ip, uri);
    SentReads(log0, LookupCalls(hostname, ip, uri));
    if target.Err? {
      return Err(target.error);
    }
    ghost var log1 := swis.log;
    swis.Delete([target.value]);
    SentWrite(log1, DeleteCall([target.value]));
    SentSinceTrans(log0, log1, swis.log, [], [DeleteCall([target.value])]);
    return Ok(());
  }

  // ---- update ----

  /** The properties `update` sends: a truthy hostname as Caption and a truthy IP as IPAddress over the given ones. */
  function UpdateProps(hostname: Value, ip: Value, properties: Props): (p: Props)
    ensures Truthy(hostname) ==> Get(p, "Caption") == hostname
    ensures Truthy(ip) ==> Get(p, "IPAddress") == ip
    ensures forall k :: k in properties && (k == "Caption" ==> !Truthy(hostname)) && (k == "IPAddress" ==> !Truthy(ip)) ==>
      k in p && p[k] == properties[k]
    ensures forall k :: k in p ==> k in properties || k == "Caption" || k == "IPAddress"
  {
    var withCaption := if Truthy(hostname) then properties["Caption" := hostname] else properties;
    if Truthy(ip) then withCaption["IPAddress" := ip] else withCaption
  }

  /** The writes `update` intends: the properties to the node, the custom properties to its CustomProperties, each only when non-empty. */
  function UpdateCalls(uri: string, hostname: Value, ip: Value, properties: Props, customProperties: Props): (c: seq<Call>)
    ensures |c| == (if |properties| > 0 then 1 else 0) + (if |customProperties| > 0 then 1 else 0)
    ensures forall i :: 0 <= i < |c| ==> !IsRead(c[i])
  {
    (if |properties| > 0 then [UpdateCall(uri, UpdateProps(hostname, ip, properties))] else [])
    + (if |customProperties| > 0 then [UpdateCall(uri + "/CustomProperties", customProperties)] else [])
  }

  /**
   * `update` as written: after the lookup, the first write names the
   * module-level `swis`, which does not exist, so any non-empty argument
   * ends in a NameError with nothing written.
   */
  function UpdateOutcomeAsWritten(properties: Props, customProperties: Props): (r: Result<seq<Call>>)
  {
    if |properties| > 0 || |customProperties| > 0 then Err(NameError) else Ok([])
  }

  /** As written, an update of anything writes nothing; as intended, it writes what it was given. */
  lemma UpdateNeverWrites(uri: string, hostname: Value, ip: Value, properties: Props, customProperties: Props)
    requires |properties| > 0 || |customProperties| > 0
    ensures UpdateOutcomeAsWritten(properties, customProperties) == Err(NameError)
    ensures UpdateCalls(uri, hostname, ip, properties, customProperties) != []
  {
  }

  /** Calls that all write are reported as sent, in order. */
  lemma {:induction false} WritesOnly(past: seq<Call>, calls: seq<Call>)
    requires forall i :: 0 <= i < |calls| ==> !IsRead(calls[i])
    ensures SentSince(past, past + calls, calls)
  {
    assert (past + calls)[..|past|] == past;
    assert (past + calls)[|past|..] == calls;
    if calls != [] {
      WritesOnly(past, calls[1..]);
      assert calls == [calls[0]] + calls[1..];
      WritesAppend([calls[0]], calls[1..]);
      assert Writes([calls[0]]) == [calls[0]] by {
        assert [calls[0]][1..] == [];
      }
    }
  }

  /** `update`: the URI resolved, then the intended writes. */
  method UpdateNode(swis: Swis, hostname: Value, ip: Value, uri: Option<string>, properties: Props, customProperties: Props)
    returns (r: Result<()>)
    modifies swis`log
    ensures var t := Target(swis, hostname, ip, uri);
      && (t.Err? ==> r == Err(t.error) && SentSince(old(swis.log), swis.log, []))
      && (t.Ok? ==> r == Ok(()) && SentSince(old(swis.log), swis.log, UpdateCalls(t.value, hostname, ip, properties, customProperties)))
  {
    ghost var log0 := swis.log;
    var target := ResolveUri(swis, hostname, ip, uri);
    SentReads(log0, LookupCalls(hostname, ip, uri));
    if target.Err? {
      return Err(target.error);
    }
    ghost var log1 := swis.log;
    if |properties| > 0 {
      swis.Update(target.value, UpdateProps(hostname, ip, properties));
    }
    if |customProperties| > 0 {
      swis.Update(target.value + "/CustomProperties", customProperties);
    }
    var calls := UpdateCalls(target.value, hostname, ip, properties, customProperties);
    assert swis.log == log1 + calls;
    WritesOnly(log1, calls);
    SentSinceTrans(log0, log1, swis.log, [], calls);
    return Ok(());
  }

  // ---- create ----

  /** The defaults `create` starts from. */
  const CreateDefaults: Props := map["EngineID" := Int(1)]["ObjectSubType" := Str("SNMP")]["SNMPVersion" := Int(2)]

  /**
   * What `create` raises before it sends anything: without a properties
   * map, a falsy IP or hostname argument fails at `.get` (AttributeError)
   * and otherwise the merge of None fails (TypeError); with one, an IP that
   * is None in both places is a ValueError.
   */
  function CreateError(hostname: Value, ip: Value, properties: Option<Props>): (e: Option<Error>)
    ensures properties.None? ==> e.Some? && (e.value == AttributeError <==> !Truthy(ip) || !Truthy(hostname))
    ensures properties.Some? ==> (e.Some? <==> Or(ip, Get(properties.value, "IPAddress")) == Null)
    ensures e.Some? ==> e.value == AttributeError || e.value == TypeError || e.value == ValueError
  {
    if properties.None? then
      (if !Truthy(ip) || !Truthy(hostname) then Some(AttributeError) else Some(TypeError))
    else if Or(ip, Get(properties.value, "IPAddress")) == Null then Some(ValueError)
    else None
  }

  /** The payload as written: the IP is stored under the misspelt key "IPAddres". */
  function CreatePropsAsWritten(hostname: Value, ip: Value, properties: Props): Props
  {
    var theIp := Or(ip, Get(properties, "IPAddress"));
    var theHostname := Or(hostname, Get(properties, "Caption"));
    var props := Update(CreateDefaults, properties)["IPAddres" := theIp];
    if Truthy(theHostname) then props["Caption" := theHostname] else props
  }

  /** The payload intended: the IP stored under "IPAddress". */
  function CreateProps(hostname: Value, ip: Value, properties: Props): Props
  {
    var theIp := Or(ip, Get(properties, "IPAddress"));
    var theHostname := Or(hostname, Get(properties, "Caption"));
    var props := Update(CreateDefaults, properties)["IPAddress" := theIp];
    if Truthy(theHostname) then props["Caption" := theHostname] else props
  }

  /** As written, an IP argument never reaches the payload's "IPAddress": the properties' own entry (or none) is sent instead. */
  lemma MisspeltIpKey(hostname: Value, ip: Value, properties: Props)
    requires Truthy(ip)
    ensures Get(CreatePropsAsWritten(hostname, ip, properties), "IPAddress") == Get(properties, "IPAddress")
    ensures Get(CreatePropsAsWritten(hostname, ip, properties), "IPAddres") == ip
    ensures Get(CreateProps(hostname, ip, properties), "IPAddress") == ip
  {
    assert |"IPAddress"| == 9 && |"IPAddres"| == 8 && |"Caption"| == 7;
    assert "IPAddress" !in CreateDefaults by {
      assert |"EngineID"| == 8 && |"ObjectSubType"| == 13 && |"SNMPVersion"| == 11;
    }
  }

  /**
   * The intended payload: the polling IP, a truthy hostname as Caption,
   * each default unless the properties override it, every other given
   * property unchanged, and no key besides these.
   */
  lemma CreatePropsMeaning(hostname: Value, ip: Value, properties: Props, k: string)
    ensures var p := CreateProps(hostname, ip, properties);
      && Get(p, "IPAddress") == Or(ip, Get(properties, "IPAddress"))
      && (Truthy(Or(hostname, Get(properties, "Caption"))) ==> Get(p, "Caption") == Or(hostname, Get(properties, "Caption")))
      && ("EngineID" !in properties ==> Get(p, "EngineID") == Int(1))
      && ("ObjectSubType" !in properties ==> Get(p, "ObjectSubType") == Str("SNMP"))
      && ("SNMPVersion" !in properties ==> Get(p, "SNMPVersion") == Int(2))
      && (k in properties && k != "IPAddress" && k != "Caption" ==> Get(p, k) == properties[k])
      && (k in p ==> k in properties || k in CreateDefaults || k == "IPAddress" || k == "Caption")
  {
    assert |"IPAddress"| == 9 && |"Caption"| == 7 && |"EngineID"| == 8;
    assert |"ObjectSubType"| == 13 && |"SNMPVersion"| == 11;
  }

  /**
   * The create call `create` sends as written: the payload with the IP under
   * "IPAddres", and, when the custom properties given are not empty, the
   * keyword `CustomProperties` holding them as a dictionary in place of any
   * value the payload had under that key.
   */
  function CreateCallAsWritten(hostname: Value, ip: Value, properties: Props, customProperties: Option<Props>): (c: Call)
    ensures customProperties.None? || customProperties.value == map[] ==>
      c == CreateCall("Orion.Nodes", CreatePropsAsWritten(hostname, ip, properties))
    ensures customProperties.Some? && customProperties.value != map[] ==>
      && c.CreateNestedCall? && c.entity == "Orion.Nodes"
      && c.nested == map["CustomProperties" := customProperties.value]
      && c.props.Keys + {"CustomProperties"} == CreatePropsAsWritten(hostname, ip, properties).Keys + {"CustomProperties"}
      && forall k :: k in c.props ==> k != "CustomProperties" && c.props[k] == CreatePropsAsWritten(hostname, ip, properties)[k]
  {
    var props := CreatePropsAsWritten(hostname, ip, properties);
    if customProperties.None? || customProperties.value == map[] then CreateCall("Orion.Nodes", props)
    else CreateNestedCall("Orion.Nodes", props - {"CustomProperties"}, map["CustomProperties" := customProperties.value])
  }

  /** The payload `create` builds step by step from the IP and hostname it settled on. */
  method Payload(hostname: Value, ip: Value, properties: Props, theIp: Value, theHostname: Value) returns (props: Props)
    requires theIp == Or(ip, Get(properties, "IPAddress")) && theHostname == Or(hostname, Get(properties, "Caption"))
    ensures props == CreatePropsAsWritten(hostname, ip, properties)
  {
    props := CreateDefaults;
    props := Update(props, properties);
    props := props["IPAddres" := theIp];
    if Truthy(theHostname) {
      props := props["Caption" := theHostname];
    }
  }

  /**
   * `create` as written: the checks, then the payload built step by step
   * (the IP under "IPAddres") and sent as one create, with the custom
   * properties nested in it when there are any.
   */
  method Create(swis: Swis, hostname: Value, ip: Value, properties: Option<Props>, customProperties: Option<Props>)
    returns (r: Result<string>)
    modifies swis`log
    ensures CreateError(hostname, ip, properties).Some? ==>
      r == Err(CreateError(hostname, ip, properties).value) && swis.log == old(swis.log)
    ensures CreateError(hostname, ip, properties).None? ==>
      && r == Ok(swis.CreatedUri("Orion.Nodes", CreateCallAsWritten(hostname, ip, properties.value, customProperties).props))
      && swis.log == old(swis.log) + [CreateCallAsWritten(hostname, ip, properties.value, customProperties)]
  {
    if properties.None? {
      if !Truthy(ip) || !Truthy(hostname) {
        return Err(AttributeError);
      }
      return Err(TypeError);
    }
    var theIp := Or(ip, Get(properties.value, "IPAddress"));
    var theHostname := Or(hostname, Get(properties.value, "Caption"));
    if theIp == Null {
      return Err(ValueError);
    }
    var props := Payload(hostname, ip, properties.value, theIp, theHostname);
    ghost var call := CreateCallAsWritten(hostname, ip, properties.value, customProperties);
    if customProperties.Some? && customProperties.value != map[] {
      assert call == CreateNestedCall("Orion.Nodes", props - {"CustomProperties"}, map["CustomProperties" := customProperties.value]);
      var uri := swis.CreateNested("Orion.Nodes", props - {"CustomProperties"}, map["CustomProperties" := customProperties.value]);
      return Ok(uri);
    }
    assert call == CreateCall("Orion.Nodes", props);
    var uri := swis.Create("Orion.Nodes", props);
    return Ok(uri);
  }
}
