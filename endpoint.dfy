/**
 * The `Endpoint` base class of pysolarwinds/endpoints/__init__.py (repeated
 * line for line in pysolarwinds/endpoint.py): an object that knows its SWIS
 * URI or can look it up, caches the remote record, tracks local changes and
 * moves between "no URI", "has URI" and "pending changes" through `create`,
 * `save` and `delete`.
 */
module Endpoints {
  import opened Wrappers
  import opened PyValue
  import opened Transport
  import opened EndpointDiff
  import Utils

  /** `EXCLUDE_CUSTOM_PROPS` (pysolarwinds/defaults.py). */
  const ExcludedCustomProps: set<string> :=
    {"DisplayName", "NodeID", "InstanceType", "Uri", "InstanceSiteId", "Description"}

  /** `_swdata`: the cached remote record; a part that was not read is None. */
  datatype SwData = SwData(properties: Option<Props>, customProperties: Option<Props>)

  /** `_swargs`: the patch built from local attributes. */
  datatype Swargs = Swargs(properties: Props, customProperties: Option<Props>)

  /** `_changes`: what `save` will send. */
  datatype Changes = Changes(properties: Option<Props>, customProperties: Option<Props>)

  /** The `data` argument of `_get_swdata`. */
  datatype DataPart = Both | PropertiesPart | CustomPropertiesPart

  /** The settings an `Endpoint` subclass declares at class level. */
  datatype Config = Config(
    entity: string,
    attrMap: map<string, string>,
    swidKey: string,
    idAttr: string,
    swqueryAttrs: seq<string>,
    swargsAttrs: seq<string>,
    requiredSwargsAttrs: seq<string>,
    /** `_get_attr_updates`: attribute values derived from the cached properties. */
    attrUpdates: Props -> Props)
  {
    /** Every key and patch attribute has a SWIS name in `_attr_map`. */
    predicate Valid()
    {
      && (forall i :: 0 <= i < |swqueryAttrs| ==> swqueryAttrs[i] in attrMap)
      && (forall i :: 0 <= i < |swargsAttrs| ==> swargsAttrs[i] in attrMap)
    }
  }

  // ---- _get_uri ----

  /** One `SELECT Uri ... WHERE <column> = '<value>'` per truthy key attribute, in declared order. */
  function UriQueries(entity: string, attrMap: map<string, string>, keys: seq<string>, attrs: Props): (qs: seq<Query>)
    requires forall i :: 0 <= i < |keys| ==> keys[i] in attrMap
    ensures |qs| <= |keys|
    ensures forall i :: 0 <= i < |qs| ==> qs[i].entity == entity && |qs[i].where| == 1 && Truthy(qs[i].where[0].1)
  {
    if keys == [] then []
    else
      var rest := UriQueries(entity, attrMap, keys[1..], attrs);
      var v := Get(attrs, keys[0]);
      if Truthy(v) then [Query(entity, [(attrMap[keys[0]], v)])] + rest else rest
  }

  /** Index of the first query the server answers with a row, or the number of queries. */
  function FirstHit(swis: Swis, qs: seq<Query>): (n: nat)
    ensures n <= |qs|
    ensures forall j :: 0 <= j < n ==> swis.RowsFor(qs[j]) == []
    ensures n < |qs| ==> swis.RowsFor(qs[n]) != []
  {
    if qs == [] then 0
    else if swis.RowsFor(qs[0]) != [] then 0
    else 1 + FirstHit(swis, qs[1..])
  }

  /** `result[0]["uri"]`; a non-string value is read as no URI. */
  function UriOf(row: Props): Result<string>
  {
    if "uri" !in row then Err(KeyError)
    else if row["uri"].Str? then Ok(row["uri"].s)
    else Ok("")
  }

  /** Outcome of `_get_uri`: its result ("" for None), the new `uri` and the calls made. */
  datatype Lookup = Lookup(result: Result<string>, uri: string, calls: seq<Call>)

  /**
   * `_get_uri`: the cached URI unless it is empty or `refresh` is set;
   * otherwise the first key attribute query that returns a row decides it.
   */
  function UriLookup(config: Config, swis: Swis, attrs: Props, uri: string, refresh: bool): (l: Lookup)
    requires config.Valid()
    ensures uri != "" && !refresh ==> l == Lookup(Ok(uri), uri, [])
    ensures (uri == "" || refresh) && config.swqueryAttrs == [] ==> l == Lookup(Err(SWObjectPropertyError), uri, [])
    ensures l.result.Ok? && l.result.value != "" ==> l.uri == l.result.value
    ensures !(l.result.Ok? && l.result.value != "") ==> l.uri == uri || l.uri == ""
  {
    if uri != "" && !refresh then Lookup(Ok(uri), uri, [])
    else if config.swqueryAttrs == [] then Lookup(Err(SWObjectPropertyError), uri, [])
    else
      var qs := UriQueries(config.entity, config.attrMap, config.swqueryAttrs, attrs);
      var n := FirstHit(swis, qs);
      if n == |qs| then Lookup(Ok(""), uri, QueryLog(qs))
      else
        var r := UriOf(swis.RowsFor(qs[n])[0]);
        Lookup(r, if r.Ok? then r.value else uri, QueryLog(qs[..n + 1]))
  }

  /** Looking up a URI only ever queries. */
  lemma LookupOnlyReads(config: Config, swis: Swis, attrs: Props, uri: string, refresh: bool)
    requires config.Valid()
    ensures var l := UriLookup(config, swis, attrs, uri, refresh);
      forall i :: 0 <= i < |l.calls| ==> l.calls[i].QueryCall?
  {
  }

  /** A cached URI is returned without asking the server. */
  lemma CachedUriNeedsNoQuery(config: Config, swis: Swis, attrs: Props, uri: string)
    requires config.Valid() && uri != ""
    ensures UriLookup(config, swis, attrs, uri, false).calls == []
    ensures UriLookup(config, swis, attrs, uri, false).result == Ok(uri)
  {
  }

  /**
   * With no truthy key attribute nothing is queried and the object is
   * reported absent.
   */
  lemma {:induction false} NoKeysNoLookup(config: Config, swis: Swis, attrs: Props, uri: string, refresh: bool)
    requires config.Valid() && (uri == "" || refresh) && config.swqueryAttrs != []
    requires forall i :: 0 <= i < |config.swqueryAttrs| ==> !Truthy(Get(attrs, config.swqueryAttrs[i]))
    ensures UriLookup(config, swis, attrs, uri, refresh) == Lookup(Ok(""), uri, [])
  {
    NoTruthyKeysNoQueries(config.entity, config.attrMap, config.swqueryAttrs, attrs);
  }

  lemma {:induction false} NoTruthyKeysNoQueries(entity: string, attrMap: map<string, string>, keys: seq<string>, attrs: Props)
    requires forall i :: 0 <= i < |keys| ==> keys[i] in attrMap
    requires forall i :: 0 <= i < |keys| ==> !Truthy(Get(attrs, keys[i]))
    ensures UriQueries(entity, attrMap, keys, attrs) == []
  {
    if keys != [] {
      NoTruthyKeysNoQueries(entity, attrMap, keys[1..], attrs);
    }
  }

  /** The first query the server answers decides the URI, earlier ones having returned nothing. */
  lemma FirstAnsweredQueryWins(config: Config, swis: Swis, attrs: Props, uri: string, refresh: bool)
    requires config.Valid() && (uri == "" || refresh) && config.swqueryAttrs != []
    ensures var qs := UriQueries(config.entity, config.attrMap, config.swqueryAttrs, attrs);
      var l := UriLookup(config, swis, attrs, uri, refresh);
      && (forall j :: 0 <= j < |l.calls| - 1 ==> swis.RowsFor(qs[j]) == [])
      && (|l.calls| < |qs| || (l.calls != [] && swis.RowsFor(qs[|l.calls| - 1]) != []) ==>
            l.calls != [] && l.result == UriOf(swis.RowsFor(qs[|l.calls| - 1])[0]))
  {
    var qs := UriQueries(config.entity, config.attrMap, config.swqueryAttrs, attrs);
    var n := FirstHit(swis, qs);
    var l := UriLookup(config, swis, attrs, uri, refresh);
    if n == |qs| {
      assert |l.calls| == |qs|;
    } else {
      assert l.calls == QueryLog(qs[..n + 1]) && |l.calls| == n + 1;
    }
  }

  // ---- _get_swdata ----

  /**
   * The cache after a read that returned `props` and `cprops` (None for a
   * part that was not read): when something non-empty came back the cache
   * is replaced wholesale, so a part that was not read becomes None;
   * otherwise it is kept.
   */
  function ReplacedSwData(cached: SwData, props: Option<Props>, cprops: Option<Props>): (r: SwData)
    ensures !Filled(props) && !Filled(cprops) ==> r == cached
    ensures Filled(props) || Filled(cprops) ==> r.properties == props && r.customProperties == cprops
  {
    if Filled(props) || Filled(cprops) then SwData(props, cprops) else cached
  }

  /**
   * As written, a refresh of the properties alone forgets the cached custom
   * properties, after which a changed local custom property is no longer
   * detected by the diff.
   */
  lemma PartialRefreshLosesCustomProperties()
    ensures var cached := SwData(Some(map["Caption" := Str("a")]), Some(map["Site" := Str("x")]));
      var after := ReplacedSwData(cached, Some(map["Caption" := Str("b")]), None);
      var local := Some(map["Site" := Str("y")]);
      && CustomPropertyChanges(local, cached.customProperties) == map["Site" := Str("y")]
      && CustomPropertyChanges(local, after.customProperties) == map[]
  {
    var local := map["Site" := Str("y")];
    var data := map["Site" := Str("x")];
    assert "Site" in CustomPropertyChanges(Some(local), Some(data));
  }

  predicate ReadsProperties(part: DataPart) { part == Both || part == PropertiesPart }
  predicate ReadsCustomProperties(part: DataPart) { part == Both || part == CustomPropertiesPart }

  /** `_diff_*` results as stored in `_changes`: None when empty. */
  function NoneIfEmpty(m: Props): (r: Option<Props>)
    ensures r.None? <==> m == map[]
    ensures r.Some? ==> r.value == m
  {
    if |m| == 0 then None else Some(m)
  }

  predicate Pending(c: Changes) { Filled(c.properties) || Filled(c.customProperties) }

  /**
   * The attributes after `refresh` read the properties `props`: `_get_id`
   * stores the SolarWinds id under `id` and the id attribute, then the
   * mapped attribute updates fill only the attributes still falsy, so a
   * truthy id survives them.
   */
  function RefreshedAttrs(config: Config, attrs: Props, props: Props): (r: Props)
    ensures r.Keys == attrs.Keys + {"id", config.idAttr} + config.attrUpdates(props).Keys
    ensures Truthy(Get(props, config.swidKey)) ==>
      r["id"] == Get(props, config.swidKey) && r[config.idAttr] == Get(props, config.swidKey)
    ensures forall k :: k in attrs && Truthy(attrs[k]) && k != "id" && k != config.idAttr ==> r[k] == attrs[k]
  {
    var v := Get(props, config.swidKey);
    var withId := attrs["id" := v][config.idAttr := v];
    UpdatedAttrs(withId, config.attrUpdates(props), false)
  }

  /**
   * What `refresh` of an existing object answers for the cache `data` it
   * ends with: no properties is an AttributeError (`_get_id`), a falsy id
   * SWIDNotFound, and custom properties on an object that keeps none an
   * AttributeError.
   */
  function RefreshResult(config: Config, data: SwData, hasCustomProperties: bool): (r: Result<()>)
    ensures r.Ok? <==> && data.properties.Some? && Truthy(Get(data.properties.value, config.swidKey))
                       && (hasCustomProperties || !Filled(data.customProperties))
    ensures r.Err? ==> r.error in {AttributeError, SWIDNotFound}
  {
    if data.properties.None? then Err(AttributeError)
    else if !Truthy(Get(data.properties.value, config.swidKey)) then Err(SWIDNotFound)
    else if !hasCustomProperties && Filled(data.customProperties) then Err(AttributeError)
    else Ok(())
  }

  /**
   * What `create` answers once its writes are sent and the new object is at
   * `at`: True, unless reading the object back (`_get_swdata`, `_get_id`,
   * then `refresh`) raises.
   */
  function CreateReadBack(config: Config, swis: Swis, cached: SwData, hasCustomProperties: bool, at: string): (r: Result<bool>)
    ensures r.Ok? ==> r.value
    ensures r.Ok? <==> RefreshResult(config, CacheAfterRead(swis, cached, hasCustomProperties, false, Both, at), hasCustomProperties).Ok?
  {
    var f := RefreshResult(config, CacheAfterRead(swis, cached, hasCustomProperties, false, Both, at), hasCustomProperties);
    if f.Ok? then Ok(true) else Err(f.error)
  }

  /** The cache after `_get_swdata(refresh, part)` on an existing object at `at`, given the cache before. */
  function CacheAfterRead(swis: Swis, cached: SwData, hasCustomProperties: bool, refresh: bool, part: DataPart, at: string): SwData
  {
    if (!Filled(cached.properties) && !Filled(cached.customProperties)) || refresh then
      var props := if ReadsProperties(part) then Some(Utils.Sanitized(swis.RecordAt(at))) else None;
      var cprops := if ReadsCustomProperties(part) && hasCustomProperties
        then Some(Utils.Sanitized(swis.RecordAt(at + "/CustomProperties"))) else None;
      ReplacedSwData(cached, props, cprops)
    else cached
  }

  /** The reads `_get_swdata(refresh, part)` sends for an existing object at `at`, given the cache before. */
  function ReadsAfterLookup(cached: SwData, hasCustomProperties: bool, refresh: bool, part: DataPart, at: string): (calls: seq<Call>)
    ensures forall i :: 0 <= i < |calls| ==> IsRead(calls[i])
  {
    if (!Filled(cached.properties) && !Filled(cached.customProperties)) || refresh then
      (if ReadsProperties(part) then [ReadCall(at)] else [])
      + (if ReadsCustomProperties(part) && hasCustomProperties then [ReadCall(at + "/CustomProperties")] else [])
    else []
  }

  /** The `custom_properties` part of the patch: {} when the object has no such attribute. */
  function PatchCustomProps(hasCustomProperties: bool, customProperties: Option<Props>): Option<Props>
  {
    if hasCustomProperties then customProperties else Some(map[])
  }

  /** The `_changes` that `_diff` finds for a patch and a cache. */
  function FoundChanges(present: bool, patch: Swargs, swdata: SwData): Changes
  {
    if present then
      Changes(NoneIfEmpty(PropertyChanges(patch.properties, swdata.properties.GetOr(map[]))),
              NoneIfEmpty(CustomPropertyChanges(patch.customProperties, swdata.customProperties)))
    else Changes(Some(patch.properties), patch.customProperties)
  }

  /** `_swargs` after `_build_swargs`: the patch of the attributes, or the previous one when that patch is empty. */
  function BuiltSwargs(config: Config, attrs: Props, hasCustomProperties: bool, customProperties: Option<Props>,
                       extra: Props, prev: Option<Swargs>): Option<Swargs>
    requires config.Valid()
  {
    var props := PatchProperties(attrs, config.swargsAttrs, config.attrMap, extra);
    var cprops := PatchCustomProps(hasCustomProperties, customProperties);
    if |props| != 0 || Filled(cprops) then Some(Swargs(props, cprops)) else prev
  }

  /**
   * What `_diff` of an existing object comes to: the changes of the patch
   * against the cache, or the AttributeError of reading a patch that was
   * never built or a cache without properties.
   */
  function DiffOutcome(patch: Option<Swargs>, cache: SwData): Result<Changes>
  {
    if patch.None? then Err(AttributeError)
    else if cache.properties.None? && |patch.value.properties| != 0 then Err(AttributeError)
    else Ok(FoundChanges(true, patch.value, cache))
  }

  class Endpoint {
    const config: Config
    const swis: Swis
    /** The SWIS URI; "" stands for None. */
    var uri: string
    /** `_exists`: the last answer of `exists()`. */
    var present: bool
    /** The object's attributes by Python name (including "id"); an absent one reads as None. */
    var attrs: Props
    /** Whether the instance has a `custom_properties` attribute at all. */
    var hasCustomProperties: bool
    var customProperties: Option<Props>
    var swdata: SwData
    var swargs: Option<Swargs>
    var changes: Option<Changes>

    /** The attribute assignments before `exists()` is first asked. */
    constructor (config: Config, swis: Swis, attrs: Props, hasCustomProperties: bool, customProperties: Option<Props>)
      requires config.Valid()
      ensures this.config == config && this.swis == swis && this.attrs == attrs
      ensures this.hasCustomProperties == hasCustomProperties && this.customProperties == customProperties
      ensures uri == "" && !present && swargs.None? && changes.None?
      ensures swdata == SwData(Some(map[]), Some(map[]))
    {
      this.config := config;
      this.swis := swis;
      this.attrs := attrs;
      this.hasCustomProperties := hasCustomProperties;
      this.customProperties := customProperties;
      uri := "";
      present := false;
      swdata := SwData(Some(map[]), Some(map[]));
      swargs := None;
      changes := None;
    }

    /** `_get_uri`. */
    method GetUri(refresh: bool) returns (r: Result<string>)
      requires config.Valid()
      modifies this`uri, swis`log
      ensures var l := UriLookup(config, swis, attrs, old(uri), refresh);
        r == l.result && uri == l.uri && swis.log == old(swis.log) + l.calls
    {
      if uri != "" && !refresh {
        return Ok(uri);
      }
      if config.swqueryAttrs == [] {
        return Err(SWObjectPropertyError);
      }
      var qs := UriQueries(config.entity, config.attrMap, config.swqueryAttrs, attrs);
      var n := AskInTurn(swis, qs);
      if n == |qs| {
        return Ok("");
      }
      r := UriOf(swis.RowsFor(qs[n])[0]);
      if r.Ok? {
        uri := r.value;
      }
    }

    /** `exists()`: whether `_get_uri` yields a non-empty URI, cached in `_exists`. */
    method Exists(refresh: bool) returns (r: Result<bool>)
      requires config.Valid()
      modifies this`uri, this`present, swis`log
      ensures var l := UriLookup(config, swis, attrs, old(uri), refresh);
        && uri == l.uri && swis.log == old(swis.log) + l.calls
        && r == (if l.result.Ok? then Ok(l.result.value != "") else Err(l.result.error))
        && present == (if r.Ok? then r.value else old(present))
      ensures SentSince(old(swis.log), swis.log, [])
      ensures old(uri) != "" && !refresh ==> uri == old(uri) && r == Ok(true) && present
      ensures r != Ok(true) ==> uri == old(uri) || uri == ""
    {
      ghost var log0 := swis.log;
      var u := GetUri(refresh);
      LookupOnlyReads(config, swis, attrs, old(uri), refresh);
      SentReads(log0, UriLookup(config, swis, attrs, old(uri), refresh).calls);
      if u.Err? {
        return Err(u.error);
      }
      present := u.value != "";
      return Ok(present);
    }

    /**
     * `_get_swdata`: raises for an object that does not exist; otherwise
     * reads the requested parts when nothing is cached or `refresh` is set,
     * and replaces the whole cache with what it read.
     */
    method GetSwData(refresh: bool, part: DataPart) returns (r: Result<()>)
      requires config.Valid()
      modifies this`uri, this`present, this`swdata, swis`log
      ensures var l := UriLookup(config, swis, attrs, old(uri), false);
        && uri == l.uri
        && present == (if l.result.Ok? then l.result.value != "" else old(present))
        && (l.result.Err? ==> r == Err(l.result.error) && swdata == old(swdata) && swis.log == old(swis.log) + l.calls)
        && (l.result == Ok("") ==> r == Err(SWObjectDoesNotExist) && swdata == old(swdata) && swis.log == old(swis.log) + l.calls)
        && (l.result.Ok? && l.result.value != "" ==>
              && r == Ok(())
              && swdata == CacheAfterRead(swis, old(swdata), old(hasCustomProperties), refresh, part, l.result.value)
              && swis.log == old(swis.log) + l.calls + ReadsAfterLookup(old(swdata), old(hasCustomProperties), refresh, part, l.result.value))
      ensures SentSince(old(swis.log), swis.log, [])
      ensures r.Ok? ==> uri != "" && present
      ensures old(uri) != "" ==> uri == old(uri) && present && r == Ok(())
    {
      var e := Exists(false);
      if e.Err? {
        return Err(e.error);
      }
      if !e.value {
        return Err(SWObjectDoesNotExist);
      }
      ghost var log1 := swis.log;
      ReadParts(refresh, part);
      SentSinceTrans(old(swis.log), log1, swis.log, [], []);
      return Ok(());
    }

    /** The reading half of `_get_swdata`, once the object is known to exist. */
    method ReadParts(refresh: bool, part: DataPart)
      requires uri != ""
      modifies this`swdata, swis`log
      ensures swdata == CacheAfterRead(swis, old(swdata), hasCustomProperties, refresh, part, uri)
      ensures swis.log == old(swis.log) + ReadsAfterLookup(old(swdata), hasCustomProperties, refresh, part, uri)
      ensures SentSince(old(swis.log), swis.log, [])
    {
      ghost var calls: seq<Call> := [];
      if (!Filled(swdata.properties) && !Filled(swdata.customProperties)) || refresh {
        var props: Option<Props> := None;
        var cprops: Option<Props> := None;
        if ReadsProperties(part) {
          var record := swis.Read(uri);
          var clean := Utils.SanitizeSwdata(record);
          props := Some(clean);
          calls := [ReadCall(uri)];
        }
        assert props == if ReadsProperties(part) then Some(Utils.Sanitized(swis.RecordAt(uri))) else None;
        if ReadsCustomProperties(part) && hasCustomProperties {
          LogAppend(old(swis.log), calls, ReadCall(uri + "/CustomProperties"));
          var record := swis.Read(uri + "/CustomProperties");
          var clean := Utils.SanitizeSwdata(record);
          cprops := Some(clean);
          calls := calls + [ReadCall(uri + "/CustomProperties")];
        }
        assert cprops == if ReadsCustomProperties(part) && hasCustomProperties
          then Some(Utils.Sanitized(swis.RecordAt(uri + "/CustomProperties"))) else None;
        swdata := ReplacedSwData(swdata, props, cprops);
      }
      assert swis.log == old(swis.log) + calls;
      assert calls == ReadsAfterLookup(old(swdata), hasCustomProperties, refresh, part, uri);
      SentReads(old(swis.log), calls);
    }

    /**
     * `_update_attrs`: each update replaces its attribute only when that is
     * falsy or `overwrite` is set (falsy new values become None); a given
     * `cp_updates` replaces `custom_properties`, or sets it to None when empty.
     */
    method UpdateAttrs(updates: Props, cpUpdates: Option<Props>, overwrite: bool)
      modifies this`attrs, this`customProperties, this`hasCustomProperties
      ensures attrs == UpdatedAttrs(old(attrs), updates, overwrite)
      ensures cpUpdates.Some? ==> hasCustomProperties && customProperties == NoneIfEmpty(cpUpdates.value)
      ensures cpUpdates.None? ==> customProperties == old(customProperties) && hasCustomProperties == old(hasCustomProperties)
    {
      attrs := ApplyUpdates(attrs, updates, overwrite);
      if cpUpdates.Some? {
        hasCustomProperties := true;
        customProperties := NoneIfEmpty(cpUpdates.value);
      }
    }

    /** `_get_id`: copies the cached `_swid_key` value into `id` and `_id_attr`, or raises. */
    method GetId() returns (r: Result<()>)
      modifies this`attrs
      ensures swdata.properties.None? ==> r == Err(AttributeError) && attrs == old(attrs)
      ensures swdata.properties.Some? ==>
        var v := Get(swdata.properties.value, config.swidKey);
        && (Truthy(v) ==> r == Ok(()) && attrs == old(attrs)["id" := v][config.idAttr := v])
        && (!Truthy(v) ==> r == Err(SWIDNotFound) && attrs == old(attrs))
    {
      if swdata.properties.None? {
        return Err(AttributeError);
      }
      var v := Get(swdata.properties.value, config.swidKey);
      if !Truthy(v) {
        return Err(SWIDNotFound);
      }
      attrs := attrs["id" := v][config.idAttr := v];
      return Ok(());
    }

    /**
     * `_build_swargs`: the patch of mapped attributes with the extra swargs
     * written over them; `_swargs` is replaced only when the patch has some
     * property or a non-empty custom-property map.
     */
    method BuildSwargs(extra: Props)
      requires config.Valid()
      modifies this`swargs
      ensures swargs == BuiltSwargs(config, attrs, hasCustomProperties, customProperties, extra, old(swargs))
    {
      var props: Props := map[];
      var keys := config.swargsAttrs;
      for i := 0 to |keys|
        invariant props == SwargsProperties(attrs, keys[..i], config.attrMap)
      {
        assert keys[..i + 1][..i] == keys[..i];
        props := props[config.attrMap[keys[i]] := Get(attrs, keys[i])];
      }
      assert keys[..|keys|] == keys;
      props := Update(props, extra);
      var cprops := PatchCustomProps(hasCustomProperties, customProperties);
      if |props| != 0 || Filled(cprops) {
        swargs := Some(Swargs(props, cprops));
      }
    }

    /**
     * `_diff`: for an existing object, the patch against the cache; for a
     * new one, the patch itself. `_changes` is set only when something is
     * pending, and nothing is written to the server. With a cached URI,
     * `exists()` answers at once, so that case is taken apart.
     */
    method Diff(extra: Props) returns (r: Result<()>)
      requires config.Valid()
      modifies this`uri, this`present, this`swdata, this`swargs, this`changes, swis`log
      ensures SentSince(old(swis.log), swis.log, [])
      ensures old(uri) != "" ==> uri == old(uri) && present
      ensures uri != "" ==> DiffedExisting(config, swis, attrs, hasCustomProperties, customProperties, extra, old(swargs), old(swdata), uri,
                                           old(changes), r, swargs, swdata, changes)
      ensures r.Ok? && !present ==> NewDiffed(old(changes), swargs, r, changes)
      ensures r.Err? && uri == "" ==> changes == old(changes)
    {
      if uri != "" {
        r := DiffKnown(extra);
      } else {
        r := DiffLookedUp(extra);
      }
    }

    /** `_diff` with a cached URI: the object exists and is compared with its cache. */
    method DiffKnown(extra: Props) returns (r: Result<()>)
      requires config.Valid() && uri != ""
      modifies this`uri, this`present, this`swdata, this`swargs, this`changes, swis`log
      ensures SentSince(old(swis.log), swis.log, [])
      ensures uri == old(uri) && present
      ensures DiffedExisting(config, swis, attrs, hasCustomProperties, customProperties, extra, old(swargs), old(swdata), uri,
                             old(changes), r, swargs, swdata, changes)
    {
      ghost var log0 := swis.log;
      BuildSwargs(extra);
      var e := Exists(false);
      ghost var log1 := swis.log;
      r := DiffFound(extra, old(swargs));
      SentSinceTrans(log0, log1, swis.log, [], []);
    }

    /** `_diff` without a cached URI: the lookup decides between the cached and the new-object comparison. */
    method DiffLookedUp(extra: Props) returns (r: Result<()>)
      requires config.Valid() && uri == ""
      modifies this`uri, this`present, this`swdata, this`swargs, this`changes, swis`log
      ensures SentSince(old(swis.log), swis.log, [])
      ensures uri != "" ==> DiffedExisting(config, swis, attrs, hasCustomProperties, customProperties, extra, old(swargs), old(swdata), uri,
                                           old(changes), r, swargs, swdata, changes)
      ensures r.Ok? && !present ==> NewDiffed(old(changes), swargs, r, changes)
      ensures r.Err? && uri == "" ==> changes == old(changes)
    {
      ghost var log0, swdata0, changes0, swargs0 := swis.log, swdata, changes, swargs;
      BuildSwargs(extra);
      var e := Exists(false);
      if e.Err? {
        assert uri == "";
        return Err(e.error);
      }
      assert swdata == swdata0 && changes == changes0;
      if e.value {
        ghost var log1 := swis.log;
        r := DiffFound(extra, swargs0);
        SentSinceTrans(log0, log1, swis.log, [], []);
      } else {
        assert uri == "";
        r := DiffNew();
      }
    }

    /** The rest of `_diff` once `exists()` found the object and the patch was built over `prev`. */
    method DiffFound(extra: Props, ghost prev: Option<Swargs>) returns (r: Result<()>)
      requires config.Valid() && uri != ""
      requires swargs == BuiltSwargs(config, attrs, hasCustomProperties, customProperties, extra, prev)
      modifies this`uri, this`present, this`swdata, this`swargs, this`changes, swis`log
      ensures SentSince(old(swis.log), swis.log, [])
      ensures uri == old(uri) && present
      ensures DiffedExisting(config, swis, attrs, hasCustomProperties, customProperties, extra, prev, old(swdata), uri,
                             old(changes), r, swargs, swdata, changes)
    {
      r := DiffCached(extra);
      BuiltTwice(config, attrs, hasCustomProperties, customProperties, extra, prev);
    }

    /** The part of `_diff` for an object whose URI is known: the cache cannot be missing. */
    method DiffCached(extra: Props) returns (r: Result<()>)
      requires config.Valid() && uri != ""
      modifies this`uri, this`present, this`swdata, this`swargs, this`changes, swis`log
      ensures SentSince(old(swis.log), swis.log, [])
      ensures uri == old(uri) && present
      ensures DiffedExisting(config, swis, attrs, hasCustomProperties, customProperties, extra, old(swargs), old(swdata), uri,
                             old(changes), r, swargs, swdata, changes)
    {
      var g := GetSwData(false, Both);
      BuildSwargs(extra);
      r := Compare();
    }

    /** The comparison of `_diff` for an existing object: `_changes` becomes what it finds when something is pending. */
    method Compare() returns (r: Result<()>)
      modifies this`changes
      ensures ExistingDiff(old(changes), DiffOutcome(swargs, swdata), r, changes)
    {
      var d := DiffOutcome(swargs, swdata);
      if swargs.None? {
        return Err(AttributeError);
      }
      if swdata.properties.None? && |swargs.value.properties| != 0 {
        return Err(AttributeError);
      }
      var p := DiffProperties(swargs.value.properties, swdata.properties.GetOr(map[]));
      var c := DiffCustomProperties(swargs.value.customProperties, swdata.customProperties);
      var ch := Changes(p, c);
      assert ch == d.value;
      if Pending(ch) {
        changes := Some(ch);
      }
      return Ok(());
    }

    /** The part of `_diff` for an object that does not exist: the whole patch is pending. */
    method DiffNew() returns (r: Result<()>)
      requires !present
      modifies this`changes
      ensures NewDiffed(old(changes), swargs, r, changes)
    {
      if swargs.None? {
        return Err(AttributeError);
      }
      var ch := Changes(Some(swargs.value.properties), swargs.value.customProperties);
      if Pending(ch) {
        changes := Some(ch);
      }
      return Ok(());
    }

    /** One `swis.update` of `save`, followed by a refresh of the part it changed. */
    method SendPart(target: string, patch: Props, part: DataPart)
      requires config.Valid() && uri != ""
      modifies this`uri, this`present, this`swdata, swis`log
      ensures uri == old(uri) && present
      ensures swdata == CacheAfterRead(swis, old(swdata), hasCustomProperties, true, part, uri)
      ensures SentSince(old(swis.log), swis.log, [UpdateCall(target, patch)])
    {
      swis.Update(target, patch);
      SentWrite(old(swis.log), UpdateCall(target, patch));
      ghost var log1 := swis.log;
      var g := GetSwData(true, part);
      SentSinceTrans(old(swis.log), log1, swis.log, [UpdateCall(target, patch)], []);
    }

    /**
     * The sending half of `save` for an object whose URI is known: each
     * pending part is written and re-read, then `_changes` is cleared.
     */
    method PushChanges() returns (r: Result<bool>)
      requires config.Valid() && uri != ""
      modifies this`uri, this`present, this`swdata, this`changes, swis`log
      ensures uri == old(uri) && changes.None?
      ensures old(changes).None? ==> r == Ok(false) && swis.log == old(swis.log) && swdata == old(swdata)
      ensures old(changes).Some? ==> r == Ok(true) && SentSince(old(swis.log), swis.log, ChangeWrites(uri, old(changes).value))
      ensures old(changes).Some? ==> swdata == CacheAfterPush(swis, old(swdata), hasCustomProperties, uri, old(changes).value)
    {
      if changes.None? {
        return Ok(false);
      }
      var ch := changes.value;
      ghost var w1: seq<Call> := [];
      if Filled(ch.properties) {
        SendPart(uri, ch.properties.value, PropertiesPart);
        w1 := [UpdateCall(uri, ch.properties.value)];
      } else {
        SentNothing(old(swis.log));
      }
      ghost var log1 := swis.log;
      ghost var w2: seq<Call> := [];
      if Filled(ch.customProperties) {
        SendPart(uri + "/CustomProperties", ch.customProperties.value, CustomPropertiesPart);
        w2 := [UpdateCall(uri + "/CustomProperties", ch.customProperties.value)];
      } else {
        SentNothing(log1);
      }
      SentSinceTrans(old(swis.log), log1, swis.log, w1, w2);
      changes := None;
      return Ok(true);
    }

    /** `delete`: removes an existing object and forgets its URI and id. */
    method Delete() returns (r: Result<bool>)
      requires config.Valid()
      modifies this`uri, this`present, this`attrs, swis`log
      ensures var l := UriLookup(config, swis, old(attrs), old(uri), false);
        && (l.result.Err? ==> r == Err(l.result.error) && attrs == old(attrs) && SentSince(old(swis.log), swis.log, []))
        && (l.result == Ok("") ==> r == Ok(false) && !present && attrs == old(attrs) && SentSince(old(swis.log), swis.log, []))
        && (l.result.Ok? && l.result.value != "" ==>
              && r == Ok(true) && uri == "" && !present && attrs == old(attrs)["id" := Null]
              && SentSince(old(swis.log), swis.log, [DeleteCall([l.result.value])]))
    {
      var e := Exists(false);
      if e.Err? {
        return Err(e.error);
      }
      if !e.value {
        return Ok(false);
      }
      ghost var log1 := swis.log;
      swis.Delete([uri]);
      SentWrite(log1, DeleteCall([uri]));
      SentSinceTrans(old(swis.log), log1, swis.log, [], [DeleteCall([uri])]);
      uri := "";
      attrs := attrs["id" := Null];
      present := false;
      return Ok(true);
    }

    /**
     * `refresh`: for an existing object, re-reads the cache when empty,
     * takes the id from it, fills falsy attributes from `_get_attr_updates`
     * and sets `custom_properties` to the merged custom properties.
     */
    method Refresh() returns (r: Result<()>)
      requires config.Valid()
      modifies this`uri, this`present, this`swdata, this`attrs, this`customProperties, this`hasCustomProperties, swis`log
      ensures SentSince(old(swis.log), swis.log, [])
      ensures old(uri) != "" ==> uri == old(uri) && present
      ensures old(uri) != "" ==>
        r == RefreshResult(config, CacheAfterRead(swis, old(swdata), old(hasCustomProperties), false, Both, old(uri)), old(hasCustomProperties))
      ensures r.Ok? && present ==>
        && swdata.properties.Some?
        && Truthy(Get(swdata.properties.value, config.swidKey))
        && Get(attrs, "id") == Get(swdata.properties.value, config.swidKey)
        && attrs == RefreshedAttrs(config, old(attrs), swdata.properties.value)
        && hasCustomProperties
        && customProperties == NoneIfEmpty(RefreshCustomProps(swdata.customProperties, old(customProperties), ExcludedCustomProps))
      ensures r.Ok? && !present ==> attrs == old(attrs) && swdata == old(swdata) && customProperties == old(customProperties)
    {
      var e := Exists(false);
      if e.Err? {
        return Err(e.error);
      }
      if !e.value {
        return Ok(());
      }
      ghost var log1 := swis.log;
      r := RefreshExisting();
      SentSinceTrans(old(swis.log), log1, swis.log, [], []);
    }

    /** The part of `refresh` for an object whose URI is known. */
    method RefreshExisting() returns (r: Result<()>)
      requires config.Valid() && uri != ""
      modifies this`uri, this`present, this`swdata, this`attrs, this`customProperties, this`hasCustomProperties, swis`log
      ensures SentSince(old(swis.log), swis.log, [])
      ensures uri == old(uri) && present
      ensures r == RefreshResult(config, CacheAfterRead(swis, old(swdata), old(hasCustomProperties), false, Both, uri), old(hasCustomProperties))
      ensures r.Ok? ==>
        && swdata.properties.Some?
        && Truthy(Get(swdata.properties.value, config.swidKey))
        && Get(attrs, "id") == Get(swdata.properties.value, config.swidKey)
        && attrs == RefreshedAttrs(config, old(attrs), swdata.properties.value)
        && hasCustomProperties
        && customProperties == NoneIfEmpty(RefreshCustomProps(swdata.customProperties, old(customProperties), ExcludedCustomProps))
    {
      var i := LoadId();
      if i.Err? {
        return Err(i.error);
      }
      r := RefreshLoaded();
    }

    /**
     * `_get_swdata()` then `_get_id()`: for a known URI, the cache as read
     * and the id copied into the attributes, or the error of `_get_id`.
     */
    method LoadId() returns (r: Result<()>)
      requires config.Valid()
      modifies this`uri, this`present, this`swdata, this`attrs, swis`log
      ensures SentSince(old(swis.log), swis.log, [])
      ensures r.Ok? ==> && uri != "" && present && swdata.properties.Some?
                        && Truthy(Get(swdata.properties.value, config.swidKey))
                        && attrs == old(attrs)["id" := Get(swdata.properties.value, config.swidKey)][config.idAttr := Get(swdata.properties.value, config.swidKey)]
      ensures old(uri) != "" ==>
        && uri == old(uri) && present
        && swdata == CacheAfterRead(swis, old(swdata), hasCustomProperties, false, Both, uri)
        && var rr := RefreshResult(config, swdata, true);
           r == (if rr.Ok? then Ok(()) else Err(rr.error))
    {
      ghost var data := CacheAfterRead(swis, swdata, hasCustomProperties, false, Both, uri);
      if uri != "" {
        CachedUriNeedsNoQuery(config, swis, attrs, uri);
      }
      var g := GetSwData(false, Both);
      if g.Err? {
        return Err(g.error);
      }
      assert old(uri) != "" ==> swdata == data;
      r := GetId();
    }

    /** The part of `refresh` after the id is read: the attribute and custom-property updates. */
    method RefreshLoaded() returns (r: Result<()>)
      requires swdata.properties.Some? && Truthy(Get(attrs, "id")) && Get(attrs, "id") == Get(swdata.properties.value, config.swidKey)
      modifies this`attrs, this`customProperties, this`hasCustomProperties
      ensures r == (if !old(hasCustomProperties) && Filled(swdata.customProperties) then Err(AttributeError) else Ok(()))
      ensures r.Ok? ==>
        && Get(attrs, "id") == old(Get(attrs, "id"))
        && attrs == UpdatedAttrs(old(attrs), config.attrUpdates(swdata.properties.value), false)
        && hasCustomProperties
        && customProperties == NoneIfEmpty(RefreshCustomProps(swdata.customProperties, old(customProperties), ExcludedCustomProps))
    {
      if !hasCustomProperties && Filled(swdata.customProperties) {
        return Err(AttributeError);
      }
      var updates := config.attrUpdates(swdata.properties.value);
      var cprops := RefreshCustomProps(swdata.customProperties, customProperties, ExcludedCustomProps);
      UpdatedAttrsKeepTruthy(attrs, updates, "id");
      UpdateAttrs(updates, Some(cprops), false);
      return Ok(());
    }

    /** The writes of `create`: the object itself, then its custom properties if any. */
    method SendCreate(patch: Swargs)
      modifies this`uri, swis`log
      ensures uri == swis.CreatedUri(config.entity, patch.properties)
      ensures SentSince(old(swis.log), swis.log, CreateWrites(config, swis, patch))
    {
      uri := swis.Create(config.entity, patch.properties);
      SentWrite(old(swis.log), CreateCall(config.entity, patch.properties));
      if Filled(patch.customProperties) {
        ghost var log1 := swis.log;
        var c := UpdateCall(uri + "/CustomProperties", patch.customProperties.value);
        swis.Update(uri + "/CustomProperties", patch.customProperties.value);
        SentWrite(log1, c);
        SentSinceTrans(old(swis.log), log1, swis.log, [CreateCall(config.entity, patch.properties)], [c]);
      }
    }

    /**
     * `create`: refuses an existing object (SWObjectExists), a patch that
     * was never built and a falsy required attribute; otherwise creates the
     * object, writes its custom properties, and reads back its data and id.
     */
    method Create(extra: Props) returns (r: Result<bool>)
      requires config.Valid()
      modifies this`uri, this`present, this`swdata, this`swargs, this`attrs, this`customProperties, this`hasCustomProperties, swis`log
      ensures r.Ok? ==> r.value && present
      ensures var l := UriLookup(config, swis, old(attrs), old(uri), false);
        && (l.result.Err? ==> r == Err(l.result.error) && SentSince(old(swis.log), swis.log, []))
        && (l.result.Ok? && l.result.value != "" ==> r == Err(SWObjectExists) && SentSince(old(swis.log), swis.log, []))
        && (l.result == Ok("") ==>
              CreateOutcome(config, swis, old(attrs), BuiltSwargs(config, old(attrs), old(hasCustomProperties), old(customProperties), extra, old(swargs)),
                            old(swdata), old(hasCustomProperties), r, old(swis.log), swis.log))
    {
      var e := Exists(false);
      if e.Err? {
        return Err(e.error);
      }
      if e.value {
        return Err(SWObjectExists);
      }
      ghost var log1 := swis.log;
      r := CreateNew(extra);
      CreatedEarlier(config, swis, old(attrs), BuiltSwargs(config, old(attrs), old(hasCustomProperties), old(customProperties), extra, old(swargs)),
                     old(swdata), old(hasCustomProperties), r, old(swis.log), log1, swis.log);
    }

    /** `create` once `exists()` found nothing: checks the patch and the required attributes, then writes. */
    method CreateNew(extra: Props) returns (r: Result<bool>)
      requires config.Valid()
      modifies this`uri, this`present, this`swdata, this`swargs, this`attrs, this`customProperties, this`hasCustomProperties, swis`log
      ensures r.Ok? ==> r.value && present
      ensures CreateOutcome(config, swis, old(attrs), BuiltSwargs(config, old(attrs), old(hasCustomProperties), old(customProperties), extra, old(swargs)),
                            old(swdata), old(hasCustomProperties), r, old(swis.log), swis.log)
    {
      BuildSwargs(extra);
      if swargs.None? {
        return Err(AttributeError);
      }
      var n := FirstMissing(attrs, config.requiredSwargsAttrs);
      if n < |config.requiredSwargsAttrs| {
        return Err(SWObjectPropertyError);
      }
      r := CreateWrite(swargs.value);
    }

    /** The writing part of `create`: the object and its custom properties, then reading back its data, id and attributes. */
    method CreateWrite(patch: Swargs) returns (r: Result<bool>)
      requires config.Valid()
      modifies this`uri, this`present, this`swdata, this`attrs, this`customProperties, this`hasCustomProperties, swis`log
      ensures r.Ok? ==> r.value && present
      ensures SentSince(old(swis.log), swis.log, CreateWrites(config, swis, patch))
      ensures CreateAnswered(config, swis, patch, old(swdata), old(hasCustomProperties), r)
    {
      ghost var log1 := swis.log;
      ghost var w := CreateWrites(config, swis, patch);
      SendCreate(patch);
      SentSinceTrans(old(swis.log), log1, swis.log, [], w);
      ghost var log2 := swis.log;
      r := ReadBack();
      SentSinceTrans(old(swis.log), log2, swis.log, w, []);
      assert w + [] == w;
    }

    /** The read-back of `create`: `_get_swdata`, `_get_id`, then `refresh`; nothing is written. */
    method ReadBack() returns (r: Result<bool>)
      requires config.Valid()
      modifies this`uri, this`present, this`swdata, this`attrs, this`customProperties, this`hasCustomProperties, swis`log
      ensures r.Ok? ==> r.value && present
      ensures SentSince(old(swis.log), swis.log, [])
      ensures old(uri) != "" ==> r == CreateReadBack(config, swis, old(swdata), old(hasCustomProperties), old(uri))
    {
      var i := LoadId();
      if i.Err? {
        return Err(i.error);
      }
      ghost var log1 := swis.log;
      assert Filled(swdata.properties);
      assert old(uri) != "" ==> CacheAfterRead(swis, swdata, hasCustomProperties, false, Both, uri) == swdata;
      var f := Refresh();
      SentSinceTrans(old(swis.log), log1, swis.log, [], []);
      if f.Err? {
        return Err(f.error);
      }
      return Ok(true);
    }

    /**
     * `save`: for an existing object, sends the pending changes (working
     * them out first when there are none) and answers whether it sent
     * any; for a new one, answers what `create` does.
     */
    method Save(extra: Props) returns (r: Result<bool>)
      requires config.Valid()
      modifies this`uri, this`present, this`swdata, this`swargs, this`changes, this`attrs, this`customProperties, this`hasCustomProperties, swis`log
      ensures SaveOutcome(config, swis, UriLookup(config, swis, old(attrs), old(uri), false),
                          BuiltSwargs(config, old(attrs), old(hasCustomProperties), old(customProperties), extra, old(swargs)),
                          old(swdata), old(hasCustomProperties), old(attrs), old(changes), old(swis.log), swis.log, r, uri, changes, present, swdata)
    {
      BuildSwargs(extra);
      r := SaveBuilt(extra, old(swargs));
    }

    /** `save` once the patch is built over `prev`: `exists()` chooses between sending changes and `create`. */
    method SaveBuilt(extra: Props, ghost prev: Option<Swargs>) returns (r: Result<bool>)
      requires config.Valid() && swargs == BuiltSwargs(config, attrs, hasCustomProperties, customProperties, extra, prev)
      modifies this`uri, this`present, this`swdata, this`swargs, this`changes, this`attrs, this`customProperties, this`hasCustomProperties, swis`log
      ensures SaveOutcome(config, swis, UriLookup(config, swis, old(attrs), old(uri), false),
                          BuiltSwargs(config, old(attrs), old(hasCustomProperties), old(customProperties), extra, prev),
                          old(swdata), old(hasCustomProperties), old(attrs), old(changes), old(swis.log), swis.log, r, uri, changes, present, swdata)
    {
      ghost var l := UriLookup(config, swis, attrs, uri, false);
      var e := Exists(false);
      if e.Err? {
        assert l.result == Err(e.error);
        return Err(e.error);
      }
      if e.value {
        assert l.result == Ok(uri);
        r := SaveFound(extra, prev, l, old(swis.log));
      } else {
        r := SaveNew(extra, prev, l, old(swis.log));
      }
    }

    /** `save` once `exists()` found the object at `l`, the patch built over `prev`: the changes are sent. */
    method SaveFound(extra: Props, ghost prev: Option<Swargs>, ghost l: Lookup, ghost log0: seq<Call>) returns (r: Result<bool>)
      requires config.Valid() && uri != "" && l.result == Ok(uri)
      requires swargs == BuiltSwargs(config, attrs, hasCustomProperties, customProperties, extra, prev) && SentSince(log0, swis.log, [])
      modifies this`uri, this`present, this`swdata, this`swargs, this`changes, swis`log
      ensures SaveOutcome(config, swis, l, BuiltSwargs(config, attrs, hasCustomProperties, customProperties, extra, prev),
                          old(swdata), hasCustomProperties, attrs, old(changes), log0, swis.log, r, uri, changes, present, swdata)
    {
      ghost var log1 := swis.log;
      ghost var p := swargs;
      ghost var d := DiffOutcome(p, CacheAfterRead(swis, swdata, hasCustomProperties, false, Both, uri));
      r := SaveExisting(extra);
      BuiltTwice(config, attrs, hasCustomProperties, customProperties, extra, prev);
      SaveFoundMeets(config, swis, l, p, old(swdata), hasCustomProperties, attrs, old(changes), log0, log1, swis.log, r, uri, changes, present, d, swdata);
    }

    /** `save` once `exists()` found nothing, the patch built over `prev`: `create` decides. */
    method SaveNew(extra: Props, ghost prev: Option<Swargs>, ghost l: Lookup, ghost log0: seq<Call>) returns (r: Result<bool>)
      requires config.Valid() && uri == "" && l == UriLookup(config, swis, attrs, "", false) && l.result == Ok("")
      requires swargs == BuiltSwargs(config, attrs, hasCustomProperties, customProperties, extra, prev) && SentSince(log0, swis.log, [])
      modifies this`uri, this`present, this`swdata, this`swargs, this`changes, this`attrs, this`customProperties, this`hasCustomProperties, swis`log
      ensures SaveOutcome(config, swis, l, BuiltSwargs(config, old(attrs), old(hasCustomProperties), old(customProperties), extra, prev),
                          old(swdata), old(hasCustomProperties), old(attrs), old(changes), log0, swis.log, r, uri, changes, present, swdata)
    {
      ghost var log1 := swis.log;
      r := Create(extra);
      BuiltTwice(config, old(attrs), old(hasCustomProperties), old(customProperties), extra, prev);
      SaveCreated(config, swis, l, BuiltSwargs(config, old(attrs), old(hasCustomProperties), old(customProperties), extra, prev),
                  old(swdata), old(hasCustomProperties), old(attrs), old(changes), log0, log1, swis.log, r, uri, changes, present, swdata);
    }

    /** The branch of `save` for an object whose URI is known. */
    method SaveExisting(extra: Props) returns (r: Result<bool>)
      requires config.Valid() && uri != ""
      modifies this`uri, this`present, this`swdata, this`swargs, this`changes, swis`log
      ensures uri == old(uri) && changes.None?
      ensures SavedExisting(old(changes), DiffOutcome(BuiltSwargs(config, attrs, hasCustomProperties, customProperties, extra, old(swargs)),
                                                      CacheAfterRead(swis, old(swdata), hasCustomProperties, false, Both, uri)),
                            uri, r, old(swis.log), swis.log)
      ensures swdata == CacheAfterSave(swis, old(swdata), hasCustomProperties,
                                       BuiltSwargs(config, attrs, hasCustomProperties, customProperties, extra, old(swargs)), old(changes), uri)
    {
      if changes.Some? {
        r := PushChanges();
        return;
      }
      var d := Diff(extra);
      ghost var log2 := swis.log;
      if d.Err? {
        SentNothing(log2);
        return Err(d.error);
      }
      ghost var w := if changes.Some? then ChangeWrites(uri, changes.value) else [];
      if changes.None? {
        SentNothing(log2);
      }
      r := PushChanges();
      SentSinceTrans(old(swis.log), log2, swis.log, [], w);
    }

  }

  /** The cache after `save` has sent `ch` to the object at `at`: each part sent is re-read on its own. */
  function CacheAfterPush(swis: Swis, cached: SwData, hasCustomProperties: bool, at: string, ch: Changes): SwData
  {
    var c1 := if Filled(ch.properties) then CacheAfterRead(swis, cached, hasCustomProperties, true, PropertiesPart, at) else cached;
    if Filled(ch.customProperties) then CacheAfterRead(swis, c1, hasCustomProperties, true, CustomPropertiesPart, at) else c1
  }

  /**
   * As written, a `save` that sends both parts re-reads the custom
   * properties last and so replaces the cached properties with None: the
   * next diff of a patch with properties raises AttributeError.
   */
  lemma SaveBothLosesProperties(swis: Swis, cached: SwData, at: string, ch: Changes, patch: Swargs)
    requires Filled(ch.properties) && Filled(ch.customProperties)
    requires Filled(Some(Utils.Sanitized(swis.RecordAt(at + "/CustomProperties"))))
    ensures CacheAfterPush(swis, cached, true, at, ch).properties.None?
    ensures |patch.properties| != 0 ==> DiffOutcome(Some(patch), CacheAfterPush(swis, cached, true, at, ch)) == Err(AttributeError)
  {
  }

  /** The cache after a `save` that re-reads each part it sent, keeping the part it did not send. */
  function MergedCacheAfterPush(swis: Swis, cached: SwData, hasCustomProperties: bool, at: string, ch: Changes): (r: SwData)
    ensures Filled(ch.properties) ==> r.properties == Some(Utils.Sanitized(swis.RecordAt(at)))
    ensures !Filled(ch.properties) ==> r.properties == cached.properties
    ensures Filled(ch.customProperties) && hasCustomProperties ==>
              r.customProperties == Some(Utils.Sanitized(swis.RecordAt(at + "/CustomProperties")))
    ensures !(Filled(ch.customProperties) && hasCustomProperties) ==> r.customProperties == cached.customProperties
  {
    var props := if Filled(ch.properties) then Some(Utils.Sanitized(swis.RecordAt(at))) else cached.properties;
    var cprops := if Filled(ch.customProperties) && hasCustomProperties
      then Some(Utils.Sanitized(swis.RecordAt(at + "/CustomProperties"))) else cached.customProperties;
    SwData(props, cprops)
  }

  /** With the merge, a cache that held properties still does after any `save`, so the next diff can compare. */
  lemma MergedPushKeepsProperties(swis: Swis, cached: SwData, hasCustomProperties: bool, at: string, ch: Changes, patch: Swargs)
    requires cached.properties.Some?
    ensures MergedCacheAfterPush(swis, cached, hasCustomProperties, at, ch).properties.Some?
    ensures DiffOutcome(Some(patch), MergedCacheAfterPush(swis, cached, hasCustomProperties, at, ch)).Ok?
  {
  }

  /**
   * The cache after `save` of the existing object at `at`: pending changes
   * are pushed over the cache as it was; otherwise the cache is read if
   * empty, and the changes the patch `p` finds against it, if any, pushed.
   */
  function CacheAfterSave(swis: Swis, cache0: SwData, hasCustomProperties: bool, p: Option<Swargs>, pending: Option<Changes>, at: string): SwData
  {
    if pending.Some? then CacheAfterPush(swis, cache0, hasCustomProperties, at, pending.value)
    else
      var c := CacheAfterRead(swis, cache0, hasCustomProperties, false, Both, at);
      var d := DiffOutcome(p, c);
      if d.Ok? && Pending(d.value) then CacheAfterPush(swis, c, hasCustomProperties, at, d.value) else c
  }

  /** Building the patch again from the same attributes gives the same `_swargs`. */
  lemma BuiltTwice(config: Config, attrs: Props, hasCustomProperties: bool, customProperties: Option<Props>, extra: Props, prev: Option<Swargs>)
    requires config.Valid()
    ensures var once := BuiltSwargs(config, attrs, hasCustomProperties, customProperties, extra, prev);
      BuiltSwargs(config, attrs, hasCustomProperties, customProperties, extra, once) == once
  {
  }

  /** `_diff` of an existing object at `at`: the patch rebuilt, the cache read if empty, the changes found. */
  predicate DiffedExisting(config: Config, swis: Swis, attrs: Props, hasCustomProperties: bool, customProperties: Option<Props>, extra: Props,
                           prevSwargs: Option<Swargs>, prevSwdata: SwData, at: string,
                           prevChanges: Option<Changes>, r: Result<()>, swargs: Option<Swargs>, swdata: SwData, changes: Option<Changes>)
    requires config.Valid()
  {
    && swargs == BuiltSwargs(config, attrs, hasCustomProperties, customProperties, extra, prevSwargs)
    && swdata == CacheAfterRead(swis, prevSwdata, hasCustomProperties, false, Both, at)
    && ExistingDiff(prevChanges, DiffOutcome(swargs, swdata), r, changes)
  }

  /**
   * What `save` does, given the lookup of `exists()` and the patch it
   * builds: a failed lookup raises; an existing object is saved as
   * `SavedExisting` says and its changes cleared; a new one is created.
   */
  predicate SaveOutcome(config: Config, swis: Swis, l: Lookup, p: Option<Swargs>, cache0: SwData, hasCustomProperties: bool, attrs0: Props,
                        pending: Option<Changes>, log0: seq<Call>, log1: seq<Call>, r: Result<bool>, uri: string, changes: Option<Changes>, present: bool,
                        swdata: SwData)
  {
    if l.result.Err? then r == Err(l.result.error) && SentSince(log0, log1, [])
    else if l.result.value != "" then
      && uri == l.result.value && changes.None?
      && SavedExisting(pending, DiffOutcome(p, CacheAfterRead(swis, cache0, hasCustomProperties, false, Both, uri)), uri, r, log0, log1)
      && swdata == CacheAfterSave(swis, cache0, hasCustomProperties, p, pending, uri)
    else CreateOutcome(config, swis, attrs0, p, cache0, hasCustomProperties, r, log0, log1) && (r.Ok? ==> r.value && present)
  }

  /** The existing-object branch of `save` meets `SaveOutcome`. */
  lemma SaveFoundMeets(config: Config, swis: Swis, l: Lookup, p: Option<Swargs>, cache0: SwData, hasCustomProperties: bool, attrs0: Props,
                  pending: Option<Changes>, log0: seq<Call>, log1: seq<Call>, log2: seq<Call>, r: Result<bool>, uri: string,
                  changes: Option<Changes>, present: bool, d: Result<Changes>, swdata: SwData)
    requires l.result.Ok? && l.result.value != "" && uri == l.result.value && changes.None?
    requires swdata == CacheAfterSave(swis, cache0, hasCustomProperties, p, pending, uri)
    requires d == DiffOutcome(p, CacheAfterRead(swis, cache0, hasCustomProperties, false, Both, uri))
    requires SentSince(log0, log1, []) && SavedExisting(pending, d, uri, r, log1, log2)
    ensures SaveOutcome(config, swis, l, p, cache0, hasCustomProperties, attrs0, pending, log0, log2, r, uri, changes, present, swdata)
  {
    SavedEarlier(log0, log1, log2, pending, d, uri, r);
  }

  /** The new-object branch of `save` meets `SaveOutcome`. */
  lemma SaveCreated(config: Config, swis: Swis, l: Lookup, p: Option<Swargs>, cache0: SwData, hasCustomProperties: bool, attrs0: Props,
                    pending: Option<Changes>, log0: seq<Call>, log1: seq<Call>, log2: seq<Call>, r: Result<bool>, uri: string,
                    changes: Option<Changes>, present: bool, swdata: SwData)
    requires l.result == Ok("")
    requires SentSince(log0, log1, []) && CreateOutcome(config, swis, attrs0, p, cache0, hasCustomProperties, r, log1, log2) && (r.Ok? ==> r.value && present)
    ensures SaveOutcome(config, swis, l, p, cache0, hasCustomProperties, attrs0, pending, log0, log2, r, uri, changes, present, swdata)
  {
    CreatedEarlier(config, swis, attrs0, p, cache0, hasCustomProperties, r, log0, log1, log2);
  }

  /**
   * `_diff` of an object that does not exist: the whole patch is pending,
   * and a patch that was never built raises AttributeError.
   */
  predicate NewDiffed(before: Option<Changes>, swargs: Option<Swargs>, r: Result<()>, after: Option<Changes>)
  {
    if swargs.None? then r == Err(AttributeError) && after == before
    else
      var ch := FoundChanges(false, swargs.value, SwData(None, None));
      r == Ok(()) && after == if Pending(ch) then Some(ch) else before
  }

  /** Every attribute named in `keys` is truthy. */
  predicate AllTruthy(attrs: Props, keys: seq<string>)
  {
    forall i :: 0 <= i < |keys| ==> Truthy(Get(attrs, keys[i]))
  }

  /**
   * What `create` does once the object is known not to exist, for the
   * patch `p` it builds: an AttributeError when no patch was ever built,
   * SWObjectPropertyError for a falsy required attribute (nothing sent in
   * either case), else the creation writes and nothing more, whatever the
   * read-back answers.
   */
  predicate CreateOutcome(config: Config, swis: Swis, attrs: Props, p: Option<Swargs>, cache0: SwData, hasCustomProperties: bool,
                         r: Result<bool>, log0: seq<Call>, log1: seq<Call>)
  {
    if p.None? then r == Err(AttributeError) && SentSince(log0, log1, [])
    else if !AllTruthy(attrs, config.requiredSwargsAttrs) then r == Err(SWObjectPropertyError) && SentSince(log0, log1, [])
    else
      && SentSince(log0, log1, CreateWrites(config, swis, p.value))
      && CreateAnswered(config, swis, p.value, cache0, hasCustomProperties, r)
  }

  /**
   * What `create` answers once it wrote `patch`: the read-back of the new
   * object, when the server answered a URI for it.
   */
  predicate CreateAnswered(config: Config, swis: Swis, patch: Swargs, cache0: SwData, hasCustomProperties: bool, r: Result<bool>)
  {
    var at := swis.CreatedUri(config.entity, patch.properties);
    at != "" ==> r == CreateReadBack(config, swis, cache0, hasCustomProperties, at)
  }

  /** `_diff` of an existing object: `_changes` becomes what it finds when something is pending. */
  predicate ExistingDiff(before: Option<Changes>, d: Result<Changes>, r: Result<()>, after: Option<Changes>)
  {
    if d.Err? then r == Err(d.error) && after == before
    else r == Ok(()) && after == if Pending(d.value) then Some(d.value) else before
  }

  /**
   * What `save` of an existing object at `at` does, given its `_changes`
   * and what `_diff` would find: pending changes are sent as they are;
   * otherwise a failing diff raises, an empty one answers False and sends
   * nothing, and a non-empty one is sent and answers True.
   */
  predicate SavedExisting(pending: Option<Changes>, d: Result<Changes>, at: string, r: Result<bool>, log0: seq<Call>, log1: seq<Call>)
  {
    if pending.Some? then r == Ok(true) && SentSince(log0, log1, ChangeWrites(at, pending.value))
    else if d.Err? then r == Err(d.error) && SentSince(log0, log1, [])
    else if !Pending(d.value) then r == Ok(false) && SentSince(log0, log1, [])
    else r == Ok(true) && SentSince(log0, log1, ChangeWrites(at, d.value))
  }

  /** Lookups before the save send nothing, so the save's writes are all that was sent. */
  lemma SavedEarlier(log0: seq<Call>, log1: seq<Call>, log2: seq<Call>, pending: Option<Changes>, d: Result<Changes>, at: string, r: Result<bool>)
    requires SentSince(log0, log1, []) && SavedExisting(pending, d, at, r, log1, log2)
    ensures SavedExisting(pending, d, at, r, log0, log2)
  {
    var w := if pending.Some? then ChangeWrites(at, pending.value)
             else if d.Err? || !Pending(d.value) then [] else ChangeWrites(at, d.value);
    assert SentSince(log1, log2, w);
    SentSinceTrans(log0, log1, log2, [], w);
    assert [] + w == w;
  }

  /** Lookups before `create` send nothing, so its writes are all that was sent. */
  lemma CreatedEarlier(config: Config, swis: Swis, attrs: Props, p: Option<Swargs>, cache0: SwData, hasCustomProperties: bool,
                       r: Result<bool>, log0: seq<Call>, log1: seq<Call>, log2: seq<Call>)
    requires SentSince(log0, log1, []) && CreateOutcome(config, swis, attrs, p, cache0, hasCustomProperties, r, log1, log2)
    ensures CreateOutcome(config, swis, attrs, p, cache0, hasCustomProperties, r, log0, log2)
  {
    var w := if p.None? || !AllTruthy(attrs, config.requiredSwargsAttrs) then [] else CreateWrites(config, swis, p.value);
    assert SentSince(log1, log2, w);
    SentSinceTrans(log0, log1, log2, [], w);
    assert [] + w == w;
  }

  /**
   * `save` answers False exactly when nothing was pending and the diff
   * found nothing; it then sends nothing, and whenever it answers True it
   * has sent at least one update.
   */
  lemma SaveFalseIffNothingPending(pending: Option<Changes>, d: Result<Changes>, at: string, r: Result<bool>, log0: seq<Call>, log1: seq<Call>)
    requires SavedExisting(pending, d, at, r, log0, log1)
    ensures r == Ok(false) <==> pending.None? && d.Ok? && !Pending(d.value)
    ensures r == Ok(false) ==> Writes(log1[|log0|..]) == []
    ensures r == Ok(true) && (pending.Some? ==> Pending(pending.value)) ==> Writes(log1[|log0|..]) != []
  {
  }

  /** The updates `save` sends for pending changes to the object at `at`, in order. */
  function ChangeWrites(at: string, ch: Changes): (w: seq<Call>)
    ensures |w| == (if Filled(ch.properties) then 1 else 0) + (if Filled(ch.customProperties) then 1 else 0)
    ensures forall i :: 0 <= i < |w| ==> w[i].UpdateCall? && !IsRead(w[i])
  {
    (if Filled(ch.properties) then [UpdateCall(at, ch.properties.value)] else [])
    + (if Filled(ch.customProperties) then [UpdateCall(at + "/CustomProperties", ch.customProperties.value)] else [])
  }

  /** The writes `create` sends for a patch: the creation, then the custom properties if any. */
  function CreateWrites(config: Config, swis: Swis, patch: Swargs): (w: seq<Call>)
    ensures |w| >= 1 && w[0] == CreateCall(config.entity, patch.properties)
    ensures forall i :: 0 <= i < |w| ==> !IsRead(w[i])
  {
    [CreateCall(config.entity, patch.properties)]
    + (if Filled(patch.customProperties)
       then [UpdateCall(swis.CreatedUri(config.entity, patch.properties) + "/CustomProperties", patch.customProperties.value)]
       else [])
  }

  /** Index of the first required attribute that is falsy, or the number of them. */
  method FirstMissing(attrs: Props, required: seq<string>) returns (n: nat)
    ensures n <= |required|
    ensures forall j :: 0 <= j < n ==> Truthy(Get(attrs, required[j]))
    ensures n < |required| ==> !Truthy(Get(attrs, required[n]))
  {
    n := 0;
    while n < |required| && Truthy(Get(attrs, required[n]))
      invariant n <= |required|
      invariant forall j :: 0 <= j < n ==> Truthy(Get(attrs, required[j]))
    {
      n := n + 1;
    }
  }

  /**
   * Sends the queries one by one and stops at the first that returns a row;
   * gives that query's index, or the number of queries when none answers.
   */
  method AskInTurn(swis: Swis, qs: seq<Query>) returns (n: nat)
    modifies swis`log
    ensures n == FirstHit(swis, qs)
    ensures n < |qs| ==> swis.log == old(swis.log) + QueryLog(qs[..n + 1])
    ensures n == |qs| ==> swis.log == old(swis.log) + QueryLog(qs)
  {
    ghost var log0 := swis.log;
    n := 0;
    while n < |qs|
      invariant n <= FirstHit(swis, qs)
      invariant swis.log == log0 + QueryLog(qs[..n])
    {
      QueryLogStep(log0, qs, n);
      var rows := swis.RunQuery(qs[n]);
      if rows != [] {
        return;
      }
      n := n + 1;
    }
    assert qs[..n] == qs;
  }

  lemma {:induction false} FirstHitIs(swis: Swis, qs: seq<Query>, i: nat)
    requires i < |qs| && swis.RowsFor(qs[i]) != []
    requires forall j :: 0 <= j < i ==> swis.RowsFor(qs[j]) == []
    ensures FirstHit(swis, qs) == i
  {
    if i > 0 {
      FirstHitIs(swis, qs[1..], i - 1);
    }
  }

  lemma {:induction false} FirstHitNone(swis: Swis, qs: seq<Query>)
    requires forall j :: 0 <= j < |qs| ==> swis.RowsFor(qs[j]) == []
    ensures FirstHit(swis, qs) == |qs|
  {
    if qs != [] {
      FirstHitNone(swis, qs[1..]);
    }
  }

  // ---- NewEndpoint ----

  /** A `_uri_template` with two `{}` fields: `head{}mid{}tail`. */
  datatype UriTemplate = UriTemplate(head: string, mid: string, tail: string)
  {
    /** `template.format(host, id)`. */
    function Format(host: string, id: Value): (r: string)
      ensures r == head + host + mid + StrOf(id) + tail
    {
      head + host + mid + StrOf(id) + tail
    }
  }

  /** `data.get("Uri")`, with a non-string value read as no URI. */
  function DataUri(data: Props): string
  {
    match Get(data, "Uri")
    case Str(s) => s
    case _ => ""
  }

  /**
   * The URI `NewEndpoint.__init__` settles on: the given one; else, with
   * nothing to go on, the subclass lookup or a ValueError; else the one in
   * `data`, which wins over the template filled with the id.
   */
  function InitialUri(host: string, template: UriTemplate, id: Value, uri: string, data: Option<Props>, lookedUp: string): (r: Result<string>)
  {
    if !Truthy(id) && uri == "" && !Filled(data) then
      (if lookedUp != "" then Ok(lookedUp) else Err(ValueError))
    else if uri != "" then Ok(uri)
    else if Filled(data) then Ok(DataUri(data.value))
    else Ok(template.Format(host, id))
  }

  /** Only an object with no id, no URI, no data and no subclass lookup is refused. */
  lemma InitialUriFails(host: string, template: UriTemplate, id: Value, uri: string, data: Option<Props>, lookedUp: string)
    ensures InitialUri(host, template, id, uri, data, lookedUp).Err?
        <==> !Truthy(id) && uri == "" && !Filled(data) && lookedUp == ""
  {
  }

  /** Without a URI, supplied data decides it over the id; the template is used only without data. */
  lemma InitialUriPrecedence(host: string, template: UriTemplate, id: Value, data: Option<Props>, lookedUp: string)
    requires Truthy(id) || Filled(data)
    ensures Filled(data) ==> InitialUri(host, template, id, "", data, lookedUp) == Ok(DataUri(data.value))
    ensures !Filled(data) ==> InitialUri(host, template, id, "", data, lookedUp) == Ok(template.Format(host, id))
  {
  }

  /** A given URI is kept whatever else is passed. */
  lemma InitialUriGiven(host: string, template: UriTemplate, id: Value, uri: string, data: Option<Props>, lookedUp: string)
    requires uri != ""
    ensures InitialUri(host, template, id, uri, data, lookedUp) == Ok(uri)
  {
  }

  /** The payload of `NewEndpoint.save`: each `_write_attr_map` property under its SWIS name, later entries winning. */
  function WritePayload(attrs: Props, writeMap: seq<(string, string)>): (r: Props)
    decreases |writeMap|
  {
    if writeMap == [] then map[]
    else
      var last := writeMap[|writeMap| - 1];
      WritePayload(attrs, writeMap[..|writeMap| - 1])[last.1 := Get(attrs, last.0)]
  }

  /**
   * The payload names exactly the mapped properties, and with distinct SWIS
   * names each carries the current value of its attribute.
   */
  lemma {:induction false} WritePayloadShape(attrs: Props, writeMap: seq<(string, string)>)
    ensures forall k :: k in WritePayload(attrs, writeMap) <==> exists i :: 0 <= i < |writeMap| && writeMap[i].1 == k
    ensures (forall i, j :: 0 <= i < j < |writeMap| ==> writeMap[i].1 != writeMap[j].1) ==>
      forall i :: 0 <= i < |writeMap| ==> WritePayload(attrs, writeMap)[writeMap[i].1] == Get(attrs, writeMap[i].0)
    decreases |writeMap|
  {
    if writeMap != [] {
      var init := writeMap[..|writeMap| - 1];
      WritePayloadShape(attrs, init);
      forall k | k in WritePayload(attrs, writeMap) ensures exists i :: 0 <= i < |writeMap| && writeMap[i].1 == k {
        if k != writeMap[|writeMap| - 1].1 {
          assert k in WritePayload(attrs, init);
          var i :| 0 <= i < |init| && init[i].1 == k;
          assert writeMap[i].1 == k;
        }
      }
      forall k | exists i :: 0 <= i < |writeMap| && writeMap[i].1 == k ensures k in WritePayload(attrs, writeMap) {
        var i :| 0 <= i < |writeMap| && writeMap[i].1 == k;
        if i < |init| {
          assert init[i].1 == k;
        }
      }
    }
  }

  /**
   * `save` of pysolarwinds/endpoints/__init__.py, whose `updates={}` default
   * is one dict shared by every call: given the shared dict, an explicit
   * argument (None when omitted) and the attributes, the payload sent and
   * the shared dict afterwards.
   */
  function SharedDefaultSave(shared: Props, explicit: Option<Props>, attrs: Props, writeMap: seq<(string, string)>): (Props, Props)
  {
    var updates := if explicit.Some? then explicit.value else shared;
    var sent := if |updates| == 0 then WritePayload(attrs, writeMap) else updates;
    (sent, if explicit.Some? then shared else sent)
  }

  /**
   * As written, a second argument-less `save` resends the values the first
   * one collected: after the caption changes from "a" to "b", "a" is sent again.
   */
  lemma StaleSaveAfterChange()
    ensures var writeMap := [("caption", "Caption")];
      var first := SharedDefaultSave(map[], None, map["caption" := Str("a")], writeMap);
      var second := SharedDefaultSave(first.1, None, map["caption" := Str("b")], writeMap);
      && first.0 == map["Caption" := Str("a")]
      && second.0 == map["Caption" := Str("a")]
      && second.0 != WritePayload(map["caption" := Str("b")], writeMap)
  {
    var writeMap := [("caption", "Caption")];
    assert writeMap[..0] == [];
    assert WritePayload(map["caption" := Str("a")], writeMap) == map["Caption" := Str("a")];
    assert WritePayload(map["caption" := Str("b")], writeMap) == map["Caption" := Str("b")];
    assert map["Caption" := Str("a")]["Caption"] != map["Caption" := Str("b")]["Caption"];
  }

  /**
   * As written, once an argument-less `save` has sent a non-empty payload,
   * every later argument-less `save` sends that same payload again and
   * keeps it as the shared dict, whatever the attributes hold by then.
   */
  lemma SharedDefaultResends(shared: Props, attrs: Props, later: Props, writeMap: seq<(string, string)>)
    requires |SharedDefaultSave(shared, None, attrs, writeMap).0| != 0
    ensures var first := SharedDefaultSave(shared, None, attrs, writeMap);
      SharedDefaultSave(first.1, None, later, writeMap) == first
  {
  }

  /**
   * `NewEndpoint`: an entity addressed by URI whose `data` is the record
   * read from SWIS; the attributes set from keyword arguments live in `attrs`.
   */
  class NewEndpoint {
    const swis: Swis
    const template: UriTemplate
    /** `_write_attr_map`: attribute name to SWIS property, in declaration order. */
    const writeMap: seq<(string, string)>
    var id: Value
    /** "" stands for None. */
    var uri: string
    var data: Option<Props>
    var attrs: Props

    /** The assignments at the top of `__init__`, keyword arguments included. */
    constructor (swis: Swis, template: UriTemplate, writeMap: seq<(string, string)>,
                 id: Value, uri: string, data: Option<Props>, kwargs: Props)
      ensures this.swis == swis && this.template == template && this.writeMap == writeMap
      ensures this.id == id && this.uri == uri && this.data == data && attrs == kwargs
    {
      this.swis := swis;
      this.template := template;
      this.writeMap := writeMap;
      this.id := id;
      this.uri := uri;
      this.data := data;
      attrs := kwargs;
    }

    /**
     * The rest of `__init__` in pysolarwinds/endpoint.py: settle the URI
     * (`lookedUp` is what the subclass `_get_uri` returns), then read the
     * record when no data was given.
     */
    method Resolve(lookedUp: string) returns (r: Result<()>)
      modifies this`uri, this`data, swis`log
      ensures var u := InitialUri(swis.host, template, old(id), old(uri), old(data), lookedUp);
        && (u.Err? ==> r == Err(ValueError) && uri == old(uri) && data == old(data) && swis.log == old(swis.log))
        && (u.Ok? ==> (&& r == Ok(()) && uri == u.value
                       && (Filled(old(data)) ==> data == old(data) && swis.log == old(swis.log))
                       && (!Filled(old(data)) ==> data == Some(swis.RecordAt(uri)) && swis.log == old(swis.log) + [ReadCall(uri)])))
    {
      if !Truthy(id) && uri == "" && !Filled(data) {
        if lookedUp != "" {
          uri := lookedUp;
        } else {
          return Err(ValueError);
        }
      }
      if uri == "" {
        if Truthy(id) {
          uri := template.Format(swis.host, id);
        }
        if Filled(data) {
          uri := DataUri(data.value);
        }
      }
      if !Filled(data) {
        Read();
      }
      return Ok(());
    }

    /**
     * `__init__` of pysolarwinds/endpoints/__init__.py: as `Resolve`, then a
     * missing id is taken from the record by the subclass `_id` (`idOf`).
     */
    method ResolveWithId(lookedUp: string, idOf: Props -> Value) returns (r: Result<()>)
      modifies this`uri, this`data, this`id, swis`log
      ensures var u := InitialUri(swis.host, template, old(id), old(uri), old(data), lookedUp);
        && (u.Err? ==> r == Err(ValueError) && id == old(id) && uri == old(uri))
        && (u.Ok? ==> (&& r == Ok(()) && uri == u.value && data.Some?
                       && id == (if Truthy(old(id)) then old(id) else idOf(data.value))))
    {
      r := Resolve(lookedUp);
      if r.Err? {
        return;
      }
      if !Truthy(id) {
        id := idOf(data.value);
      }
    }

    /** `read`. */
    method Read()
      modifies this`data, swis`log
      ensures data == Some(swis.RecordAt(uri))
      ensures swis.log == old(swis.log) + [ReadCall(uri)]
    {
      var record := swis.Read(uri);
      data := Some(record);
    }

    /** `delete`: one delete call for the URI; nothing local changes. */
    method Delete()
      modifies swis`log
      ensures swis.log == old(swis.log) + [DeleteCall([uri])]
    {
      swis.Delete([uri]);
    }

    /** `save` of pysolarwinds/endpoint.py: every mapped property is sent, changed or not. */
    method Save()
      modifies swis`log
      ensures swis.log == old(swis.log) + [UpdateCall(uri, WritePayload(attrs, writeMap))]
    {
      var updates: Props := map[];
      for i := 0 to |writeMap|
        invariant updates == WritePayload(attrs, writeMap[..i])
      {
        assert writeMap[..i + 1][..i] == writeMap[..i];
        updates := updates[writeMap[i].1 := Get(attrs, writeMap[i].0)];
      }
      assert writeMap[..|writeMap|] == writeMap;
      swis.Update(uri, updates);
    }
  }
}
