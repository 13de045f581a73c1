/**
 * The `Endpoint` base class of the older generation (solarwinds/endpoint.py).
 * It follows the same lifecycle as the newer one but tests for None where the
 * newer one tests for falsiness, keys patch properties by the attribute name
 * without underscores, diffs the cached keys lower-cased, and answers
 * `create` on an existing object with False instead of raising.
 */
module LegacyEndpoints {
  import opened Wrappers
  import opened PyValue
  import opened Transport
  import opened Text
  import Utils

  /** The custom properties `refresh` never copies back. */
  const ExcludedCustomProps: set<string> :=
    {"DisplayName", "NodeID", "InstanceType", "Uri", "InstanceSiteId", "Description"}

  /** `_swdata` once set: a part that was not read is None. */
  datatype SwData = SwData(properties: Option<Props>, customProperties: Option<Props>)

  /** `_swargs`: an empty part is None. */
  datatype Swargs = Swargs(properties: Option<Props>, customProperties: Option<Props>)

  /** `_changes`. */
  datatype Changes = Changes(properties: Option<Props>, customProperties: Option<Props>)

  datatype DataPart = Both | PropertiesPart | CustomPropertiesPart

  /** The class-level settings of a subclass. */
  datatype Config = Config(
    entity: string,
    swidKey: string,
    idAttr: string,
    swqueryAttrs: seq<string>,
    swargsAttrs: seq<string>,
    requiredSwargsAttrs: seq<string>,
    /** `_get_attr_updates`, from the cached properties. */
    attrUpdates: Props -> Props,
    /** `_get_extra_swargs`, from the attributes. */
    extraSwargs: Props -> Props)

  /** `NoneIfEmpty`: a map that is empty is stored as None. */
  function NoneIfEmpty(m: Props): (r: Option<Props>)
    ensures r.None? <==> |m| == 0
    ensures r.Some? ==> r.value == m
  {
    if |m| == 0 then None else Some(m)
  }

  predicate Filled(m: Option<Props>) { m.Some? && |m.value| != 0 }

  // ---- _get_uri ----

  /** One query per key attribute that is not None, keyed by the attribute name without underscores. */
  function KeyQueries(entity: string, keys: seq<string>, attrs: Props): (qs: seq<Query>)
    ensures |qs| <= |keys|
    ensures forall j :: 0 <= j < |qs| ==> qs[j].entity == entity && |qs[j].where| == 1 && qs[j].where[0].1 != Null
  {
    if keys == [] then []
    else
      var rest := KeyQueries(entity, keys[1..], attrs);
      var v := Get(attrs, keys[0]);
      if v != Null then [Query(entity, [(Utils.Unscored(keys[0]), v)])] + rest else rest
  }

  /** What `swis.query` hands to `_get_uri` for a list of rows. */
  function Parse(rows: seq<Props>): Utils.Parsed
  {
    if |rows| == 0 then Utils.NoRows
    else if |rows| == 1 then Utils.OneRow(rows[0])
    else Utils.ManyRows(rows)
  }

  /** Whether `if result:` accepts a parsed answer: a non-empty row or a list of rows. */
  predicate Answers(rows: seq<Props>)
  {
    match Parse(rows)
    case NoRows => false
    case OneRow(row) => |row| != 0
    case ManyRows(_) => true
  }

  /** Index of the first query whose answer is accepted, or the number of queries. */
  function FirstHit(swis: Swis, qs: seq<Query>): (n: nat)
    ensures n <= |qs|
    ensures forall j :: 0 <= j < n ==> !Answers(swis.RowsFor(qs[j]))
    ensures n < |qs| ==> Answers(swis.RowsFor(qs[n]))
  {
    if qs == [] then 0
    else if Answers(swis.RowsFor(qs[0])) then 0
    else 1 + FirstHit(swis, qs[1..])
  }

  /** `result["uri"]`: a list of rows cannot be indexed by a string. */
  function UriOf(answer: Utils.Parsed): Result<Option<string>>
  {
    match answer
    case NoRows => Err(TypeError)
    case ManyRows(_) => Err(TypeError)
    case OneRow(row) =>
      if "uri" !in row then Err(KeyError)
      else if row["uri"] == Null then Ok(None)
      else Ok(Some(StrOf(row["uri"])))
  }

  datatype Lookup = Lookup(result: Result<Option<string>>, uri: Option<string>, calls: seq<Call>)

  /**
   * `_get_uri`: the cached URI unless it is None or `refresh` is set;
   * otherwise the first accepted answer decides, and with no key attribute
   * set nothing is queried.
   */
  function UriLookup(config: Config, swis: Swis, attrs: Props, uri: Option<string>, refresh: bool): (l: Lookup)
    ensures uri.Some? && !refresh ==> l == Lookup(Ok(uri), uri, [])
    ensures (uri.None? || refresh) && config.swqueryAttrs == [] ==> l == Lookup(Err(SWObjectPropertyError), uri, [])
    ensures l.result.Ok? && l.calls != [] && l.result.value.Some? ==> l.uri == l.result.value
  {
    if uri.Some? && !refresh then Lookup(Ok(uri), uri, [])
    else if config.swqueryAttrs == [] then Lookup(Err(SWObjectPropertyError), uri, [])
    else
      var qs := KeyQueries(config.entity, config.swqueryAttrs, attrs);
      var n := FirstHit(swis, qs);
      if n == |qs| then Lookup(Ok(None), uri, QueryLog(qs))
      else
        var r := UriOf(Parse(swis.RowsFor(qs[n])));
        Lookup(r, if r.Ok? then r.value else uri, QueryLog(qs[..n + 1]))
  }

  /** Each query names the attribute without underscores and carries its value. */
  lemma {:induction false} KeyQueriesShape(entity: string, keys: seq<string>, attrs: Props)
    ensures forall q :: q in KeyQueries(entity, keys, attrs) ==>
      exists i :: 0 <= i < |keys| && q.where == [(Utils.Unscored(keys[i]), Get(attrs, keys[i]))]
  {
    if keys != [] {
      KeyQueriesShape(entity, keys[1..], attrs);
      forall q | q in KeyQueries(entity, keys, attrs)
        ensures exists i :: 0 <= i < |keys| && q.where == [(Utils.Unscored(keys[i]), Get(attrs, keys[i]))]
      {
        if q !in KeyQueries(entity, keys[1..], attrs) {
          assert q.where == [(Utils.Unscored(keys[0]), Get(attrs, keys[0]))];
        } else {
          var i :| 0 <= i < |keys[1..]| && q.where == [(Utils.Unscored(keys[1..][i]), Get(attrs, keys[1..][i]))];
          assert keys[1..][i] == keys[i + 1];
        }
      }
    }
  }

  /** Several matching rows make the lookup fail instead of picking one. */
  lemma AmbiguousLookupFails(config: Config, swis: Swis, attrs: Props, uri: Option<string>, refresh: bool)
    requires (uri.None? || refresh) && config.swqueryAttrs != []
    requires var qs := KeyQueries(config.entity, config.swqueryAttrs, attrs);
      var n := FirstHit(swis, qs);
      n < |qs| && |swis.RowsFor(qs[n])| > 1
    ensures UriLookup(config, swis, attrs, uri, refresh).result == Err(TypeError)
  {
  }

  // ---- _get_swdata ----

  /** The cache after a read: replaced whole, unread parts None, unless nothing was read. */
  function ReadSwData(cached: Option<SwData>, props: Option<Props>, cprops: Option<Props>): (r: Option<SwData>)
    ensures props.None? && cprops.None? ==> r == cached
    ensures props.Some? || cprops.Some? ==> r == Some(SwData(props, cprops))
  {
    if props.Some? || cprops.Some? then Some(SwData(props, cprops)) else cached
  }

  // ---- _update_attrs ----

  /** Each update replaces its attribute only when that is None, or always with `overwrite`. */
  function UpdatedAttrs(attrs: Props, updates: Props, overwrite: bool): (r: Props)
    ensures r.Keys == attrs.Keys + updates.Keys
  {
    map k | k in attrs.Keys + updates.Keys ::
      if k in updates && (overwrite || Get(attrs, k) == Null) then updates[k] else attrs[k]
  }

  /** An attribute that is set (even to a falsy value) survives unless `overwrite` is given. */
  lemma UpdatedAttrsKeepSet(attrs: Props, updates: Props, k: string)
    requires k in attrs && attrs[k] != Null
    ensures UpdatedAttrs(attrs, updates, false)[k] == attrs[k]
  {
  }

  /** Unlike the newer generation, a falsy value such as "" or 0 is not filled in. */
  lemma FalsyAttrIsKept()
    ensures UpdatedAttrs(map["caption" := Str("")], map["caption" := Str("n1")], false)["caption"] == Str("")
  {
  }

  /** One more update applied on top of the ones already done. */
  lemma UpdatedAttrsPut(attrs: Props, done: Props, k: string, v: Value, overwrite: bool)
    requires k !in done
    ensures var cur := UpdatedAttrs(attrs, done, overwrite);
      UpdatedAttrs(attrs, done[k := v], overwrite)
        == if overwrite || Get(cur, k) == Null then cur[k := v] else cur
  {
    var cur := UpdatedAttrs(attrs, done, overwrite);
    var next := UpdatedAttrs(attrs, done[k := v], overwrite);
    assert Get(cur, k) == Get(attrs, k);
    var want := if overwrite || Get(cur, k) == Null then cur[k := v] else cur;
    forall j | j in next ensures j in want && next[j] == want[j] {
    }
    assert next.Keys == want.Keys;
  }

  /** The loop of `_update_attrs`, visiting the updates one key at a time. */
  method ApplyUpdates(attrs0: Props, updates: Props, overwrite: bool) returns (attrs: Props)
    ensures attrs == UpdatedAttrs(attrs0, updates, overwrite)
  {
    attrs := attrs0;
    var todo := updates.Keys;
    assert Without(updates, todo) == map[];
    assert UpdatedAttrs(attrs0, map[], overwrite) == attrs0;
    while todo != {}
      invariant todo <= updates.Keys
      invariant attrs == UpdatedAttrs(attrs0, Without(updates, todo), overwrite)
      decreases |todo|
    {
      var k :| k in todo;
      WithoutStep(updates, todo, k);
      UpdatedAttrsPut(attrs0, Without(updates, todo), k, updates[k], overwrite);
      if Get(attrs, k) == Null || overwrite {
        attrs := attrs[k := updates[k]];
      }
      todo := todo - {k};
    }
    assert Without(updates, {}) == updates;
  }

  // ---- _get_cp_updates / _get_sw_cprops ----

  /** `_get_sw_cprops`: the cached custom properties minus the excluded keys, or None. */
  function RemoteCustomProps(swdata: Option<SwData>, exclude: set<string>): (r: Option<Props>)
    ensures r.Some? <==> swdata.Some? && swdata.value.customProperties.Some?
    ensures r.Some? ==> r.value == Without(swdata.value.customProperties.value, exclude)
  {
    if swdata.Some? && swdata.value.customProperties.Some? then
      Some(Without(swdata.value.customProperties.value, exclude))
    else None
  }

  /** `_get_cp_updates`: the filtered cache with the local map on top, or {} when either is None. */
  function CustomPropUpdates(swdata: Option<SwData>, local: Option<Props>, exclude: set<string>): (r: Props)
    ensures RemoteCustomProps(swdata, exclude).None? || local.None? ==> r == map[]
    ensures RemoteCustomProps(swdata, exclude).Some? && local.Some? ==>
      r == Update(RemoteCustomProps(swdata, exclude).value, local.value)
  {
    var remote := RemoteCustomProps(swdata, exclude);
    if remote.Some? && local.Some? then Update(remote.value, local.value) else map[]
  }

  /** The `cp_updates` of `refresh`: `_get_cp_updates() or _get_sw_cprops()`. */
  function RefreshCustomProps(swdata: Option<SwData>, local: Option<Props>, exclude: set<string>): Option<Props>
  {
    var merged := CustomPropUpdates(swdata, local, exclude);
    if |merged| != 0 then Some(merged) else RemoteCustomProps(swdata, exclude)
  }

  /** A local custom property always wins over the cached one. */
  lemma RefreshKeepsLocal(swdata: Option<SwData>, local: Props, exclude: set<string>, k: string)
    requires swdata.Some? && swdata.value.customProperties.Some? && k in local
    ensures var r := RefreshCustomProps(swdata, Some(local), exclude);
      r.Some? && k in r.value && r.value[k] == local[k]
  {
    assert k in CustomPropUpdates(swdata, Some(local), exclude);
  }

  // ---- _build_swargs ----

  /** The patch properties: attributes that are not None, keyed without underscores, later ones winning. */
  function SwargsProperties(attrs: Props, keys: seq<string>): Props
    decreases |keys|
  {
    if keys == [] then map[]
    else
      var last := keys[|keys| - 1];
      var init := SwargsProperties(attrs, keys[..|keys| - 1]);
      if Get(attrs, last) != Null then init[Utils.Unscored(last) := Get(attrs, last)] else init
  }

  /** A patch key is the underscore-free name of a set attribute, and every set attribute gives one. */
  lemma {:induction false} SwargsPropertiesKeys(attrs: Props, keys: seq<string>)
    ensures forall k :: k in SwargsProperties(attrs, keys) ==>
      exists i :: 0 <= i < |keys| && Utils.Unscored(keys[i]) == k && Get(attrs, keys[i]) != Null
    ensures forall i :: 0 <= i < |keys| && Get(attrs, keys[i]) != Null ==> Utils.Unscored(keys[i]) in SwargsProperties(attrs, keys)
    decreases |keys|
  {
    if keys != [] {
      var init := keys[..|keys| - 1];
      SwargsPropertiesKeys(attrs, init);
      forall k | k in SwargsProperties(attrs, keys)
        ensures exists i :: 0 <= i < |keys| && Utils.Unscored(keys[i]) == k && Get(attrs, keys[i]) != Null
      {
        if k in SwargsProperties(attrs, init) {
          var i :| 0 <= i < |init| && Utils.Unscored(init[i]) == k && Get(attrs, init[i]) != Null;
          assert keys[i] == init[i];
        }
      }
      forall i | 0 <= i < |keys| && Get(attrs, keys[i]) != Null
        ensures Utils.Unscored(keys[i]) in SwargsProperties(attrs, keys)
      {
        if i < |init| {
          assert init[i] == keys[i];
        }
      }
    }
  }

  /** With distinct underscore-free names, each set attribute's name carries its value. */
  lemma {:induction false} SwargsPropertiesValues(attrs: Props, keys: seq<string>)
    requires forall i, j :: 0 <= i < j < |keys| ==> Utils.Unscored(keys[i]) != Utils.Unscored(keys[j])
    ensures forall i :: 0 <= i < |keys| && Get(attrs, keys[i]) != Null ==>
      && Utils.Unscored(keys[i]) in SwargsProperties(attrs, keys)
      && SwargsProperties(attrs, keys)[Utils.Unscored(keys[i])] == Get(attrs, keys[i])
    decreases |keys|
  {
    if keys != [] {
      var init := keys[..|keys| - 1];
      SwargsPropertiesValues(attrs, init);
      forall i | 0 <= i < |keys| && Get(attrs, keys[i]) != Null
        ensures && Utils.Unscored(keys[i]) in SwargsProperties(attrs, keys)
                && SwargsProperties(attrs, keys)[Utils.Unscored(keys[i])] == Get(attrs, keys[i])
      {
        if i < |init| {
          assert init[i] == keys[i];
          assert Utils.Unscored(keys[i]) != Utils.Unscored(keys[|keys| - 1]);
        }
      }
    }
  }

  /** `_swargs` as built: empty parts become None. */
  function BuiltSwargs(attrs: Props, keys: seq<string>, extra: Props, hasCustomProperties: bool, customProperties: Option<Props>): Swargs
  {
    Swargs(NoneIfEmpty(Update(SwargsProperties(attrs, keys), extra)),
           if hasCustomProperties && Filled(customProperties) then customProperties else None)
  }

  // ---- _diff_properties / _diff_custom_properties ----

  /**
   * The property patch: for each cached key, its lower-cased name when the
   * local value under that name is truthy and differs from the cached one.
   */
  function PropertyChanges(local: Props, cached: Props): (r: Props)
  {
    map k | k in local && Truthy(local[k]) && (exists c :: c in cached && Lower(c) == k && cached[c] != local[k]) :: local[k]
  }

  /** A local value that is falsy (None, "", 0) never clears a remote one. */
  lemma FalsyNeverClears(local: Props, cached: Props, k: string)
    requires !Truthy(Get(local, k))
    ensures k !in PropertyChanges(local, cached)
  {
  }

  /** Only names the cache knows (lower-cased) are ever patched. */
  lemma ChangesAreCachedNames(local: Props, cached: Props, k: string)
    requires k in PropertyChanges(local, cached)
    ensures exists c :: c in cached && Lower(c) == k
    ensures PropertyChanges(local, cached)[k] == local[k] && Truthy(local[k])
  {
  }

  /** Once the cache holds the local values under their lower-cased names, nothing is reported. */
  lemma PropertyChangesSettle(local: Props, cached: Props)
    requires forall c :: c in cached && Lower(c) in local && Truthy(local[Lower(c)]) ==> cached[c] == local[Lower(c)]
    ensures PropertyChanges(local, cached) == map[]
  {
    if PropertyChanges(local, cached) != map[] {
      var k :| k in PropertyChanges(local, cached);
    }
  }

  /**
   * The custom-property patch: every local entry when nothing is cached,
   * otherwise the entries that differ from the cache; nothing without a local map.
   */
  function CustomPropertyChanges(local: Option<Props>, cached: Option<Props>): (r: Props)
    ensures local.None? ==> r == map[]
    ensures local.Some? && cached.None? ==> r == local.value
    ensures local.Some? && cached.Some? ==>
      forall k :: k in r <==> k in local.value && Get(cached.value, k) != local.value[k]
    ensures forall k :: k in r ==> local.Some? && k in local.value && r[k] == local.value[k]
  {
    if local.None? then map[]
    else if cached.None? then local.value
    else map k | k in local.value && Get(cached.value, k) != local.value[k] :: local.value[k]
  }

  /**
   * After a refresh of the properties alone the custom properties are no
   * longer cached, so the next diff resends every local custom property
   * even when none changed.
   */
  lemma PartialRefreshResendsCustomProperties(cached: SwData, props: Props, local: Props)
    requires cached.customProperties == Some(local) && local != map[]
    ensures CustomPropertyChanges(Some(local), cached.customProperties) == map[]
    ensures CustomPropertyChanges(Some(local), ReadSwData(Some(cached), Some(props), None).value.customProperties) == local
  {
    if CustomPropertyChanges(Some(local), cached.customProperties) != map[] {
      var k :| k in CustomPropertyChanges(Some(local), cached.customProperties);
    }
  }

  predicate Pending(c: Changes) { c.properties.Some? || c.customProperties.Some? }

  function ChangeWrites(at: string, ch: Changes): (w: seq<Call>)
    ensures |w| == (if ch.properties.Some? then 1 else 0) + (if ch.customProperties.Some? then 1 else 0)
    ensures forall i :: 0 <= i < |w| ==> w[i].UpdateCall? && !IsRead(w[i])
  {
    (if ch.properties.Some? then [UpdateCall(at, ch.properties.value)] else [])
    + (if ch.customProperties.Some? then [UpdateCall(at + "/CustomProperties", ch.customProperties.value)] else [])
  }

  /** Index of the first required attribute that is None, or the number of them. */
  method FirstUnset(attrs: Props, required: seq<string>) returns (n: nat)
    ensures n <= |required|
    ensures forall j :: 0 <= j < n ==> Get(attrs, required[j]) != Null
    ensures n < |required| ==> Get(attrs, required[n]) == Null
  {
    n := 0;
    while n < |required| && Get(attrs, required[n]) != Null
      invariant n <= |required|
      invariant forall j :: 0 <= j < n ==> Get(attrs, required[j]) != Null
    {
      n := n + 1;
    }
  }

  /** Sends the queries one by one and stops at the first accepted answer. */
  method AskInTurn(swis: Swis, qs: seq<Query>) returns (n: nat)
    modifies swis`log
    ensures n == FirstHit(swis, qs)
    ensures n < |qs| ==> swis.log == old(swis.log) + QueryLog(qs[..n + 1])
    ensures n == |qs| ==> swis.log == old(swis.log) + QueryLog(qs)
  {
    ghost var log0 := swis.log;
    n := 0;
    while n < |qs|
      invariant n <= FirstHit(swis, qs)
      invariant swis.log == log0 + QueryLog(qs[..n])
    {
      QueryLogStep(log0, qs, n);
      var rows := swis.RunQuery(qs[n]);
      if Answers(rows) {
        return;
      }
      n := n + 1;
    }
    assert qs[..n] == qs;
  }

  lemma {:induction false} FirstHitIs(swis: Swis, qs: seq<Query>, i: nat)
    requires i < |qs| && Answers(swis.RowsFor(qs[i]))
    requires forall j :: 0 <= j < i ==> !Answers(swis.RowsFor(qs[j]))
    ensures FirstHit(swis, qs) == i
  {
    if i > 0 {
      FirstHitIs(swis, qs[1..], i - 1);
    }
  }

  lemma {:induction false} FirstHitNone(swis: Swis, qs: seq<Query>)
    requires forall j :: 0 <= j < |qs| ==> !Answers(swis.RowsFor(qs[j]))
    ensures FirstHit(swis, qs) == |qs|
  {
    if qs != [] {
      FirstHitNone(swis, qs[1..]);
    }
  }

  /** One more cached key walked (the loop step of `_diff_properties`). */
  lemma PropertyChangesStep(local: Props, cached: Props, todo: set<string>, c: string)
    requires c in todo && c in cached
    ensures var cur := PropertyChanges(local, Without(cached, todo));
      var v := Get(local, Lower(c));
      PropertyChanges(local, Without(cached, todo - {c}))
        == if Truthy(v) && v != cached[c] then cur[Lower(c) := v] else cur
  {
    var cur := PropertyChanges(local, Without(cached, todo));
    var next := PropertyChanges(local, Without(cached, todo - {c}));
    var v := Get(local, Lower(c));
    var want := if Truthy(v) && v != cached[c] then cur[Lower(c) := v] else cur;
    forall k | k in next ensures k in want && next[k] == want[k] {
      var d :| d in Without(cached, todo - {c}) && Lower(d) == k && Without(cached, todo - {c})[d] != local[k];
      if d != c {
        assert d in Without(cached, todo);
      }
    }
    forall k | k in want ensures k in next {
      if k in cur {
        var d :| d in Without(cached, todo) && Lower(d) == k && Without(cached, todo)[d] != local[k];
        assert d in Without(cached, todo - {c});
      } else {
        assert c in Without(cached, todo - {c});
      }
    }
    assert next.Keys == want.Keys;
  }

  /** Computes the property patch by walking the cached keys. */
  method DiffProperties(local: Props, cached: Props) returns (changes: Option<Props>)
    ensures changes == NoneIfEmpty(PropertyChanges(local, cached))
  {
    var found: Props := map[];
    var todo := cached.Keys;
    assert Without(cached, todo) == map[];
    while todo != {}
      invariant todo <= cached.Keys
      invariant found == PropertyChanges(local, Without(cached, todo))
      decreases |todo|
    {
      var c :| c in todo;
      PropertyChangesStep(local, cached, todo, c);
      var k := Lower(c);
      var v := Get(local, k);
      if Truthy(v) && v != cached[c] {
        found := found[k := v];
      }
      todo := todo - {c};
    }
    assert Without(cached, {}) == cached;
    changes := NoneIfEmpty(found);
  }

  /** Computes the custom-property patch. */
  method DiffCustomProperties(local: Option<Props>, cached: Option<Props>) returns (changes: Option<Props>)
    ensures changes == NoneIfEmpty(CustomPropertyChanges(local, cached))
  {
    var found: Props := map[];
    if cached.None? && local.Some? {
      found := local.value;
    }
    if local.Some? && cached.Some? {
      var todo := local.value.Keys;
      while todo != {}
        invariant todo <= local.value.Keys
        invariant forall k :: k in found <==> k in local.value && k !in todo && Get(cached.value, k) != local.value[k]
        invariant forall k :: k in found ==> found[k] == local.value[k]
        decreases |todo|
      {
        var k :| k in todo;
        if Get(cached.value, k) != local.value[k] {
          found := found[k := local.value[k]];
        }
        todo := todo - {k};
      }
    }
    assert found == CustomPropertyChanges(local, cached);
    changes := NoneIfEmpty(found);
  }

  /** Looking up a URI only ever queries. */
  lemma LookupOnlyReads(config: Config, swis: Swis, attrs: Props, uri: Option<string>, refresh: bool)
    ensures var l := UriLookup(config, swis, attrs, uri, refresh);
      forall i :: 0 <= i < |l.calls| ==> IsRead(l.calls[i])
  {
  }

  /** The writes of `create`: the object itself, then its custom properties if any. */
  function CreateWrites(config: Config, swis: Swis, patch: Swargs): (w: seq<Call>)
    requires patch.properties.Some?
    ensures |w| >= 1 && w[0] == CreateCall(config.entity, patch.properties.value)
    ensures forall i :: 0 <= i < |w| ==> !IsRead(w[i])
  {
    [CreateCall(config.entity, patch.properties.value)]
    + (if patch.customProperties.Some?
       then [UpdateCall(swis.CreatedUri(config.entity, patch.properties.value) + "/CustomProperties", patch.customProperties.value)]
       else [])
  }

  /** The older `Endpoint`: the same state as the newer one, with None where that one has falsy values. */
  /** The parts `_get_swdata` reads for `part`, from an object at `at`. */
  function ReadParts(swis: Swis, hasCustomProperties: bool, part: DataPart, at: string): (Option<Props>, Option<Props>)
  {
    (if part != CustomPropertiesPart then Some(Utils.Sanitized(swis.RecordAt(at))) else None,
     if part != PropertiesPart && hasCustomProperties
     then Some(Utils.Sanitized(swis.RecordAt(at + "/CustomProperties"))) else None)
  }

  /**
   * The error `_diff` raises on an existing object, in the order the
   * source meets them: the cached properties indexed while None, the patch
   * indexed while None (only reached when the cache is non-empty), its
   * properties indexed while None, and the patch's custom properties read
   * from None.
   */
  function CachedDiffError(patch: Option<Swargs>, cached: SwData): (e: Option<Error>)
    ensures e.None? <==> patch.Some? && cached.properties.Some? && (|cached.properties.value| != 0 ==> patch.value.properties.Some?)
  {
    if cached.properties.None? then Some(AttributeError)
    else if |cached.properties.value| != 0 && patch.None? then Some(TypeError)
    else if |cached.properties.value| != 0 && patch.value.properties.None? then Some(AttributeError)
    else if patch.None? then Some(AttributeError)
    else None
  }

  /** The `_changes` that `_diff` finds for a patch and a cache. */
  function FoundChanges(present: bool, patch: Swargs, swdata: Option<SwData>): Changes
  {
    if present then
      Changes(NoneIfEmpty(PropertyChanges(patch.properties.GetOr(map[]),
                                          if swdata.Some? then swdata.value.properties.GetOr(map[]) else map[])),
              NoneIfEmpty(CustomPropertyChanges(patch.customProperties,
                                                if swdata.Some? then swdata.value.customProperties else None)))
    else Changes(patch.properties, patch.customProperties)
  }

  /** `_swargs` after `_build_swargs`: the built patch when either part is non-empty, else `prev`. */
  function NextSwargs(config: Config, attrs: Props, hasCustomProperties: bool, customProperties: Option<Props>, prev: Option<Swargs>): (r: Option<Swargs>)
    ensures r.Some? || r == prev
  {
    var built := BuiltSwargs(attrs, config.swargsAttrs, config.extraSwargs(attrs), hasCustomProperties, customProperties);
    if built.properties.Some? || built.customProperties.Some? then Some(built) else prev
  }

  /** Building the patch again from the same attributes changes nothing. */
  lemma NextSwargsTwice(config: Config, attrs: Props, hasCustomProperties: bool, customProperties: Option<Props>, prev: Option<Swargs>)
    ensures var once := NextSwargs(config, attrs, hasCustomProperties, customProperties, prev);
      NextSwargs(config, attrs, hasCustomProperties, customProperties, once) == once
  {
  }

  /** The lookup found the object: a URI that is not None and not empty. */
  predicate Found(l: Lookup)
  {
    l.result.Ok? && l.result.value.Some? && l.result.value.value != ""
  }

  /** Every attribute named in `keys` is not None. */
  predicate AllSet(attrs: Props, keys: seq<string>)
  {
    forall i :: 0 <= i < |keys| ==> Get(attrs, keys[i]) != Null
  }

  /** The cache `_diff` compares against for the object at `at`: the one held, else both parts read. */
  function CacheFor(swis: Swis, hasCustomProperties: bool, cached: Option<SwData>, at: string): (c: SwData)
  {
    if cached.Some? then cached.value
    else
      var parts := ReadParts(swis, hasCustomProperties, Both, at);
      SwData(parts.0, parts.1)
  }

  /** What `_diff` of an existing object finds for the patch `p` and the cache: an indexing error, or the changes. */
  function DiffFound(p: Option<Swargs>, cached: SwData): (d: Result<Changes>)
  {
    var e := CachedDiffError(p, cached);
    if e.Some? then Err(e.value) else Ok(FoundChanges(true, p.value, Some(cached)))
  }

  /** `_diff`'s answer and `_changes` for what it found: the error raised, or the changes kept when some part is not None. */
  predicate Diffed(d: Result<Changes>, r: Result<()>, changes0: Option<Changes>, changes: Option<Changes>)
  {
    && (d.Err? ==> r == Err(d.error) && changes == changes0)
    && (d.Ok? ==> r == Ok(()) && changes == (if Pending(d.value) then Some(d.value) else changes0))
  }

  /** What `Diffed` says of a diff that found the object, in the terms of `_diff`'s general contract. */
  lemma DiffedFound(p: Option<Swargs>, cached: SwData, r: Result<()>, changes0: Option<Changes>, changes: Option<Changes>)
    requires Diffed(DiffFound(p, cached), r, changes0, changes)
    ensures r.Ok? ==> p.Some? && changes == (if Pending(FoundChanges(true, p.value, Some(cached))) then Some(FoundChanges(true, p.value, Some(cached))) else changes0)
    ensures r.Err? ==> changes == changes0
  {
  }

  /**
   * What `create` does, given the lookup of its `exists()`, the attributes
   * and the patch `p` it builds: a failed lookup raises; an existing object
   * answers False; otherwise a patch never built or a required attribute
   * that is None raises SWObjectPropertyError and a patch without
   * properties TypeError, nothing sent in each case; else the creation
   * writes are sent, and the answer, when not an error, is True.
   */
  predicate CreateOutcome(config: Config, swis: Swis, l: Lookup, attrs: Props, p: Option<Swargs>, r: Result<bool>,
                          log0: seq<Call>, log1: seq<Call>)
  {
    if l.result.Err? then r == Err(l.result.error) && SentSince(log0, log1, [])
    else if Found(l) then r == Ok(false) && SentSince(log0, log1, [])
    else if p.None? || !AllSet(attrs, config.requiredSwargsAttrs) then r == Err(SWObjectPropertyError) && SentSince(log0, log1, [])
    else if p.value.properties.None? then r == Err(TypeError) && SentSince(log0, log1, [])
    else SentSince(log0, log1, CreateWrites(config, swis, p.value)) && (r.Ok? ==> r.value)
  }

  /**
   * What `update` does to an existing object at `at`, given its `_changes`
   * and what `_diff` would find: pending changes are sent as they are;
   * otherwise a failing diff raises, an empty one answers False and sends
   * nothing, and a non-empty one is sent and answers True. Afterwards no
   * changes are pending.
   */
  predicate UpdatedExisting(pending: Option<Changes>, d: Result<Changes>, at: string, r: Result<bool>,
                            log0: seq<Call>, log1: seq<Call>, changes: Option<Changes>)
  {
    && changes.None?
    && if pending.Some? then r == Ok(true) && SentSince(log0, log1, ChangeWrites(at, pending.value))
       else if d.Err? then r == Err(d.error) && SentSince(log0, log1, [])
       else if !Pending(d.value) then r == Ok(false) && SentSince(log0, log1, [])
       else r == Ok(true) && SentSince(log0, log1, ChangeWrites(at, d.value))
  }

  /** The cache after `update` has sent `ch` to the object at `at`: each part sent is re-read and replaces the cache whole. */
  function CacheAfterPush(swis: Swis, hasCustomProperties: bool, cached: Option<SwData>, at: string, ch: Changes): Option<SwData>
  {
    var p1 := ReadParts(swis, hasCustomProperties, PropertiesPart, at);
    var c1 := if ch.properties.Some? then ReadSwData(cached, p1.0, p1.1) else cached;
    var p2 := ReadParts(swis, hasCustomProperties, CustomPropertiesPart, at);
    if ch.customProperties.Some? then ReadSwData(c1, p2.0, p2.1) else c1
  }

  /**
   * The cache `update` leaves on an existing object at `at` that held
   * `cached`: pending changes are pushed onto it; otherwise the cache the
   * diff reads, with the changes it finds pushed when there are any.
   */
  function CacheAfterUpdate(swis: Swis, hasCustomProperties: bool, p: Option<Swargs>, pending: Option<Changes>,
                            cached: Option<SwData>, at: string): Option<SwData>
  {
    if pending.Some? then CacheAfterPush(swis, hasCustomProperties, cached, at, pending.value)
    else
      var c := CacheFor(swis, hasCustomProperties, cached, at);
      var d := DiffFound(p, c);
      if d.Ok? && Pending(d.value) then CacheAfterPush(swis, hasCustomProperties, Some(c), at, d.value) else Some(c)
  }

  /**
   * As written, an `update` that sends custom properties re-reads only
   * them, and the read replaces the cache whole: the cached properties
   * become None, so the next `update`'s diff raises AttributeError
   * whatever the patch.
   */
  lemma UpdateLosesProperties(swis: Swis, cached: Option<SwData>, at: string, ch: Changes, p: Option<Swargs>)
    requires ch.customProperties.Some?
    ensures var c := CacheAfterPush(swis, true, cached, at, ch);
      && c.Some? && c.value.properties.None?
      && CacheAfterUpdate(swis, true, p, None, c, at) == c
      && DiffFound(p, CacheFor(swis, true, c, at)) == Err(AttributeError)
  {
  }

  /** The cache after an `update` that re-reads each part it sent, keeping the part it did not send. */
  function MergedCacheAfterPush(swis: Swis, hasCustomProperties: bool, cached: SwData, at: string, ch: Changes): (r: SwData)
    ensures ch.properties.Some? ==> r.properties == Some(Utils.Sanitized(swis.RecordAt(at)))
    ensures ch.properties.None? ==> r.properties == cached.properties
    ensures ch.customProperties.Some? && hasCustomProperties ==>
              r.customProperties == Some(Utils.Sanitized(swis.RecordAt(at + "/CustomProperties")))
    ensures !(ch.customProperties.Some? && hasCustomProperties) ==> r.customProperties == cached.customProperties
  {
    var props := if ch.properties.Some? then Some(Utils.Sanitized(swis.RecordAt(at))) else cached.properties;
    var cprops := if ch.customProperties.Some? && hasCustomProperties
      then Some(Utils.Sanitized(swis.RecordAt(at + "/CustomProperties"))) else cached.customProperties;
    SwData(props, cprops)
  }

  /** With the merge, a cache that held properties still does after any `update`, so the next diff of a patch with properties can compare. */
  lemma MergedUpdateKeepsProperties(swis: Swis, hasCustomProperties: bool, cached: SwData, at: string, ch: Changes, p: Swargs)
    requires cached.properties.Some? && p.properties.Some?
    ensures MergedCacheAfterPush(swis, hasCustomProperties, cached, at, ch).properties.Some?
    ensures DiffFound(Some(p), MergedCacheAfterPush(swis, hasCustomProperties, cached, at, ch)).Ok?
  {
  }

  /**
   * The error `refresh` raises on an existing object whose cache is
   * `cache`: AttributeError when the properties are None (`_get_id`
   * indexes them), SWIDNotFound for a missing id, and AttributeError for
   * cached custom properties on an object that keeps none.
   */
  function RefreshError(config: Config, cache: SwData, hasCustomProperties: bool): (e: Option<Error>)
    ensures e.None? <==> cache.properties.Some? && Get(cache.properties.value, config.swidKey) != Null
                         && (hasCustomProperties || cache.customProperties.None?)
  {
    if cache.properties.None? then Some(AttributeError)
    else if Get(cache.properties.value, config.swidKey) == Null then Some(SWIDNotFound)
    else if !hasCustomProperties && cache.customProperties.Some? then Some(AttributeError)
    else None
  }

  /**
   * What `refresh` leaves on an existing object whose cache is `cache`:
   * the error of `RefreshError`, or the id copied into `id` and the id
   * attribute, the subclass's updates applied without overwriting, and
   * `custom_properties` set from the merged or the cached custom
   * properties.
   */
  predicate Refreshed(config: Config, cache: SwData, hasCustomProperties: bool, attrs0: Props, cp0: Option<Props>,
                      r: Result<()>, attrs: Props, customProperties: Option<Props>)
  {
    var e := RefreshError(config, cache, hasCustomProperties);
    if e.Some? then r == Err(e.value)
    else
      var id := Get(cache.properties.value, config.swidKey);
      var cp := RefreshCustomProps(Some(cache), cp0, ExcludedCustomProps);
      && r == Ok(())
      && attrs == UpdatedAttrs(attrs0["id" := id][config.idAttr := id], config.attrUpdates(cache.properties.value), false)
      && customProperties == (if cp.Some? then NoneIfEmpty(cp.value) else cp0)
  }

  /**
   * What `update` does, given the lookup of its `exists()` and the patch
   * `p` it builds: a failed lookup raises; a found object keeps its URI, is
   * updated as `UpdatedExisting` says and is left with the cache of
   * `CacheAfterUpdate`; otherwise it is created as `CreateOutcome` says.
   */
  predicate UpdateOutcome(config: Config, swis: Swis, l: Lookup, attrs: Props, p: Option<Swargs>, cache0: Option<SwData>,
                          hasCustomProperties: bool, pending: Option<Changes>, r: Result<bool>, log0: seq<Call>, log1: seq<Call>,
                          uri: Option<string>, changes: Option<Changes>, swdata: Option<SwData>)
  {
    if l.result.Err? then r == Err(l.result.error) && SentSince(log0, log1, [])
    else if Found(l) then
      var at := l.result.value.value;
      && uri == Some(at)
      && swdata == CacheAfterUpdate(swis, hasCustomProperties, p, pending, cache0, at)
      && UpdatedExisting(pending, DiffFound(p, CacheFor(swis, hasCustomProperties, cache0, at)), at, r, log0, log1, changes)
    else CreateOutcome(config, swis, l, attrs, p, r, log0, log1)
  }

  /** A lookup that found nothing, asked again with the URI it left, finds nothing again. */
  lemma LookupAgain(config: Config, swis: Swis, attrs: Props, uri: Option<string>)
    requires var l := UriLookup(config, swis, attrs, uri, false); l.result.Ok? && !Found(l)
    ensures var l := UriLookup(config, swis, attrs, uri, false);
      var l2 := UriLookup(config, swis, attrs, l.uri, false);
      l2.result.Ok? && !Found(l2)
  {
  }

  /** The lookups before `create` send nothing, and a second lookup that finds nothing gives the same outcome. */
  lemma CreatedAfterLookup(config: Config, swis: Swis, l: Lookup, l2: Lookup, attrs: Props, p: Option<Swargs>, r: Result<bool>,
                           log0: seq<Call>, log1: seq<Call>, log2: seq<Call>)
    requires l.result.Ok? && !Found(l) && l2.result.Ok? && !Found(l2)
    requires SentSince(log0, log1, []) && CreateOutcome(config, swis, l2, attrs, p, r, log1, log2)
    ensures CreateOutcome(config, swis, l, attrs, p, r, log0, log2)
  {
    var w := if p.None? || !AllSet(attrs, config.requiredSwargsAttrs) || p.value.properties.None? then []
             else CreateWrites(config, swis, p.value);
    assert SentSince(log1, log2, w);
    SentSinceTrans(log0, log1, log2, [], w);
    assert [] + w == w;
  }

  /** The lookup before `update`'s existing-object branch sends nothing, so that branch's writes are all that was sent. */
  lemma UpdatedAfterLookup(pending: Option<Changes>, d: Result<Changes>, at: string, r: Result<bool>,
                           log0: seq<Call>, log1: seq<Call>, log2: seq<Call>, changes: Option<Changes>)
    requires SentSince(log0, log1, []) && UpdatedExisting(pending, d, at, r, log1, log2, changes)
    ensures UpdatedExisting(pending, d, at, r, log0, log2, changes)
  {
    var w := if pending.Some? then ChangeWrites(at, pending.value)
             else if d.Err? || !Pending(d.value) then [] else ChangeWrites(at, d.value);
    assert SentSince(log1, log2, w);
    SentSinceTrans(log0, log1, log2, [], w);
    assert [] + w == w;
  }

  class LegacyEndpoint {
    const config: Config
    const swis: Swis
    var uri: Option<string>
    var present: bool
    var attrs: Props
    var hasCustomProperties: bool
    var customProperties: Option<Props>
    var swdata: Option<SwData>
    var swargs: Option<Swargs>
    var changes: Option<Changes>

    /** The class-level defaults (`uri`, `_swdata`, `_swargs`, `_changes` all None) and the subclass's attributes. */
    constructor (config: Config, swis: Swis, attrs: Props, hasCustomProperties: bool, customProperties: Option<Props>)
      ensures this.config == config && this.swis == swis && this.attrs == attrs
      ensures this.hasCustomProperties == hasCustomProperties && this.customProperties == customProperties
      ensures uri.None? && !present && swdata.None? && swargs.None? && changes.None?
    {
      this.config := config;
      this.swis := swis;
      this.attrs := attrs;
      this.hasCustomProperties := hasCustomProperties;
      this.customProperties := customProperties;
      uri := None;
      present := false;
      swdata := None;
      swargs := None;
      changes := None;
    }

    /** `_get_uri`. */
    method GetUri(refresh: bool) returns (r: Result<Option<string>>)
      modifies this`uri, swis`log
      ensures var l := UriLookup(config, swis, attrs, old(uri), refresh);
        r == l.result && uri == l.uri && swis.log == old(swis.log) + l.calls
      ensures SentSince(old(swis.log), swis.log, [])
    {
      LookupOnlyReads(config, swis, attrs, uri, refresh);
      SentReads(swis.log, UriLookup(config, swis, attrs, uri, refresh).calls);
      if uri.Some? && !refresh {
        return Ok(uri);
      }
      if config.swqueryAttrs == [] {
        return Err(SWObjectPropertyError);
      }
      var qs := KeyQueries(config.entity, config.swqueryAttrs, attrs);
      var n := AskInTurn(swis, qs);
      if n == |qs| {
        return Ok(None);
      }
      r := UriOf(Parse(swis.RowsFor(qs[n])));
      if r.Ok? {
        uri := r.value;
      }
    }

    /** `exists()`: whether `_get_uri` yields a non-empty URI. */
    method Exists(refresh: bool) returns (r: Result<bool>)
      modifies this`uri, this`present, swis`log
      ensures var l := UriLookup(config, swis, attrs, old(uri), refresh);
        && uri == l.uri
        && r == (if l.result.Ok? then Ok(l.result.value.Some? && l.result.value.value != "") else Err(l.result.error))
        && present == (if r.Ok? then r.value else old(present))
      ensures r == Ok(true) ==> uri.Some? && uri.value != ""
      ensures SentSince(old(swis.log), swis.log, [])
      ensures old(uri).Some? && !refresh ==> uri == old(uri) && r == Ok(old(uri).value != "") && swis.log == old(swis.log)
    {
      var u := GetUri(refresh);
      if u.Err? {
        return Err(u.error);
      }
      present := u.value.Some? && u.value.value != "";
      return Ok(present);
    }

    /**
     * `_get_swdata`: without an existence check, reads the requested parts
     * when nothing is cached or `refresh` is set and replaces the cache
     * whole; a URI of None makes the client's URL concatenation fail.
     */
    method GetSwData(refresh: bool, part: DataPart) returns (r: Result<()>)
      modifies this`swdata, swis`log
      ensures SentSince(old(swis.log), swis.log, [])
      ensures !(old(swdata).None? || refresh) ==> r == Ok(()) && swdata == old(swdata) && swis.log == old(swis.log)
      ensures (old(swdata).None? || refresh) && uri.Some? ==>
        var parts := ReadParts(swis, hasCustomProperties, part, uri.value);
        r == Ok(()) && swdata == ReadSwData(old(swdata), parts.0, parts.1)
      ensures r.Err? ==> r.error == TypeError && uri.None? && part != CustomPropertiesPart && swdata == old(swdata)
    {
      SentNothing(swis.log);
      if !(swdata.None? || refresh) {
        return Ok(());
      }
      var props: Option<Props> := None;
      var cprops: Option<Props> := None;
      ghost var log0 := swis.log;
      if part != CustomPropertiesPart {
        if uri.None? {
          return Err(TypeError);
        }
        var record := swis.Read(uri.value);
        SentReads(log0, [ReadCall(uri.value)]);
        var clean := Utils.SanitizeSwdata(record);
        props := Some(clean);
      }
      ghost var log1 := swis.log;
      if part != PropertiesPart && hasCustomProperties {
        var at := if uri.Some? then uri.value else "None";
        var record := swis.Read(at + "/CustomProperties");
        SentReads(log1, [ReadCall(at + "/CustomProperties")]);
        var clean := Utils.SanitizeSwdata(record);
        cprops := Some(clean);
      } else {
        SentNothing(log1);
      }
      SentSinceTrans(log0, log1, swis.log, [], []);
      swdata := ReadSwData(swdata, props, cprops);
      return Ok(());
    }

    /** `_update_attrs`: replaces only attributes that are None, unless `overwrite`; `cp_updates or None`. */
    method UpdateAttrs(updates: Props, cpUpdates: Option<Props>, overwrite: bool)
      modifies this`attrs, this`customProperties, this`hasCustomProperties
      ensures attrs == UpdatedAttrs(old(attrs), updates, overwrite)
      ensures cpUpdates.Some? ==> hasCustomProperties && customProperties == NoneIfEmpty(cpUpdates.value)
      ensures cpUpdates.None? ==> customProperties == old(customProperties) && hasCustomProperties == old(hasCustomProperties)
    {
      attrs := ApplyUpdates(attrs, updates, overwrite);
      if cpUpdates.Some? {
        hasCustomProperties := true;
        customProperties := NoneIfEmpty(cpUpdates.value);
      }
    }

    /** `_get_id`: nothing without a cache; otherwise the id must be present in the cached properties. */
    method GetId() returns (r: Result<()>)
      modifies this`attrs
      ensures swdata.None? ==> r == Ok(()) && attrs == old(attrs)
      ensures swdata.Some? && swdata.value.properties.None? ==> r == Err(AttributeError) && attrs == old(attrs)
      ensures swdata.Some? && swdata.value.properties.Some? ==>
        var v := Get(swdata.value.properties.value, config.swidKey);
        && (v != Null ==> r == Ok(()) && attrs == old(attrs)["id" := v][config.idAttr := v])
        && (v == Null ==> r == Err(SWIDNotFound) && attrs == old(attrs))
    {
      if swdata.None? {
        return Ok(());
      }
      if swdata.value.properties.None? {
        return Err(AttributeError);
      }
      var v := Get(swdata.value.properties.value, config.swidKey);
      if v == Null {
        return Err(SWIDNotFound);
      }
      attrs := attrs["id" := v][config.idAttr := v];
      return Ok(());
    }

    /** `_build_swargs`: `_swargs` is replaced when either part is non-empty, and kept otherwise. */
    method BuildSwargs()
      modifies this`swargs
      ensures swargs == NextSwargs(config, attrs, hasCustomProperties, customProperties, old(swargs))
    {
      var props: Props := map[];
      var keys := config.swargsAttrs;
      for i := 0 to |keys|
        invariant props == SwargsProperties(attrs, keys[..i])
      {
        assert keys[..i + 1][..i] == keys[..i];
        var v := Get(attrs, keys[i]);
        if v != Null {
          props := props[Utils.Unscored(keys[i]) := v];
        }
      }
      assert keys[..|keys|] == keys;
      props := PyValue.Update(props, config.extraSwargs(attrs));
      var cprops := if hasCustomProperties && Filled(customProperties) then customProperties else None;
      var built := Swargs(NoneIfEmpty(props), cprops);
      if built.properties.Some? || built.customProperties.Some? {
        swargs := Some(built);
      }
    }

    /** `_diff`: `_changes` is set only when some part is not None; nothing is written. */
    method Diff() returns (r: Result<()>)
      modifies this`uri, this`present, this`swdata, this`swargs, this`changes, swis`log
      ensures SentSince(old(swis.log), swis.log, [])
      ensures old(uri).Some? && old(uri).value != "" ==> uri == old(uri) && present
      ensures r.Ok? ==> swargs.Some? && changes == (if Pending(FoundChanges(present, swargs.value, swdata)) then Some(FoundChanges(present, swargs.value, swdata)) else old(changes))
      ensures r.Err? ==> changes == old(changes)
      ensures old(uri).Some? && old(uri).value != "" ==>
        && swargs == NextSwargs(config, attrs, hasCustomProperties, customProperties, old(swargs))
        && swdata == Some(CacheFor(swis, hasCustomProperties, old(swdata), old(uri).value))
        && Diffed(DiffFound(swargs, swdata.value), r, old(changes), changes)
    {
      ghost var p := NextSwargs(config, attrs, hasCustomProperties, customProperties, swargs);
      BuildSwargs();
      NextSwargsTwice(config, attrs, hasCustomProperties, customProperties, old(swargs));
      assert NextSwargs(config, attrs, hasCustomProperties, customProperties, swargs) == p;
      ghost var log0 := swis.log;
      var e := Exists(false);
      if e.Err? {
        return Err(e.error);
      }
      ghost var log1 := swis.log;
      if e.value {
        r := DiffCached();
        DiffedFound(swargs, swdata.value, r, old(changes), changes);
      } else {
        r := DiffNew();
        SentNothing(swis.log);
      }
      SentSinceTrans(log0, log1, swis.log, [], []);
    }

    /**
     * The part of `_diff` for an existing object, with the errors of
     * indexing a cache or patch part that is None.
     */
    method DiffCached() returns (r: Result<()>)
      requires present && uri.Some?
      modifies this`swdata, this`swargs, this`changes, swis`log
      ensures SentSince(old(swis.log), swis.log, [])
      ensures var p := NextSwargs(config, attrs, hasCustomProperties, customProperties, old(swargs));
        && swargs == p && swdata == Some(CacheFor(swis, hasCustomProperties, old(swdata), uri.value))
      ensures swdata.Some? && Diffed(DiffFound(swargs, swdata.value), r, old(changes), changes)
    {
      ReadCache();
      BuildSwargs();
      r := DiffAgainst(swdata.value);
    }

    /** `_get_swdata()` for an object with a URI: the cache held, else both parts read. */
    method ReadCache()
      requires uri.Some?
      modifies this`swdata, swis`log
      ensures SentSince(old(swis.log), swis.log, [])
      ensures swdata == Some(CacheFor(swis, hasCustomProperties, old(swdata), uri.value))
    {
      ghost var cache := CacheFor(swis, hasCustomProperties, swdata, uri.value);
      var g := GetSwData(false, Both);
      assert g == Ok(());
    }

    /** The comparison in `_diff` of the patch against the cache of an existing object. */
    method DiffAgainst(cached: SwData) returns (r: Result<()>)
      modifies this`changes
      ensures Diffed(DiffFound(swargs, cached), r, old(changes), changes)
    {
      var failure := CachedDiffError(swargs, cached);
      if failure.Some? {
        return Err(failure.value);
      }
      var p := DiffProperties(swargs.value.properties.GetOr(map[]), cached.properties.value);
      var c := DiffCustomProperties(swargs.value.customProperties, cached.customProperties);
      var ch := Changes(p, c);
      assert ch == FoundChanges(true, swargs.value, Some(cached));
      if Pending(ch) {
        changes := Some(ch);
      }
      return Ok(());
    }

    /** The part of `_diff` for a new object: the patch itself. */
    method DiffNew() returns (r: Result<()>)
      requires !present
      modifies this`changes
      ensures r.Ok? ==> swargs.Some? && changes == (if Pending(FoundChanges(present, swargs.value, swdata)) then Some(FoundChanges(present, swargs.value, swdata)) else old(changes))
      ensures r.Err? ==> r.error == TypeError && swargs.None? && changes == old(changes)
    {
      if swargs.None? {
        return Err(TypeError);
      }
      var ch := Changes(swargs.value.properties, swargs.value.customProperties);
      if Pending(ch) {
        changes := Some(ch);
      }
      return Ok(());
    }

    /** One update call followed by a refresh of that part of the cache, which replaces the cache whole. */
    method SendPart(target: string, patch: Props, part: DataPart)
      requires uri.Some?
      modifies this`swdata, swis`log
      ensures SentSince(old(swis.log), swis.log, [UpdateCall(target, patch)])
      ensures var parts := ReadParts(swis, hasCustomProperties, part, uri.value);
        swdata == ReadSwData(old(swdata), parts.0, parts.1)
    {
      swis.Update(target, patch);
      SentWrite(old(swis.log), UpdateCall(target, patch));
      ghost var log1 := swis.log;
      var g := GetSwData(true, part);
      SentSinceTrans(old(swis.log), log1, swis.log, [UpdateCall(target, patch)], []);
      assert [UpdateCall(target, patch)] + [] == [UpdateCall(target, patch)];
    }

    /** The sending half of `update`: each part that is not None is written and re-read. */
    method PushChanges() returns (r: Result<bool>)
      requires uri.Some?
      modifies this`swdata, this`changes, swis`log
      ensures old(changes).None? ==> r == Ok(false) && changes.None? && swis.log == old(swis.log) && swdata == old(swdata)
      ensures old(changes).Some? ==> (
        && r == Ok(true) && changes.None?
        && SentSince(old(swis.log), swis.log, ChangeWrites(uri.value, old(changes).value))
        && swdata == CacheAfterPush(swis, hasCustomProperties, old(swdata), uri.value, old(changes).value))
    {
      if changes.None? {
        return Ok(false);
      }
      var ch := changes.value;
      ghost var w1: seq<Call> := [];
      SentNothing(swis.log);
      if ch.properties.Some? {
        SendPart(uri.value, ch.properties.value, PropertiesPart);
        w1 := [UpdateCall(uri.value, ch.properties.value)];
      }
      ghost var log1 := swis.log;
      ghost var w2: seq<Call> := [];
      SentNothing(log1);
      if ch.customProperties.Some? {
        SendPart(uri.value + "/CustomProperties", ch.customProperties.value, CustomPropertiesPart);
        w2 := [UpdateCall(uri.value + "/CustomProperties", ch.customProperties.value)];
      }
      SentSinceTrans(old(swis.log), log1, swis.log, w1, w2);
      changes := None;
      return Ok(true);
    }

    /** `delete`: the URI and `_exists` are cleared, the id is kept. */
    method Delete() returns (r: Result<bool>)
      modifies this`uri, this`present, swis`log
      ensures var l := UriLookup(config, swis, attrs, old(uri), false);
        && (l.result.Err? ==> r == Err(l.result.error) && SentSince(old(swis.log), swis.log, []))
        && (l.result.Ok? && (l.result.value.None? || l.result.value.value == "") ==>
              r == Ok(false) && !present && SentSince(old(swis.log), swis.log, []))
        && (l.result.Ok? && l.result.value.Some? && l.result.value.value != "" ==>
              r == Ok(true) && uri.None? && !present
              && SentSince(old(swis.log), swis.log, [DeleteCall([l.result.value.value])]))
    {
      var e := Exists(false);
      if e.Err? {
        return Err(e.error);
      }
      if !e.value {
        return Ok(false);
      }
      ghost var log1 := swis.log;
      var at := uri.value;
      swis.Delete([at]);
      SentWrite(log1, DeleteCall([at]));
      SentSinceTrans(old(swis.log), log1, swis.log, [], [DeleteCall([at])]);
      uri := None;
      present := false;
      return Ok(true);
    }

    /** `refresh`: for an existing object, cache, id, attributes from the cache and merged custom properties. */
    method Refresh() returns (r: Result<()>)
      modifies this`uri, this`present, this`swdata, this`attrs, this`customProperties, this`hasCustomProperties, swis`log
      ensures SentSince(old(swis.log), swis.log, [])
      ensures old(uri).Some? && old(uri).value != "" ==> uri == old(uri)
      ensures r.Ok? && !present ==> attrs == old(attrs) && swdata == old(swdata) && customProperties == old(customProperties)
      ensures var l := UriLookup(config, swis, old(attrs), old(uri), false);
        l.result.Err? ==> r == Err(l.result.error) && attrs == old(attrs) && customProperties == old(customProperties)
      ensures var l := UriLookup(config, swis, old(attrs), old(uri), false);
        Found(l) ==>
          && uri == l.result.value && present
          && swdata == Some(CacheFor(swis, old(hasCustomProperties), old(swdata), l.result.value.value))
          && Refreshed(config, swdata.value, old(hasCustomProperties), old(attrs), old(customProperties), r, attrs, customProperties)
      ensures var l := UriLookup(config, swis, old(attrs), old(uri), false);
        l.result.Ok? && !Found(l) ==>
          r == Ok(()) && attrs == old(attrs) && swdata == old(swdata) && customProperties == old(customProperties)
    {
      ghost var l := UriLookup(config, swis, attrs, uri, false);
      var e := Exists(false);
      if e.Err? {
        return Err(e.error);
      }
      if !e.value {
        return Ok(());
      }
      assert Found(l) && l.result.value == uri;
      ghost var log1 := swis.log;
      r := RefreshExisting();
      SentSinceTrans(old(swis.log), log1, swis.log, [], []);
    }

    /** The part of `refresh` after the existence check. */
    method RefreshExisting() returns (r: Result<()>)
      requires uri.Some?
      modifies this`swdata, this`attrs, this`customProperties, this`hasCustomProperties, swis`log
      ensures SentSince(old(swis.log), swis.log, [])
      ensures swdata == Some(CacheFor(swis, old(hasCustomProperties), old(swdata), uri.value))
      ensures Refreshed(config, swdata.value, old(hasCustomProperties), old(attrs), old(customProperties), r, attrs, customProperties)
      ensures r.Ok? ==> (
        && swdata.value.properties.Some?
        && var id := Get(swdata.value.properties.value, config.swidKey);
           attrs == UpdatedAttrs(old(attrs)["id" := id][config.idAttr := id],
                                 config.attrUpdates(swdata.value.properties.value), false))
      ensures r.Ok? ==>
        var cp := RefreshCustomProps(swdata, old(customProperties), ExcludedCustomProps);
        && (cp.Some? ==> customProperties == NoneIfEmpty(cp.value))
        && (cp.None? ==> customProperties == old(customProperties))
    {
      ReadCache();
      var i := GetId();
      if i.Err? {
        return Err(i.error);
      }
      if !hasCustomProperties && swdata.value.customProperties.Some? {
        return Err(AttributeError);
      }
      var cp := RefreshCustomProps(swdata, customProperties, ExcludedCustomProps);
      UpdateAttrs(config.attrUpdates(swdata.value.properties.value), cp, false);
      return Ok(());
    }

    /** The writes of `create`: the object itself, then its custom properties unless they are None. */
    method SendCreate(patch: Swargs)
      requires patch.properties.Some?
      modifies this`uri, swis`log
      ensures uri == Some(swis.CreatedUri(config.entity, patch.properties.value))
      ensures SentSince(old(swis.log), swis.log, CreateWrites(config, swis, patch))
    {
      var created := swis.Create(config.entity, patch.properties.value);
      uri := Some(created);
      SentWrite(old(swis.log), CreateCall(config.entity, patch.properties.value));
      if patch.customProperties.Some? {
        ghost var log1 := swis.log;
        var c := UpdateCall(created + "/CustomProperties", patch.customProperties.value);
        swis.Update(created + "/CustomProperties", patch.customProperties.value);
        SentWrite(log1, c);
        SentSinceTrans(old(swis.log), log1, swis.log, [CreateCall(config.entity, patch.properties.value)], [c]);
      }
    }

    /**
     * `create`: False for an existing object; raises for a missing patch,
     * a required attribute that is None, or a patch without properties;
     * otherwise creates the object and reads back its data and id.
     */
    method Create() returns (r: Result<bool>)
      modifies this`uri, this`present, this`swdata, this`swargs, this`attrs, this`customProperties, this`hasCustomProperties, swis`log
      ensures r == Ok(false) ==> SentSince(old(swis.log), swis.log, [])
      ensures r == Ok(true) ==> (
        && swargs.Some? && swargs.value.properties.Some?
        && SentSince(old(swis.log), swis.log, CreateWrites(config, swis, swargs.value)))
      ensures old(uri).Some? && old(uri).value != "" ==> r == Ok(false) && swis.log == old(swis.log)
      ensures Extends(old(swis.log), swis.log)
      ensures CreateOutcome(config, swis, UriLookup(config, swis, old(attrs), old(uri), false), old(attrs),
                            NextSwargs(config, old(attrs), old(hasCustomProperties), old(customProperties), old(swargs)),
                            r, old(swis.log), swis.log)
    {
      ghost var l := UriLookup(config, swis, attrs, uri, false);
      var e := Exists(false);
      if e.Err? {
        return Err(e.error);
      }
      if e.value {
        return Ok(false);
      }
      r := CreateMissing(l, old(swis.log));
    }

    /** The branch of `create` for an object the lookup `l` did not find: the checks, then the creation. */
    method CreateMissing(ghost l: Lookup, ghost log0: seq<Call>) returns (r: Result<bool>)
      requires l.result.Ok? && !Found(l)
      requires SentSince(log0, swis.log, [])
      modifies this`uri, this`present, this`swdata, this`swargs, this`attrs, this`customProperties, this`hasCustomProperties, swis`log
      ensures r == Ok(true) ==> (
        && swargs.Some? && swargs.value.properties.Some?
        && SentSince(log0, swis.log, CreateWrites(config, swis, swargs.value)))
      ensures r != Ok(false) && Extends(log0, swis.log)
      ensures CreateOutcome(config, swis, l, old(attrs), NextSwargs(config, old(attrs), old(hasCustomProperties), old(customProperties), old(swargs)),
                            r, log0, swis.log)
    {
      BuildSwargs();
      if swargs.None? {
        return Err(SWObjectPropertyError);
      }
      var n := FirstUnset(attrs, config.requiredSwargsAttrs);
      if n < |config.requiredSwargsAttrs| {
        return Err(SWObjectPropertyError);
      }
      if swargs.value.properties.None? {
        return Err(TypeError);
      }
      ghost var log1 := swis.log;
      r := CreateNew();
      SentSinceTrans(log0, log1, swis.log, [], CreateWrites(config, swis, swargs.value));
    }

    /** The part of `create` after the checks: create, then read back data, id and attributes. */
    method CreateNew() returns (r: Result<bool>)
      requires swargs.Some? && swargs.value.properties.Some?
      modifies this`uri, this`present, this`swdata, this`attrs, this`customProperties, this`hasCustomProperties, swis`log
      ensures SentSince(old(swis.log), swis.log, CreateWrites(config, swis, swargs.value))
      ensures r.Ok? ==> r.value
    {
      ghost var w := CreateWrites(config, swis, swargs.value);
      SendCreate(swargs.value);
      ghost var log2 := swis.log;
      var g := GetSwData(false, Both);
      assert g == Ok(());
      var i := GetId();
      if i.Err? {
        SentSinceTrans(old(swis.log), log2, swis.log, w, []);
        assert w + [] == w;
        return Err(i.error);
      }
      ghost var log3 := swis.log;
      var f := Refresh();
      SentSinceTrans(log2, log3, swis.log, [], []);
      SentSinceTrans(old(swis.log), log2, swis.log, w, []);
      assert w + [] == w;
      if f.Err? {
        return Err(f.error);
      }
      return Ok(true);
    }

    /**
     * `update`: for an existing object, sends the pending changes (working
     * them out first when there are none); for a new one, creates it.
     */
    method Update() returns (r: Result<bool>)
      modifies this`uri, this`present, this`swdata, this`swargs, this`changes, this`attrs, this`customProperties, this`hasCustomProperties, swis`log
      ensures Extends(old(swis.log), swis.log)
      ensures old(uri).Some? && old(uri).value != "" ==> uri == old(uri)
      ensures UpdateOutcome(config, swis, UriLookup(config, swis, old(attrs), old(uri), false), old(attrs),
                            NextSwargs(config, old(attrs), old(hasCustomProperties), old(customProperties), old(swargs)),
                            old(swdata), old(hasCustomProperties), old(changes), r, old(swis.log), swis.log, uri, changes, swdata)
    {
      ghost var p := NextSwargs(config, attrs, hasCustomProperties, customProperties, swargs);
      BuildSwargs();
      NextSwargsTwice(config, attrs, hasCustomProperties, customProperties, old(swargs));
      assert NextSwargs(config, attrs, hasCustomProperties, customProperties, swargs) == p;
      r := UpdateBuilt(p);
    }

    /** `update` after `_build_swargs` has made the patch `p`: the existence check and the branch it picks. */
    method UpdateBuilt(ghost p: Option<Swargs>) returns (r: Result<bool>)
      requires NextSwargs(config, attrs, hasCustomProperties, customProperties, swargs) == p
      modifies this`uri, this`present, this`swdata, this`swargs, this`changes, this`attrs, this`customProperties, this`hasCustomProperties, swis`log
      ensures Extends(old(swis.log), swis.log)
      ensures old(uri).Some? && old(uri).value != "" ==> uri == old(uri)
      ensures UpdateOutcome(config, swis, UriLookup(config, swis, old(attrs), old(uri), false), old(attrs), p,
                            old(swdata), old(hasCustomProperties), old(changes), r, old(swis.log), swis.log, uri, changes, swdata)
    {
      ghost var l := UriLookup(config, swis, attrs, uri, false);
      var e := Exists(false);
      if e.Err? {
        assert l.result.Err?;
        return Err(e.error);
      }
      if !e.value {
        assert !Found(l);
        LookupAgain(config, swis, attrs, old(uri));
        r := UpdateNew(l, p, old(swdata), old(hasCustomProperties), old(changes), old(swis.log));
      } else {
        assert Found(l) && l.result.value == uri;
        r := UpdateFound(l, p, old(attrs), old(swis.log));
      }
    }

    /** The branch of `update` for an object the lookup `l` did not find: `create`, whose own lookup finds nothing again. */
    method UpdateNew(ghost l: Lookup, ghost p: Option<Swargs>, ghost cache0: Option<SwData>, ghost hasCustomProperties0: bool,
                     ghost pending: Option<Changes>, ghost log0: seq<Call>) returns (r: Result<bool>)
      requires l.result.Ok? && !Found(l)
      requires var l2 := UriLookup(config, swis, attrs, uri, false); l2.result.Ok? && !Found(l2)
      requires NextSwargs(config, attrs, hasCustomProperties, customProperties, swargs) == p
      requires SentSince(log0, swis.log, [])
      modifies this`uri, this`present, this`swdata, this`swargs, this`attrs, this`customProperties, this`hasCustomProperties, swis`log
      ensures Extends(log0, swis.log)
      ensures CreateOutcome(config, swis, l, old(attrs), p, r, log0, swis.log)
      ensures UpdateOutcome(config, swis, l, old(attrs), p, cache0, hasCustomProperties0, pending, r, log0, swis.log, uri, changes, swdata)
    {
      ghost var l2 := UriLookup(config, swis, attrs, uri, false);
      ghost var log1 := swis.log;
      r := Create();
      CreatedAfterLookup(config, swis, l, l2, old(attrs), p, r, log0, log1, swis.log);
      ExtendsTrans(log0, log1, swis.log);
    }

    /** The branch of `update` for an object found at its URI: the answer and writes of `UpdatedExisting`. */
    method UpdateFound(ghost l: Lookup, ghost p: Option<Swargs>, ghost attrs0: Props, ghost log0: seq<Call>) returns (r: Result<bool>)
      requires Found(l) && l.result.value == uri
      requires NextSwargs(config, attrs, hasCustomProperties, customProperties, swargs) == p
      requires SentSince(log0, swis.log, [])
      modifies this`uri, this`present, this`swdata, this`swargs, this`changes, swis`log
      ensures uri == old(uri) && Extends(log0, swis.log)
      ensures UpdatedExisting(old(changes), DiffFound(p, CacheFor(swis, hasCustomProperties, old(swdata), uri.value)),
                              uri.value, r, log0, swis.log, changes)
      ensures swdata == CacheAfterUpdate(swis, hasCustomProperties, p, old(changes), old(swdata), uri.value)
      ensures UpdateOutcome(config, swis, l, attrs0, p, old(swdata), hasCustomProperties, old(changes), r, log0, swis.log, uri, changes, swdata)
    {
      ghost var log1 := swis.log;
      r := UpdateExisting();
      UpdatedAfterLookup(old(changes), DiffFound(p, CacheFor(swis, hasCustomProperties, old(swdata), uri.value)),
                         uri.value, r, log0, log1, swis.log, changes);
      ExtendsTrans(log0, log1, swis.log);
    }

    /** The branch of `update` for an existing object. */
    method UpdateExisting() returns (r: Result<bool>)
      requires uri.Some? && uri.value != ""
      modifies this`uri, this`present, this`swdata, this`swargs, this`changes, swis`log
      ensures uri == old(uri) && Extends(old(swis.log), swis.log)
      ensures r == Ok(false) ==> changes.None? && SentSince(old(swis.log), swis.log, [])
      ensures old(changes).Some? ==>
        r == Ok(true) && changes.None? && SentSince(old(swis.log), swis.log, ChangeWrites(old(uri).value, old(changes).value))
      ensures UpdatedExisting(old(changes), DiffFound(NextSwargs(config, attrs, hasCustomProperties, customProperties, old(swargs)),
                                                      CacheFor(swis, hasCustomProperties, old(swdata), uri.value)),
                              uri.value, r, old(swis.log), swis.log, changes)
      ensures swdata == CacheAfterUpdate(swis, hasCustomProperties, NextSwargs(config, attrs, hasCustomProperties, customProperties, old(swargs)),
                                         old(changes), old(swdata), uri.value)
    {
      if changes.Some? {
        r := PushChanges();
        return;
      }
      var d := Diff();
      if d.Err? {
        return Err(d.error);
      }
      ghost var log2 := swis.log;
      ghost var w := if changes.Some? then ChangeWrites(uri.value, changes.value) else [];
      if changes.None? {
        SentNothing(log2);
      }
      r := PushChanges();
      SentSinceTrans(old(swis.log), log2, swis.log, [], w);
    }
  }
}
