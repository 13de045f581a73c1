/**
 * The change-tracking rules of the `Endpoint` base class
 * (pysolarwinds/endpoints/__init__.py, and line for line the same in
 * pysolarwinds/endpoint.py): how local attributes become a SWIS patch, how
 * that patch is compared with the cached remote record, and how the cache
 * flows back into attributes without clobbering them.
 */
module EndpointDiff {
  import opened Wrappers
  import opened PyValue

  // ---- _diff_properties ----

  /**
   * The property patch: every local key whose value differs from the cached
   * one once falsy values are read as None, sent as the local value or "".
   */
  function PropertyChanges(local: Props, cached: Props): (r: Props)
    ensures r.Keys <= local.Keys
  {
    map k | k in local && OrNull(local[k]) != OrNull(Get(cached, k)) :: OrEmpty(local[k])
  }

  /**
   * A key is reported exactly when the two sides are neither equal nor both
   * falsy; the reported value is truthy exactly when the local one is.
   */
  lemma PropertyChangesExactly(local: Props, cached: Props, k: string)
    ensures k in PropertyChanges(local, cached) <==>
      k in local && local[k] != Get(cached, k) && (Truthy(local[k]) || Truthy(Get(cached, k)))
    ensures k in PropertyChanges(local, cached) ==>
      Truthy(PropertyChanges(local, cached)[k]) == Truthy(local[k])
  {
    if k in local {
      OrNullAgree(local[k], Get(cached, k));
    }
  }

  /** Once the patch is written into the cache, diffing again finds nothing. */
  lemma PropertyChangesSettle(local: Props, cached: Props)
    ensures PropertyChanges(local, Update(cached, PropertyChanges(local, cached))) == map[]
  {
    var changes := PropertyChanges(local, cached);
    var after := Update(cached, changes);
    forall k | k in local
      ensures OrNull(local[k]) == OrNull(Get(after, k))
    {
      if k in changes {
        assert Get(after, k) == OrEmpty(local[k]);
      } else {
        assert Get(after, k) == Get(cached, k);
      }
    }
    assert PropertyChanges(local, after).Keys == {};
  }

  /** A cache that already agrees with every local value yields an empty patch. */
  lemma PropertyChangesNoneWhenEqual(local: Props, cached: Props)
    requires forall k :: k in local ==> k in cached && cached[k] == local[k]
    ensures PropertyChanges(local, cached) == map[]
  {
    assert PropertyChanges(local, cached).Keys == {};
  }

  /** `_diff_properties`: the patch, or None when it is empty. */
  method DiffProperties(local: Props, cached: Props) returns (changes: Option<Props>)
    ensures changes.None? <==> PropertyChanges(local, cached) == map[]
    ensures changes.Some? ==> changes.value == PropertyChanges(local, cached)
  {
    var found: Props := map[];
    var todo := local.Keys;
    while todo != {}
      invariant todo <= local.Keys
      invariant found.Keys <= local.Keys - todo
      invariant forall k :: k in local && k !in todo ==>
        (k in found <==> OrNull(local[k]) != OrNull(Get(cached, k)))
      invariant forall k :: k in found ==> found[k] == OrEmpty(local[k])
      decreases |todo|
    {
      var k :| k in todo;
      var localV := OrNull(local[k]);
      var swV := OrNull(Get(cached, k));
      if localV != swV {
        found := found[k := OrEmpty(localV)];
      }
      todo := todo - {k};
    }
    assert found == PropertyChanges(local, cached);
    if |found| != 0 {
      changes := Some(found);
    } else {
      changes := None;
    }
  }

  // ---- _diff_custom_properties ----

  predicate Filled(m: Option<Props>) { m.Some? && |m.value| != 0 }

  /**
   * The custom-property patch: local keys whose value differs from the cached
   * one, and only when both maps are non-empty.
   */
  function CustomPropertyChanges(local: Option<Props>, cached: Option<Props>): (r: Props)
    ensures !Filled(local) || !Filled(cached) ==> r == map[]
    ensures Filled(local) && Filled(cached) ==>
      forall k :: k in r <==> k in local.value && local.value[k] != Get(cached.value, k)
    ensures forall k :: k in r ==> local.Some? && k in local.value && r[k] == local.value[k]
  {
    if Filled(local) && Filled(cached) then
      map k | k in local.value && local.value[k] != Get(cached.value, k) :: local.value[k]
    else map[]
  }

  /** Clearing every local custom property sends nothing, whatever is cached. */
  lemma ClearingCustomPropertiesSendsNothing(cached: Option<Props>)
    ensures CustomPropertyChanges(Some(map[]), cached) == map[]
    ensures CustomPropertyChanges(None, cached) == map[]
  {
  }

  /** Once written into the cache, the custom-property patch is empty. */
  lemma CustomPropertyChangesSettle(local: Props, cached: Props)
    requires |cached| != 0
    ensures CustomPropertyChanges(Some(local), Some(Update(cached, CustomPropertyChanges(Some(local), Some(cached))))) == map[]
  {
    var changes := CustomPropertyChanges(Some(local), Some(cached));
    var after := Update(cached, changes);
    assert cached.Keys <= after.Keys;
    if |local| != 0 {
      assert exists k :: k in cached;
      var k0 :| k0 in cached;
      assert k0 in after;
      assert |after| != 0;
    }
    forall k | k in local ensures local[k] == Get(after, k) {
      if k in changes { } else { assert Get(after, k) == Get(cached, k); }
    }
    assert CustomPropertyChanges(Some(local), Some(after)).Keys == {};
  }

  /** `_diff_custom_properties`: the patch, or None when it is empty. */
  method DiffCustomProperties(local: Option<Props>, cached: Option<Props>) returns (changes: Option<Props>)
    ensures changes.None? <==> CustomPropertyChanges(local, cached) == map[]
    ensures changes.Some? ==> changes.value == CustomPropertyChanges(local, cached)
  {
    var found: Props := map[];
    if Filled(local) && Filled(cached) {
      var args, data := local.value, cached.value;
      var todo := args.Keys;
      while todo != {}
        invariant todo <= args.Keys
        invariant found.Keys <= args.Keys - todo
        invariant forall k :: k in args && k !in todo ==> (k in found <==> args[k] != Get(data, k))
        invariant forall k :: k in found ==> found[k] == args[k]
        decreases |todo|
      {
        var k :| k in todo;
        if Get(data, k) != args[k] {
          found := found[k := args[k]];
        }
        todo := todo - {k};
      }
    }
    assert found == CustomPropertyChanges(local, cached);
    if |found| != 0 {
      changes := Some(found);
    } else {
      changes := None;
    }
  }

  // ---- _get_sw_cprops and _get_cp_updates ----

  /** `_get_sw_cprops`: the cached custom properties minus the excluded keys, or {}. */
  function RemoteCustomProps(cached: Option<Props>, exclude: set<string>): (r: Props)
    ensures Filled(cached) ==> r.Keys == cached.value.Keys - exclude
    ensures !Filled(cached) ==> r == map[]
    ensures forall k :: k in r ==> cached.Some? && k in cached.value && r[k] == cached.value[k]
  {
    if Filled(cached) then Without(cached.value, exclude) else map[]
  }

  /**
   * `_get_cp_updates`: the filtered remote custom properties with the local
   * ones written over them; {} unless both sides are non-empty.
   */
  function CustomPropUpdates(cached: Option<Props>, local: Option<Props>, exclude: set<string>): (r: Props)
    ensures !Filled(cached) || !Filled(local) ==> r == map[]
    ensures Filled(cached) && Filled(local) ==>
      r.Keys == (cached.value.Keys - exclude) + local.value.Keys
    ensures forall k :: k in r && local.Some? && k in local.value ==> r[k] == local.value[k]
    ensures forall k :: k in r && !(local.Some? && k in local.value) ==>
      cached.Some? && k in cached.value && k !in exclude && r[k] == cached.value[k]
  {
    if Filled(cached) && Filled(local) then Update(Without(cached.value, exclude), local.value)
    else map[]
  }

  /** What `refresh` hands to `_update_attrs`: `_get_cp_updates() or _get_sw_cprops()`. */
  function RefreshCustomProps(cached: Option<Props>, local: Option<Props>, exclude: set<string>): Props
  {
    var merged := CustomPropUpdates(cached, local, exclude);
    if |merged| != 0 then merged else RemoteCustomProps(cached, exclude)
  }

  /**
   * After a refresh every cached, non-excluded custom property is present,
   * and holds the local value where there is one and the cached value
   * otherwise; no other key appears except local ones.
   */
  lemma RefreshCustomPropsMerges(cached: Option<Props>, local: Option<Props>, exclude: set<string>)
    requires Filled(cached)
    ensures var r := RefreshCustomProps(cached, local, exclude);
      && cached.value.Keys - exclude <= r.Keys
      && (forall k :: k in r && !(local.Some? && k in local.value) ==> r[k] == cached.value[k])
      && (forall k :: k in r ==> k in cached.value.Keys - exclude || (local.Some? && k in local.value))
  {
    var merged := CustomPropUpdates(cached, local, exclude);
    if Filled(local) {
      assert cached.value.Keys - exclude <= merged.Keys;
      var k :| k in local.value;
      assert k in merged;
    }
  }

  // ---- _update_attrs ----

  /**
   * Attributes after `_update_attrs`: an update replaces an attribute only
   * when that attribute is falsy or `overwrite` is set, and falsy new values
   * are stored as None.
   */
  function UpdatedAttrs(attrs: Props, updates: Props, overwrite: bool): (r: Props)
    ensures r.Keys == attrs.Keys + updates.Keys
  {
    map k | k in attrs.Keys + updates.Keys ::
      if k in updates && (overwrite || !Truthy(Get(attrs, k))) then OrNull(updates[k]) else attrs[k]
  }

  /** Without `overwrite`, a truthy attribute is never clobbered. */
  lemma UpdatedAttrsKeepTruthy(attrs: Props, updates: Props, k: string)
    requires k in attrs && Truthy(attrs[k])
    ensures UpdatedAttrs(attrs, updates, false)[k] == attrs[k]
  {
  }

  /** Every updated key ends truthy exactly when either side was truthy, or overwritten. */
  lemma UpdatedAttrsValue(attrs: Props, updates: Props, overwrite: bool, k: string)
    requires k in updates
    ensures var v := UpdatedAttrs(attrs, updates, overwrite)[k];
      && (overwrite ==> v == OrNull(updates[k]))
      && (!overwrite && Truthy(Get(attrs, k)) ==> v == attrs[k])
      && (!overwrite && !Truthy(Get(attrs, k)) ==> v == OrNull(updates[k]))
  {
  }

  /** Applying the same updates twice is the same as applying them once. */
  lemma UpdatedAttrsIdempotent(attrs: Props, updates: Props, overwrite: bool)
    ensures UpdatedAttrs(UpdatedAttrs(attrs, updates, overwrite), updates, overwrite)
         == UpdatedAttrs(attrs, updates, overwrite)
  {
    var once := UpdatedAttrs(attrs, updates, overwrite);
    var twice := UpdatedAttrs(once, updates, overwrite);
    forall k | k in twice ensures twice[k] == once[k] {
      if k in updates && !overwrite && !Truthy(Get(attrs, k)) {
        assert once[k] == OrNull(updates[k]);
      }
    }
  }

  /** One more update applied on top of the ones already done. */
  lemma UpdatedAttrsPut(attrs: Props, done: Props, k: string, v: Value, overwrite: bool)
    requires k !in done
    ensures var cur := UpdatedAttrs(attrs, done, overwrite);
      UpdatedAttrs(attrs, done[k := v], overwrite)
        == if overwrite || !Truthy(Get(cur, k)) then cur[k := OrNull(v)] else cur
  {
    var cur := UpdatedAttrs(attrs, done, overwrite);
    var next := UpdatedAttrs(attrs, done[k := v], overwrite);
    assert Get(cur, k) == Get(attrs, k);
    var want := if overwrite || !Truthy(Get(cur, k)) then cur[k := OrNull(v)] else cur;
    forall j | j in next ensures j in want && next[j] == want[j] {
    }
    assert next.Keys == want.Keys;
  }

  /** The loop of `_update_attrs`, visiting the updates one key at a time. */
  method ApplyUpdates(attrs0: Props, updates: Props, overwrite: bool) returns (attrs: Props)
    ensures attrs == UpdatedAttrs(attrs0, updates, overwrite)
  {
    attrs := attrs0;
    var todo := updates.Keys;
    assert Without(updates, todo) == map[];
    assert UpdatedAttrs(attrs0, map[], overwrite) == attrs0;
    while todo != {}
      invariant todo <= updates.Keys
      invariant attrs == UpdatedAttrs(attrs0, Without(updates, todo), overwrite)
      decreases |todo|
    {
      var k :| k in todo;
      WithoutStep(updates, todo, k);
      UpdatedAttrsPut(attrs0, Without(updates, todo), k, updates[k], overwrite);
      if !Truthy(Get(attrs, k)) || overwrite {
        attrs := attrs[k := OrNull(updates[k])];
      }
      todo := todo - {k};
    }
    assert Without(updates, {}) == updates;
  }

  // ---- _build_swargs ----

  /** The properties of the patch: each swargs attribute under its SWIS name, later ones winning. */
  function SwargsProperties(attrs: Props, swargsAttrs: seq<string>, attrMap: map<string, string>): Props
    requires forall i :: 0 <= i < |swargsAttrs| ==> swargsAttrs[i] in attrMap
    decreases |swargsAttrs|
  {
    if swargsAttrs == [] then map[]
    else
      var last := swargsAttrs[|swargsAttrs| - 1];
      SwargsProperties(attrs, swargsAttrs[..|swargsAttrs| - 1], attrMap)[attrMap[last] := Get(attrs, last)]
  }

  /** The patch holds exactly the SWIS names of the swargs attributes. */
  lemma {:induction false} SwargsPropertiesKeys(attrs: Props, swargsAttrs: seq<string>, attrMap: map<string, string>)
    requires forall i :: 0 <= i < |swargsAttrs| ==> swargsAttrs[i] in attrMap
    ensures forall k :: k in SwargsProperties(attrs, swargsAttrs, attrMap) <==>
      exists i :: 0 <= i < |swargsAttrs| && attrMap[swargsAttrs[i]] == k
    decreases |swargsAttrs|
  {
    if swargsAttrs != [] {
      var n := |swargsAttrs| - 1;
      var init := swargsAttrs[..n];
      SwargsPropertiesKeys(attrs, init, attrMap);
      forall k ensures k in SwargsProperties(attrs, swargsAttrs, attrMap) <==>
        exists i :: 0 <= i < |swargsAttrs| && attrMap[swargsAttrs[i]] == k
      {
        if k in SwargsProperties(attrs, swargsAttrs, attrMap) && k != attrMap[swargsAttrs[n]] {
          assert k in SwargsProperties(attrs, init, attrMap);
          var i :| 0 <= i < |init| && attrMap[init[i]] == k;
          assert attrMap[swargsAttrs[i]] == k;
        }
        if exists i :: 0 <= i < |swargsAttrs| && attrMap[swargsAttrs[i]] == k {
          var i :| 0 <= i < |swargsAttrs| && attrMap[swargsAttrs[i]] == k;
          if i < n { assert attrMap[init[i]] == k; }
        }
      }
    }
  }

  /** Where no two swargs attributes share a SWIS name, each name carries its attribute's value. */
  lemma {:induction false} SwargsPropertiesValues(attrs: Props, swargsAttrs: seq<string>, attrMap: map<string, string>)
    requires forall i :: 0 <= i < |swargsAttrs| ==> swargsAttrs[i] in attrMap
    requires forall i, j :: 0 <= i < j < |swargsAttrs| ==> attrMap[swargsAttrs[i]] != attrMap[swargsAttrs[j]]
    ensures forall i :: 0 <= i < |swargsAttrs| ==>
      && attrMap[swargsAttrs[i]] in SwargsProperties(attrs, swargsAttrs, attrMap)
      && SwargsProperties(attrs, swargsAttrs, attrMap)[attrMap[swargsAttrs[i]]] == Get(attrs, swargsAttrs[i])
    decreases |swargsAttrs|
  {
    if swargsAttrs != [] {
      var n := |swargsAttrs| - 1;
      var init := swargsAttrs[..n];
      SwargsPropertiesValues(attrs, init, attrMap);
      forall i | 0 <= i < |swargsAttrs|
        ensures && attrMap[swargsAttrs[i]] in SwargsProperties(attrs, swargsAttrs, attrMap)
                && SwargsProperties(attrs, swargsAttrs, attrMap)[attrMap[swargsAttrs[i]]] == Get(attrs, swargsAttrs[i])
      {
        if i < n {
          assert init[i] == swargsAttrs[i];
        }
      }
    }
  }

  /** The full property patch: the mapped attributes, then the extra swargs written over them. */
  function PatchProperties(attrs: Props, swargsAttrs: seq<string>, attrMap: map<string, string>, extra: Props): (r: Props)
    requires forall i :: 0 <= i < |swargsAttrs| ==> swargsAttrs[i] in attrMap
    ensures forall k :: k in extra ==> k in r && r[k] == extra[k]
    ensures r.Keys == SwargsProperties(attrs, swargsAttrs, attrMap).Keys + extra.Keys
  {
    Update(SwargsProperties(attrs, swargsAttrs, attrMap), extra)
  }
}
