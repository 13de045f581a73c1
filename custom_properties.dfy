/**
 * `CustomProperties` (pysolarwinds/custom_properties.py): the custom
 * properties of an entity, read from `<entity uri>/CustomProperties`,
 * mirrored as attributes, and written back whole when any attribute changed.
 */
module CustomProperties {
  import opened Wrappers
  import opened PyValue
  import opened Transport
  import opened Text
  import Entities

  /** `EXCLUDE_ATTRS`. */
  const ExcludedAttrs: set<string> := {"DisplayName", "Description", "InstanceType", "InstanceSiteId", "Uri"}

  /**
   * `re.match(r"^.*ID$", k)`: "ID" at the end, or just before a final
   * newline, with no newline before it (`.` does not match one).
   */
  predicate EndsInId(k: string)
  {
    || (EndsWith(k, "ID") && '\n' !in k[..|k| - 2])
    || (EndsWith(k, "ID\n") && '\n' !in k[..|k| - 3])
  }

  /** Whether a key read from SWIS is kept as a custom property. */
  predicate Kept(k: string)
  {
    k !in ExcludedAttrs && !EndsInId(k)
  }

  /** The custom properties kept from a record. */
  function KeptProps(data: Props): (r: Props)
    ensures r.Keys <= data.Keys
    ensures forall k :: k in r <==> k in data && Kept(k)
    ensures forall k :: k in r ==> r[k] == data[k]
  {
    map k | k in data && Kept(k) :: data[k]
  }

  /** The entries of `props` whose attribute now holds another value, with that value. */
  function ChangedProps(props: Props, attrs: Props): (r: Props)
    ensures r.Keys <= props.Keys
    ensures forall k :: k in r <==> k in props && props[k] != Get(attrs, k)
    ensures forall k :: k in r ==> r[k] == Get(attrs, k)
  {
    map k | k in props && props[k] != Get(attrs, k) :: Get(attrs, k)
  }

  /** `props` after `save`: the same keys, each with its attribute's value. */
  function SavedProps(props: Props, attrs: Props): (r: Props)
    ensures r.Keys == props.Keys
    ensures forall k :: k in r ==> r[k] == Get(attrs, k)
  {
    map k | k in props :: Get(attrs, k)
  }

  /** Saving the saved map finds nothing changed. */
  lemma SavedSettles(props: Props, attrs: Props)
    ensures ChangedProps(SavedProps(props, attrs), attrs) == map[]
  {
    assert ChangedProps(SavedProps(props, attrs), attrs).Keys == {};
  }

  /** The saved map is the old one with the changed entries on top. */
  lemma SavedIsUpdate(props: Props, attrs: Props)
    ensures SavedProps(props, attrs) == Update(props, ChangedProps(props, attrs))
  {
    var a := SavedProps(props, attrs);
    var b := Update(props, ChangedProps(props, attrs));
    assert a.Keys == b.Keys;
    forall k | k in a ensures a[k] == b[k] {
    }
  }

  /** One more key walked by the loop of `__init__`. */
  lemma KeptStep(record: Props, todo: set<string>, k: string)
    requires k in todo && k in record
    ensures var cur := KeptProps(Without(record, todo));
      KeptProps(Without(record, todo - {k})) == if Kept(k) then cur[k := record[k]] else cur
  {
    var cur := KeptProps(Without(record, todo));
    var next := KeptProps(Without(record, todo - {k}));
    var want := if Kept(k) then cur[k := record[k]] else cur;
    assert next.Keys == want.Keys;
  }

  /** The loop of `__init__` that fills `props`. */
  method KeepProps(record: Props) returns (kept: Props)
    ensures kept == KeptProps(record)
  {
    kept := map[];
    var todo := record.Keys;
    assert Without(record, todo) == map[];
    while todo != {}
      invariant todo <= record.Keys
      invariant kept == KeptProps(Without(record, todo))
      decreases |todo|
    {
      var k :| k in todo;
      KeptStep(record, todo, k);
      if Kept(k) {
        kept := kept[k := record[k]];
      }
      todo := todo - {k};
    }
    assert Without(record, {}) == record;
  }

  /** `props` part-way through the loop of `save`: the keys still to visit keep their old value. */
  function PartlySaved(props: Props, attrs: Props, todo: set<string>): (r: Props)
  {
    map k | k in props :: if k in todo then props[k] else Get(attrs, k)
  }

  /** One more key walked by the loop of `save`. */
  lemma SaveStep(props: Props, attrs: Props, todo: set<string>, k: string)
    requires k in todo && k in props
    ensures PartlySaved(props, attrs, todo)[k] == props[k]
    ensures PartlySaved(props, attrs, todo - {k}) == PartlySaved(props, attrs, todo)[k := Get(attrs, k)]
    ensures var cur := ChangedProps(Without(props, todo), attrs);
      ChangedProps(Without(props, todo - {k}), attrs) == if props[k] != Get(attrs, k) then cur[k := Get(attrs, k)] else cur
  {
    var cur := ChangedProps(Without(props, todo), attrs);
    var next := ChangedProps(Without(props, todo - {k}), attrs);
    var want := if props[k] != Get(attrs, k) then cur[k := Get(attrs, k)] else cur;
    assert next.Keys == want.Keys;
    var a := PartlySaved(props, attrs, todo - {k});
    var b := PartlySaved(props, attrs, todo)[k := Get(attrs, k)];
    assert a.Keys == b.Keys;
  }

  lemma UpdateOnTop(d: Props, m: Props, k: string, v: Value)
    ensures Update(d, m[k := v]) == Update(d, m)[k := v]
  {
    assert Update(d, m[k := v]).Keys == Update(d, m)[k := v].Keys;
  }

  /** The invariant of the loop of `save`, with `todo` the keys still to visit. */
  predicate SaveInvariant(props0: Props, data0: Props, attrs: Props, todo: set<string>,
                          props: Props, data: Props, changed: bool)
  {
    var found := ChangedProps(Without(props0, todo), attrs);
    && todo <= props0.Keys
    && props == PartlySaved(props0, attrs, todo)
    && data == Update(data0, found)
    && (changed <==> |found| != 0)
  }

  /** One iteration of the loop of `save` keeps its invariant. */
  lemma SaveInvariantStep(props0: Props, data0: Props, attrs: Props, todo: set<string>,
                          props: Props, data: Props, changed: bool, k: string)
    requires SaveInvariant(props0, data0, attrs, todo, props, data, changed) && k in todo
    ensures props[k] == props0[k]
    ensures props[k] != Get(attrs, k) ==>
      SaveInvariant(props0, data0, attrs, todo - {k}, props[k := Get(attrs, k)], data[k := Get(attrs, k)], true)
    ensures props[k] == Get(attrs, k) ==>
      SaveInvariant(props0, data0, attrs, todo - {k}, props, data, changed)
  {
    SaveStep(props0, attrs, todo, k);
    var found := ChangedProps(Without(props0, todo), attrs);
    UpdateOnTop(data0, found, k, Get(attrs, k));
  }

  /** The invariant holds before the first iteration, and after the last one gives the result. */
  lemma SaveInvariantEnds(props0: Props, data0: Props, attrs: Props, props: Props, data: Props, changed: bool)
    ensures SaveInvariant(props0, data0, attrs, props0.Keys, props0, data0, false)
    ensures SaveInvariant(props0, data0, attrs, {}, props, data, changed) ==>
      && props == SavedProps(props0, attrs)
      && data == Update(data0, ChangedProps(props0, attrs))
      && (changed <==> |ChangedProps(props0, attrs)| != 0)
  {
    assert Without(props0, props0.Keys) == map[];
    assert ChangedProps(map[], attrs) == map[];
    assert PartlySaved(props0, attrs, props0.Keys) == props0;
    assert Update(data0, map[]) == data0;
    assert Without(props0, {}) == props0;
    assert PartlySaved(props0, attrs, {}) == SavedProps(props0, attrs);
  }

  /** The loop of `save`: the new `props` and `data`, and whether anything changed. */
  method SaveLoop(props0: Props, data0: Props, attrs: Props) returns (props: Props, data: Props, changed: bool)
    ensures props == SavedProps(props0, attrs)
    ensures data == Update(data0, ChangedProps(props0, attrs))
    ensures changed <==> |ChangedProps(props0, attrs)| != 0
  {
    props, data, changed := props0, data0, false;
    var todo := props.Keys;
    SaveInvariantEnds(props0, data0, attrs, props, data, changed);
    while todo != {}
      invariant SaveInvariant(props0, data0, attrs, todo, props, data, changed)
      decreases |todo|
    {
      var k :| k in todo;
      SaveInvariantStep(props0, data0, attrs, todo, props, data, changed, k);
      if props[k] != Get(attrs, k) {
        changed := true;
        props := props[k := Get(attrs, k)];
        data := data[k := Get(attrs, k)];
      }
      todo := todo - {k};
    }
    SaveInvariantEnds(props0, data0, attrs, props, data, changed);
  }

  class CustomPropertyMap {
    const swis: Swis
    const entity: Entities.Entity
    /** The last record read. */
    var data: Props
    /** The kept custom properties as last read or saved. */
    var props: Props
    /** The attributes mirroring `props`, which callers may reassign. */
    var attrs: Props

    /** `uri`: the entity's current URI followed by "/CustomProperties". */
    function Uri(): (r: string)
      reads this, entity
      ensures r == entity.uri + "/CustomProperties"
    {
      entity.uri + "/CustomProperties"
    }

    /** `__init__`: reads the record and keeps, as properties and as attributes, every key that is neither excluded nor an id. */
    constructor (swis: Swis, entity: Entities.Entity)
      modifies swis`log
      ensures this.swis == swis && this.entity == entity
      ensures data == swis.RecordAt(entity.uri + "/CustomProperties")
      ensures props == KeptProps(data) && attrs == props
      ensures swis.log == old(swis.log) + [ReadCall(entity.uri + "/CustomProperties")]
    {
      this.swis := swis;
      this.entity := entity;
      var record := swis.Read(entity.uri + "/CustomProperties");
      data := record;
      var kept := KeepProps(record);
      props := kept;
      attrs := kept;
    }

    /** `read`. */
    method Read()
      modifies this`data, swis`log
      ensures data == swis.RecordAt(Uri())
      ensures swis.log == old(swis.log) + [ReadCall(Uri())]
    {
      data := swis.Read(Uri());
    }

    /**
     * `save`: every property whose attribute changed takes the new value
     * in `props` and `data`; if any did, the whole of `props` is sent.
     * Afterwards nothing is left to send.
     */
    method Save()
      modifies this`props, this`data, swis`log
      ensures props == SavedProps(old(props), attrs)
      ensures data == Update(old(data), ChangedProps(old(props), attrs))
      ensures swis.log == old(swis.log) + (if |ChangedProps(old(props), attrs)| != 0 then [UpdateCall(Uri(), props)] else [])
      ensures ChangedProps(props, attrs) == map[]
    {
      ghost var log0 := swis.log;
      var u := Uri();
      var newProps, newData, changed := SaveLoop(props, data, attrs);
      SavedSettles(props, attrs);
      props := newProps;
      data := newData;
      if changed {
        swis.Update(u, newProps);
      }
      assert swis.log == log0 + (if changed then [UpdateCall(u, newProps)] else []);
    }
  }
}
