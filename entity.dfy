/**
 * `Entity`, the base class of the newest generation
 * (pysolarwinds/entities/__init__.py): an object addressed by URI whose
 * `data` is the record read from SWIS, and whose writable attributes are
 * diffed against that record before an update is sent.
 */
module Entities {
  import opened Wrappers
  import opened PyValue
  import opened Transport
  import opened Endpoints

  /**
   * The URI and record `__init__` settles on before any read: the given
   * URI; else the record found by the subclass `_get_data` when nothing at
   * all was given (and a ValueError when it finds none); a non-empty record
   * supplies the URI over the template filled with the id.
   */
  function InitialIdentity(host: string, template: UriTemplate, id: Value, uri: string, data: Props,
                           lookedUp: Option<Props>): (r: Result<(string, Props)>)
    ensures r.Err? ==> r.error == ValueError
    ensures r.Ok? && |data| != 0 ==> r.value.1 == data
  {
    if !Truthy(id) && uri == "" && |data| == 0 then
      (if lookedUp.Some? && |lookedUp.value| != 0 then Ok((DataUri(lookedUp.value), lookedUp.value))
       else Err(ValueError))
    else if uri != "" then Ok((uri, data))
    else if |data| != 0 then Ok((DataUri(data), data))
    else Ok((template.Format(host, id), data))
  }

  /** Construction fails exactly when nothing identifies the object and the subclass finds no record. */
  lemma InitialIdentityFails(host: string, template: UriTemplate, id: Value, uri: string, data: Props, lookedUp: Option<Props>)
    ensures InitialIdentity(host, template, id, uri, data, lookedUp).Err?
        <==> !Truthy(id) && uri == "" && |data| == 0 && !(lookedUp.Some? && |lookedUp.value| != 0)
  {
  }

  /**
   * Without a URI, an id gives the template URI; supplied data's "Uri"
   * wins over it; a record found by the subclass lookup supplies both the
   * URI and the data.
   */
  lemma InitialIdentityPrecedence(host: string, template: UriTemplate, id: Value, data: Props, lookedUp: Option<Props>)
    ensures Truthy(id) && |data| == 0 ==> InitialIdentity(host, template, id, "", data, lookedUp) == Ok((template.Format(host, id), data))
    ensures |data| != 0 ==> InitialIdentity(host, template, id, "", data, lookedUp) == Ok((DataUri(data), data))
    ensures !Truthy(id) && |data| == 0 && lookedUp.Some? && |lookedUp.value| != 0 ==>
      InitialIdentity(host, template, id, "", data, lookedUp) == Ok((DataUri(lookedUp.value), lookedUp.value))
  {
  }

  /**
   * The diff of `save` without explicit updates: each mapped property
   * whose attribute differs from the record, later entries winning; a
   * mapped property absent from the record is a KeyError.
   */
  function SaveChanges(attrs: Props, data: Props, writeMap: seq<(string, string)>): (r: Result<Props>)
    ensures r.Err? ==> r.error == KeyError
    ensures r.Ok? ==> forall i :: 0 <= i < |writeMap| ==> writeMap[i].1 in data
    decreases |writeMap|
  {
    if writeMap == [] then Ok(map[])
    else
      var init := SaveChanges(attrs, data, writeMap[..|writeMap| - 1]);
      var last := writeMap[|writeMap| - 1];
      if init.Err? then init
      else if last.1 !in data then Err(KeyError)
      else if Get(attrs, last.0) != data[last.1] then Ok(init.value[last.1 := Get(attrs, last.0)])
      else init
  }

  /** The record after the write-back of `save`: every mapped property takes its attribute's value. */
  function WrittenBack(data: Props, attrs: Props, writeMap: seq<(string, string)>): (r: Props)
    decreases |writeMap|
  {
    if writeMap == [] then data
    else
      var last := writeMap[|writeMap| - 1];
      WrittenBack(data, attrs, writeMap[..|writeMap| - 1])[last.1 := Get(attrs, last.0)]
  }

  /** Distinct SWIS property names in a write map. */
  predicate DistinctProps(writeMap: seq<(string, string)>)
  {
    forall i, j :: 0 <= i < j < |writeMap| ==> writeMap[i].1 != writeMap[j].1
  }

  /** The diff fails exactly when a mapped property is missing from the record. */
  lemma {:induction false} SaveChangesFails(attrs: Props, data: Props, writeMap: seq<(string, string)>)
    ensures SaveChanges(attrs, data, writeMap).Err? <==> exists i :: 0 <= i < |writeMap| && writeMap[i].1 !in data
    decreases |writeMap|
  {
    if writeMap != [] {
      var init := writeMap[..|writeMap| - 1];
      SaveChangesFails(attrs, data, init);
      if SaveChanges(attrs, data, init).Err? {
        var i :| 0 <= i < |init| && init[i].1 !in data;
        assert writeMap[i].1 !in data;
      } else if writeMap[|writeMap| - 1].1 in data {
        forall i | 0 <= i < |writeMap| ensures writeMap[i].1 in data {
          if i < |init| {
            assert writeMap[i] == init[i];
          }
        }
      }
    }
  }

  /** The diff names only mapped properties whose attribute differs from the record, each with the attribute's value. */
  lemma {:induction false} SaveChangesSound(attrs: Props, data: Props, writeMap: seq<(string, string)>)
    ensures SaveChanges(attrs, data, writeMap).Ok? ==>
      forall k :: k in SaveChanges(attrs, data, writeMap).value ==>
        exists i :: (0 <= i < |writeMap| && writeMap[i].1 == k && Get(attrs, writeMap[i].0) != data[k]
                     && SaveChanges(attrs, data, writeMap).value[k] == Get(attrs, writeMap[i].0))
    decreases |writeMap|
  {
    if writeMap != [] {
      var init := writeMap[..|writeMap| - 1];
      var last := writeMap[|writeMap| - 1];
      SaveChangesSound(attrs, data, init);
      var r := SaveChanges(attrs, data, writeMap);
      if r.Ok? {
        forall k | k in r.value
          ensures exists i :: (0 <= i < |writeMap| && writeMap[i].1 == k && Get(attrs, writeMap[i].0) != data[k]
                               && r.value[k] == Get(attrs, writeMap[i].0))
        {
          if !(k == last.1 && Get(attrs, last.0) != data[last.1]) {
            var i :| 0 <= i < |init| && init[i].1 == k && Get(attrs, init[i].0) != data[k]
              && SaveChanges(attrs, data, init).value[k] == Get(attrs, init[i].0);
            assert writeMap[i] == init[i];
          }
        }
      }
    }
  }

  /** Every mapped property whose attribute differs from the record is named. */
  lemma {:induction false} SaveChangesComplete(attrs: Props, data: Props, writeMap: seq<(string, string)>)
    ensures SaveChanges(attrs, data, writeMap).Ok? ==>
      forall i :: 0 <= i < |writeMap| && Get(attrs, writeMap[i].0) != data[writeMap[i].1] ==>
        writeMap[i].1 in SaveChanges(attrs, data, writeMap).value
    decreases |writeMap|
  {
    if writeMap != [] {
      var init := writeMap[..|writeMap| - 1];
      var last := writeMap[|writeMap| - 1];
      SaveChangesComplete(attrs, data, init);
      var r := SaveChanges(attrs, data, writeMap);
      if r.Ok? {
        forall i | 0 <= i < |writeMap| && Get(attrs, writeMap[i].0) != data[writeMap[i].1]
          ensures writeMap[i].1 in r.value
        {
          if i < |init| {
            assert writeMap[i] == init[i];
          }
        }
      }
    }
  }

  /**
   * After the write-back every mapped property is in the record, and with
   * distinct property names it holds its attribute's value.
   */
  lemma {:induction false} WrittenBackShape(data: Props, attrs: Props, writeMap: seq<(string, string)>)
    ensures forall i :: 0 <= i < |writeMap| ==> writeMap[i].1 in WrittenBack(data, attrs, writeMap)
    ensures forall k :: k in data && (forall i :: 0 <= i < |writeMap| ==> writeMap[i].1 != k) ==>
      k in WrittenBack(data, attrs, writeMap) && WrittenBack(data, attrs, writeMap)[k] == data[k]
    ensures DistinctProps(writeMap) ==>
      forall i :: 0 <= i < |writeMap| ==> WrittenBack(data, attrs, writeMap)[writeMap[i].1] == Get(attrs, writeMap[i].0)
    decreases |writeMap|
  {
    if writeMap != [] {
      var init := writeMap[..|writeMap| - 1];
      WrittenBackShape(data, attrs, init);
      forall i | 0 <= i < |writeMap| ensures writeMap[i].1 in WrittenBack(data, attrs, writeMap) {
        if i < |init| {
          assert writeMap[i] == init[i];
        }
      }
      forall k | k in data && (forall i :: 0 <= i < |writeMap| ==> writeMap[i].1 != k)
        ensures k in WrittenBack(data, attrs, writeMap) && WrittenBack(data, attrs, writeMap)[k] == data[k]
      {
        forall i | 0 <= i < |init| ensures init[i].1 != k {
          assert init[i] == writeMap[i];
        }
        assert writeMap[|writeMap| - 1].1 != k;
      }
      if DistinctProps(writeMap) {
        assert DistinctProps(init) by {
          forall i, j | 0 <= i < j < |init| ensures init[i].1 != init[j].1 {
            assert init[i] == writeMap[i] && init[j] == writeMap[j];
          }
        }
        forall i | 0 <= i < |writeMap|
          ensures WrittenBack(data, attrs, writeMap)[writeMap[i].1] == Get(attrs, writeMap[i].0)
        {
          if i < |init| {
            assert writeMap[i] == init[i];
            assert writeMap[i].1 != writeMap[|writeMap| - 1].1;
          }
        }
      }
    }
  }

  /** With distinct property names, a diff taken right after a write-back is empty. */
  lemma SaveSettles(data: Props, attrs: Props, writeMap: seq<(string, string)>)
    requires DistinctProps(writeMap)
    ensures SaveChanges(attrs, WrittenBack(data, attrs, writeMap), writeMap) == Ok(map[])
  {
    var back := WrittenBack(data, attrs, writeMap);
    WrittenBackShape(data, attrs, writeMap);
    SaveChangesFails(attrs, back, writeMap);
    SaveChangesSound(attrs, back, writeMap);
    var r := SaveChanges(attrs, back, writeMap);
    assert r.Ok?;
    assert forall k :: k !in r.value;
    assert r.value.Keys == {};
  }

  /** An `Entity` subclass instance. */
  class Entity {
    const swis: Swis
    /** `URI_TEMPLATE`. */
    const template: UriTemplate
    /** `WRITE_ATTR_MAP`: attribute name to SWIS property, in declaration order. */
    const writeMap: seq<(string, string)>
    var id: Value
    /** "" stands for no URI. */
    var uri: string
    /** The cached record; empty until read. */
    var data: Props
    /** Attributes, including those set from keyword arguments. */
    var attrs: Props

    /** The assignments before identity resolution: `uri or ""`, `data or {}`, then the keyword arguments. */
    constructor (swis: Swis, template: UriTemplate, writeMap: seq<(string, string)>,
                 id: Value, uri: string, data: Props, kwargs: Props)
      ensures this.swis == swis && this.template == template && this.writeMap == writeMap
      ensures this.id == id && this.uri == uri && this.data == data && attrs == kwargs
    {
      this.swis := swis;
      this.template := template;
      this.writeMap := writeMap;
      this.id := id;
      this.uri := uri;
      this.data := data;
      attrs := kwargs;
    }

    /**
     * The rest of `__init__`: the URI and record of `InitialIdentity`
     * (`lookedUp` is what the subclass `_get_data` returns), a read when
     * there is still no record, and an id taken from the record by the
     * subclass `_id` (`idOf`) when none was given.
     */
    method Resolve(lookedUp: Option<Props>, idOf: Props -> Value) returns (r: Result<()>)
      modifies this`uri, this`data, this`id, swis`log
      ensures var u := InitialIdentity(swis.host, template, old(id), old(uri), old(data), lookedUp);
        && (u.Err? ==> r == Err(ValueError) && uri == old(uri) && data == old(data) && id == old(id) && swis.log == old(swis.log))
        && (u.Ok? ==> (&& r == Ok(()) && uri == u.value.0
                       && (|u.value.1| != 0 ==> data == u.value.1 && swis.log == old(swis.log))
                       && (|u.value.1| == 0 ==> data == swis.RecordAt(uri) && swis.log == old(swis.log) + [ReadCall(uri)])
                       && id == (if Truthy(old(id)) then old(id) else idOf(data))))
    {
      if !Truthy(id) && uri == "" && |data| == 0 {
        if lookedUp.Some? && |lookedUp.value| != 0 {
          data := lookedUp.value;
        } else {
          return Err(ValueError);
        }
      }
      if uri == "" {
        if Truthy(id) {
          uri := template.Format(swis.host, id);
        }
        if |data| != 0 {
          uri := DataUri(data);
        }
      }
      if |data| == 0 {
        Read();
      }
      if !Truthy(id) {
        id := idOf(data);
      }
      return Ok(());
    }

    /** `read`. */
    method Read()
      modifies this`data, swis`log
      ensures data == swis.RecordAt(uri)
      ensures swis.log == old(swis.log) + [ReadCall(uri)]
    {
      data := swis.Read(uri);
    }

    /** `delete`: one delete call for the URI. */
    method Delete()
      modifies swis`log
      ensures swis.log == old(swis.log) + [DeleteCall([uri])]
    {
      swis.Delete([uri]);
    }

    /** The diff loop of `save`. */
    method Changes() returns (r: Result<Props>)
      ensures r == SaveChanges(attrs, data, writeMap)
    {
      var updates: Props := map[];
      for i := 0 to |writeMap|
        invariant SaveChanges(attrs, data, writeMap[..i]) == Ok(updates)
      {
        assert writeMap[..i + 1][..i] == writeMap[..i];
        var (attr, prop) := writeMap[i];
        if prop !in data {
          ErrorSticks(attrs, data, writeMap, i + 1);
          return Err(KeyError);
        }
        if Get(attrs, attr) != data[prop] {
          updates := updates[prop := Get(attrs, attr)];
        }
      }
      assert writeMap[..|writeMap|] == writeMap;
      return Ok(updates);
    }

    /**
     * `save` (with a fresh `updates` map each call, and without the
     * custom-properties step): explicit updates, or else the diff, are sent
     * in one update call when non-empty, and then every mapped property of
     * the record takes its attribute's value.
     */
    method Save(explicit: Props) returns (r: Result<()>)
      modifies this`data, swis`log
      ensures var updates := if |explicit| != 0 then Ok(explicit) else SaveChanges(attrs, old(data), writeMap);
        && (updates.Err? ==> r == Err(KeyError) && data == old(data) && swis.log == old(swis.log))
        && (updates.Ok? && |updates.value| == 0 ==> r == Ok(()) && data == old(data) && swis.log == old(swis.log))
        && (updates.Ok? && |updates.value| != 0 ==>
              r == Ok(()) && data == WrittenBack(old(data), attrs, writeMap)
              && swis.log == old(swis.log) + [UpdateCall(uri, updates.value)])
    {
      var updates := explicit;
      if |updates| == 0 {
        var found := Changes();
        if found.Err? {
          return Err(found.error);
        }
        updates := found.value;
      }
      if |updates| != 0 {
        swis.Update(uri, updates);
        for i := 0 to |writeMap|
          invariant data == WrittenBack(old(data), attrs, writeMap[..i])
          invariant swis.log == old(swis.log) + [UpdateCall(uri, updates)]
        {
          assert writeMap[..i + 1][..i] == writeMap[..i];
          data := data[writeMap[i].1 := Get(attrs, writeMap[i].0)];
        }
        assert writeMap[..|writeMap|] == writeMap;
      }
      return Ok(());
    }
  }

  /** Once a prefix of the write map fails, the whole diff fails. */
  lemma {:induction false} ErrorSticks(attrs: Props, data: Props, writeMap: seq<(string, string)>, n: nat)
    requires n <= |writeMap| && SaveChanges(attrs, data, writeMap[..n]).Err?
    ensures SaveChanges(attrs, data, writeMap).Err?
    decreases |writeMap| - n
  {
    if n < |writeMap| {
      assert writeMap[..n + 1][..n] == writeMap[..n];
      ErrorSticks(attrs, data, writeMap, n + 1);
    } else {
      assert writeMap[..n] == writeMap;
    }
  }

  /**
   * `Entity.__init__` after the subclass lookup: a new entity from the
   * arguments, then `Resolve`. It fails with ValueError exactly when
   * `InitialIdentity` does, and otherwise has the URI it gives, the
   * record it gives or the one read from that URI, and the given id or
   * the one the record gives.
   */
  method Construct(swis: Swis, template: UriTemplate, writeMap: seq<(string, string)>, id: Value, uri: string,
                   data: Props, kwargs: Props, lookedUp: Option<Props>, idOf: Props -> Value) returns (r: Result<Entity>)
    modifies swis`log
    ensures var u := InitialIdentity(swis.host, template, id, uri, data, lookedUp);
      && (u.Err? ==> r == Err(ValueError) && swis.log == old(swis.log))
      && (u.Ok? ==>
            && r.Ok? && fresh(r.value)
            && r.value.swis == swis && r.value.template == template && r.value.writeMap == writeMap
            && r.value.attrs == kwargs && r.value.uri == u.value.0
            && (|u.value.1| != 0 ==> r.value.data == u.value.1 && swis.log == old(swis.log))
            && (|u.value.1| == 0 ==> r.value.data == swis.RecordAt(u.value.0) && swis.log == old(swis.log) + [ReadCall(u.value.0)])
            && r.value.id == (if Truthy(id) then id else idOf(r.value.data)))
  {
    var e := new Entity(swis, template, writeMap, id, uri, data, kwargs);
    var resolved := e.Resolve(lookedUp, idOf);
    if resolved.Err? {
      return Err(ValueError);
    }
    return Ok(e);
  }
}
