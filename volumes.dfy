/**
 * Volumes of the entity generation (pysolarwinds/entities/orion/volumes.py):
 * a `Volume` is an `Entity` of `Orion.Volumes` with no writable attribute,
 * named by its full description, and a node's `VolumeList` fetches its
 * volumes and deletes one, several or all of them.
 */
module Volumes {
  import opened Wrappers
  import opened PyValue
  import opened Transport
  import Lists
  import BaseLists
  import Endpoints
  import Entities

  /**
   * Stands in for the empty `URI_TEMPLATE` a volume inherits: volumes are
   * built from query records here, which carry their URI, so it is never
   * formatted.
   */
  const Template := Endpoints.UriTemplate("", "", "")

  /** `WRITE_ATTR_MAP`: nothing. */
  const WriteMap: seq<(string, string)> := []

  /** The query of `fetch`: the volumes whose NodeID is the node's id. */
  function FetchQuery(nodeId: Value): Query
  {
    Query("Orion.Volumes", [("NodeID", nodeId)])
  }

  /** `_id`, that is `volume_id`, with a missing VolumeID read as None (construction then fails). */
  function VolumeIdOf(d: Props): Value
  {
    Get(d, "VolumeID")
  }

  /**
   * `name`, that is `volume_description`: `data["VolumeDescription"] or ""`,
   * the untruncated name, with a KeyError when the record has none.
   */
  function NameOf(data: Props): (r: Result<Value>)
    ensures r.Err? <==> "VolumeDescription" !in data
    ensures r.Err? ==> r.error == KeyError
    ensures r.Ok? && Truthy(data["VolumeDescription"]) ==> r.value == data["VolumeDescription"]
    ensures r.Ok? && !Truthy(data["VolumeDescription"]) ==> r.value == Str("")
  {
    if "VolumeDescription" !in data then Err(KeyError) else Ok(Or(data["VolumeDescription"], Str("")))
  }

  /** `data.get(key) == "Y"`, the test of `is_responding` and `volume_responding`. */
  predicate YesFlag(data: Props, key: string)
  {
    Get(data, key) == Str("Y")
  }

  /** Only the text "Y" counts as responding: a missing key, a true boolean or any other text does not. */
  lemma YesFlagExact(data: Props, key: string)
    ensures YesFlag(data, key) <==> key in data && data[key] == Str("Y")
    ensures !YesFlag(data[key := Bool(true)], key) && !YesFlag(data - {key}, key)
    ensures forall s :: s != "Y" ==> !YesFlag(data[key := Str(s)], key)
  {
  }

  /**
   * Why `Volume(swis, node, data=row)` fails, if it does: an empty record
   * leaves `Entity.__init__` nothing to go on (ValueError), and one without
   * VolumeID fails when the id is taken from it (KeyError).
   */
  function RowError(row: Props): (r: Option<Error>)
    ensures r.None? <==> |row| != 0 && "VolumeID" in row
    ensures r == Some(ValueError) <==> |row| == 0
  {
    if |row| == 0 then Some(ValueError)
    else if "VolumeID" !in row then Some(KeyError)
    else None
  }

  /**
   * A volume: an entity with the volume template and no write map, whose
   * id is its record's VolumeID, and the node it belongs to. Its `name`
   * depends on the record alone, which nothing here changes after
   * construction, so it is kept as the value it has then.
   */
  class Volume {
    const entity: Entities.Entity
    const nodeId: Value
    const name: Result<Value>

    constructor (entity: Entities.Entity, nodeId: Value)
      ensures this.entity == entity && this.nodeId == nodeId && name == NameOf(entity.data)
    {
      this.entity := entity;
      this.nodeId := nodeId;
      name := NameOf(entity.data);
    }

    predicate Valid()
      reads entity
    {
      && entity.template == Template && entity.writeMap == WriteMap
      && "VolumeID" in entity.data && entity.id == entity.data["VolumeID"]
      && name == NameOf(entity.data)
    }

    /** `is_responding`. */
    predicate IsResponding()
      reads entity
    {
      YesFlag(entity.data, "Responding")
    }

    /** `volume_responding`. */
    predicate VolumeResponding()
      reads entity
    {
      YesFlag(entity.data, "VolumeResponding")
    }

    /**
     * `delete`: one delete call for the URI, then the volume leaves its
     * node's list (`volumes`) if `get` finds it there.
     */
    method Delete(volumes: VolumeList)
      requires volumes.Valid() && entity.swis == volumes.swis
      modifies entity.swis`log, volumes`items
      ensures volumes.Valid() && this !in volumes.items
      ensures entity.swis.log == old(entity.swis.log) + [DeleteCall([entity.uri])]
      ensures volumes.items == if this in old(volumes.items) then Lists.RemoveFirst(old(volumes.items), this) else old(volumes.items)
    {
      entity.Delete();
      volumes.Forget(this);
    }
  }

  /** A volume as `Volume(swis, node, data=row)` builds it. */
  predicate FromRow(v: Volume, swis: Swis, nodeId: Value, row: Props)
    reads v.entity
  {
    && v.Valid() && v.nodeId == nodeId
    && v.entity.swis == swis && v.entity.uri == Endpoints.DataUri(row) && v.entity.data == row
    && v.entity.attrs == map[] && v.name == NameOf(row)
  }

  /** `Volume(swis, node, data=row)`: `Entity.__init__` with the record alone, which reads nothing. */
  method VolumeFromRow(swis: Swis, nodeId: Value, row: Props) returns (r: Result<Volume>)
    modifies swis`log
    ensures r.Err? <==> RowError(row).Some?
    ensures r.Err? ==> r.error == RowError(row).value
    ensures r.Ok? ==> fresh(r.value) && fresh(r.value.entity) && FromRow(r.value, swis, nodeId, row)
    ensures swis.log == old(swis.log)
  {
    var e := Entities.Construct(swis, Template, WriteMap, Null, "", row, map[], None, VolumeIdOf);
    if e.Err? {
      return Err(ValueError);
    }
    if "VolumeID" !in e.value.data {
      return Err(KeyError);
    }
    var v := new Volume(e.value, nodeId);
    return Ok(v);
  }

  // ---- lists of volumes ----

  /** The entities of a list of volumes. */
  function EntitiesOf(vs: seq<Volume>): (r: seq<Entities.Entity>)
    ensures |r| == |vs| && forall i :: 0 <= i < |vs| ==> r[i] == vs[i].entity
  {
    if vs == [] then [] else EntitiesOf(vs[..|vs| - 1]) + [vs[|vs| - 1].entity]
  }

  /** Each volume's `name`, as it answers it or the error it raises. */
  function NamesOf(vs: seq<Volume>): (r: seq<Result<Value>>)
    ensures |r| == |vs| && forall i :: 0 <= i < |vs| ==> r[i] == vs[i].name
  {
    if vs == [] then [] else NamesOf(vs[..|vs| - 1]) + [vs[|vs| - 1].name]
  }

  /** The URIs of a list of volumes. */
  function UrisOf(vs: seq<Volume>): (r: seq<string>)
    reads EntitiesOf(vs)
    ensures |r| == |vs| && forall i :: 0 <= i < |vs| ==> r[i] == vs[i].entity.uri
  {
    if vs == [] then []
    else
      assert EntitiesOf(vs[..|vs| - 1]) == EntitiesOf(vs)[..|vs| - 1];
      UrisOf(vs[..|vs| - 1]) + [vs[|vs| - 1].entity.uri]
  }

  /** Volumes on one client, each valid, no entity listed twice. */
  predicate ValidVolumes(vs: seq<Volume>, swis: Swis)
    reads EntitiesOf(vs)
  {
    && (forall i :: 0 <= i < |vs| ==> vs[i].entity.swis == swis && vs[i].Valid())
    && (forall i, j :: 0 <= i < j < |vs| ==> vs[i].entity != vs[j].entity)
  }

  /** A list `r` that is a valid `vs` without its `k`th volume is valid and lacks that volume. */
  lemma ShiftValid(vs: seq<Volume>, r: seq<Volume>, k: nat, swis: Swis)
    requires k < |vs| && |r| + 1 == |vs|
    requires forall i :: 0 <= i < |r| ==> r[i] == vs[if i < k then i else i + 1]
    requires ValidVolumes(vs, swis)
    ensures ValidVolumes(r, swis) && vs[k] !in r
  {
    forall i | 0 <= i < |r| ensures r[i].entity.swis == swis && r[i].Valid() && r[i] != vs[k] {
      var i1 := if i < k then i else i + 1;
      assert r[i] == vs[i1] && i1 != k;
    }
    forall i, j | 0 <= i < j < |r| ensures r[i].entity != r[j].entity {
      var i1 := if i < k then i else i + 1;
      var j1 := if j < k then j else j + 1;
      assert r[i] == vs[i1] && r[j] == vs[j1] && i1 < j1;
    }
  }

  /** Removing a listed volume keeps the list valid and drops the volume. */
  lemma RemoveValid(vs: seq<Volume>, v: Volume, swis: Swis)
    requires ValidVolumes(vs, swis) && v in vs
    ensures ValidVolumes(Lists.RemoveFirst(vs, v), swis) && v !in Lists.RemoveFirst(vs, v)
  {
    Lists.RemoveFirstAt(vs, v);
    ShiftValid(vs, Lists.RemoveFirst(vs, v), Lists.IndexOf(vs, v), swis);
  }

  /** `get(name)` on a list of volumes. */
  function Lookup(vs: seq<Volume>, name: string): Result<Option<Volume>>
  {
    BaseLists.Get(vs, NamesOf(vs), BaseLists.Text(name))
  }

  /**
   * The loop of `delete` with a list: `items.remove(v)` for each `v` in
   * turn, stopping at the first one that is no longer listed (where
   * `remove` raises ValueError). Answers what is left and whether every
   * removal succeeded.
   */
  function RemoveEach<T(==)>(items: seq<T>, vs: seq<T>): (seq<T>, bool)
    decreases |vs|
  {
    if vs == [] then (items, true)
    else if vs[0] !in items then (items, false)
    else RemoveEach(Lists.RemoveFirst(items, vs[0]), vs[1..])
  }

  /**
   * The removals all succeed exactly when every volume to remove is listed
   * at least as often as it is named, and then what is left is the list
   * less those volumes.
   */
  lemma {:induction false} RemoveEachCounts<T>(items: seq<T>, vs: seq<T>)
    ensures RemoveEach(items, vs).1 <==> multiset(vs) <= multiset(items)
    ensures RemoveEach(items, vs).1 ==> multiset(RemoveEach(items, vs).0) == multiset(items) - multiset(vs)
    decreases |vs|
  {
    if vs != [] {
      assert vs == [vs[0]] + vs[1..];
      assert multiset(vs) == multiset{vs[0]} + multiset(vs[1..]);
      if vs[0] in items {
        var rest := Lists.RemoveFirst(items, vs[0]);
        RemoveEachCounts(rest, vs[1..]);
        assert multiset(rest) == multiset(items) - multiset{vs[0]};
      } else {
        assert multiset(vs)[vs[0]] > 0 && multiset(items)[vs[0]] == 0;
      }
    }
  }

  /** Whatever the outcome, the removals leave a valid list, and after a full run none of the removed volumes. */
  lemma {:induction false} RemoveEachValid(items: seq<Volume>, vs: seq<Volume>, swis: Swis)
    requires ValidVolumes(items, swis)
    ensures ValidVolumes(RemoveEach(items, vs).0, swis)
    ensures forall x :: x in RemoveEach(items, vs).0 ==> x in items
    ensures RemoveEach(items, vs).1 ==> forall j :: 0 <= j < |vs| ==> vs[j] !in RemoveEach(items, vs).0
    decreases |vs|
  {
    if vs != [] && vs[0] in items {
      var rest := Lists.RemoveFirst(items, vs[0]);
      RemoveValid(items, vs[0], swis);
      Lists.RemoveFirstAt(items, vs[0]);
      RemoveEachValid(rest, vs[1..], swis);
      forall j | 1 <= j < |vs| ensures vs[j] == vs[1..][j - 1] {
      }
    }
  }

  /** The URIs of the volumes built from query rows. */
  function RowUris(rows: seq<Props>): (r: seq<string>)
    ensures |r| == |rows| && forall i :: 0 <= i < |rows| ==> r[i] == Endpoints.DataUri(rows[i])
  {
    if rows == [] then [] else RowUris(rows[..|rows| - 1]) + [Endpoints.DataUri(rows[|rows| - 1])]
  }

  /** The first row no volume can be built from, by its error. */
  function RowsError(rows: seq<Props>): (r: Option<Error>)
    decreases |rows|
  {
    if rows == [] then None
    else if RowError(rows[0]).Some? then RowError(rows[0])
    else RowsError(rows[1..])
  }

  /** Building every row succeeds exactly when each row has what a volume needs. */
  lemma {:induction false} RowsErrorNone(rows: seq<Props>)
    ensures RowsError(rows).None? <==> forall i :: 0 <= i < |rows| ==> RowError(rows[i]).None?
    decreases |rows|
  {
    if rows != [] {
      RowsErrorNone(rows[1..]);
      if RowError(rows[0]).None? {
        assert forall i :: 1 <= i < |rows| ==> rows[i] == rows[1..][i - 1];
      }
    }
  }

  /** Rows until position `i` build; the error of the list is row `i`'s. */
  lemma RowsErrorAt(rows: seq<Props>, i: nat)
    requires i < |rows| && RowError(rows[i]).Some?
    requires forall j :: 0 <= j < i ==> RowError(rows[j]).None?
    ensures RowsError(rows) == RowError(rows[i])
    decreases i
  {
    if i > 0 {
      RowsErrorAt(rows[1..], i - 1);
    }
  }

  /** A node's `volumes`: its volumes, all on the node's client, no entity listed twice. */
  class VolumeList {
    const swis: Swis
    const nodeId: Value
    var items: seq<Volume>

    constructor (swis: Swis, nodeId: Value)
      ensures this.swis == swis && this.nodeId == nodeId && items == []
    {
      this.swis := swis;
      this.nodeId := nodeId;
      items := [];
    }

    predicate Valid()
      reads this, EntitiesOf(items)
    {
      ValidVolumes(items, swis)
    }

    /** The list's part of an item's `delete`: the item leaves the list if `get` finds it there. */
    method Forget(x: Volume)
      requires Valid() && x.entity.swis == swis
      modifies this`items
      ensures Valid() && x !in items
      ensures items == if x in old(items) then Lists.RemoveFirst(old(items), x) else old(items)
    {
      var names := NamesOf(items);
      var found := BaseLists.Get(items, names, BaseLists.Item(x));
      BaseLists.GetItem(items, names, x);
      if found.Ok? && found.value.Some? {
        RemoveValid(items, x, swis);
        items := Lists.RemoveFirst(items, x);
      }
    }

    /** With the query `rows` answered, the volumes `vs` are built from them, one per row, in order. */
    predicate BuiltFrom(vs: seq<Volume>, rows: seq<Props>)
      reads EntitiesOf(vs)
    {
      && |vs| == |rows|
      && (forall i :: 0 <= i < |rows| ==> RowError(rows[i]).None? && FromRow(vs[i], swis, nodeId, rows[i]))
      && (forall i, j :: 0 <= i < j < |vs| ==> vs[i].entity != vs[j].entity)
    }

    /** Volumes built from rows are a valid list whose URIs are the rows'. */
    lemma BuiltValid(vs: seq<Volume>, rows: seq<Props>)
      requires BuiltFrom(vs, rows)
      ensures ValidVolumes(vs, swis) && UrisOf(vs) == RowUris(rows)
    {
      forall i | 0 <= i < |vs| ensures vs[i].entity.swis == swis && vs[i].Valid() && vs[i].entity.uri == Endpoints.DataUri(rows[i]) {
        assert FromRow(vs[i], swis, nodeId, rows[i]);
      }
    }

    /** `delete(volume)`: the volume's own `delete`, which leaves this list without it. */
    method DeleteOne(v: Volume)
      requires Valid() && v.entity.swis == swis
      modifies this`items, swis`log
      ensures Valid() && v !in items
      ensures swis.log == old(swis.log) + [DeleteCall([v.entity.uri])]
      ensures items == if v in old(items) then Lists.RemoveFirst(old(items), v) else old(items)
    {
      v.Delete(this);
    }

    /**
     * `delete(volumes)` with a list: one delete call for all their URIs,
     * then each is removed from this list in turn. The removals succeed
     * exactly when every volume is listed as often as it is named; the
     * first one that is not raises ValueError, and the removals before it
     * stay done.
     */
    method DeleteMany(vs: seq<Volume>) returns (r: Result<()>)
      requires Valid()
      modifies this`items, swis`log
      ensures Valid()
      ensures swis.log == old(swis.log) + [DeleteCall(old(UrisOf(vs)))]
      ensures items == RemoveEach(old(items), vs).0
      ensures r.Ok? <==> multiset(vs) <= multiset(old(items))
      ensures r.Err? ==> r.error == ValueError
      ensures r.Ok? ==> (multiset(items) == multiset(old(items)) - multiset(vs)
                         && forall j :: 0 <= j < |vs| ==> vs[j] !in items)
    {
      RemoveEachCounts(items, vs);
      RemoveEachValid(items, vs, swis);
      swis.Delete(UrisOf(vs));
      r := RemoveAll(vs);
    }

    /** The removals of `delete(volumes)`: `RemoveEach` on this list. */
    method RemoveAll(vs: seq<Volume>) returns (r: Result<()>)
      requires Valid()
      modifies this`items
      ensures Valid()
      ensures items == RemoveEach(old(items), vs).0
      ensures r.Ok? <==> RemoveEach(old(items), vs).1
      ensures r.Err? ==> r.error == ValueError
    {
      for i := 0 to |vs|
        invariant Valid()
        invariant RemoveEach(items, vs[i..]) == RemoveEach(old(items), vs)
      {
        if vs[i] !in items {
          return Err(ValueError);
        }
        RemoveValid(items, vs[i], swis);
        assert vs[i..][1..] == vs[i + 1..];
        items := Lists.RemoveFirst(items, vs[i]);
      }
      return Ok(());
    }

    /** One row of `fetch`: a new volume that extends `BuiltFrom` by that row. */
    method BuildNext(vs: seq<Volume>, rows: seq<Props>, row: Props) returns (r: Result<Volume>)
      requires BuiltFrom(vs, rows)
      modifies swis`log
      ensures swis.log == old(swis.log)
      ensures r.Err? <==> RowError(row).Some?
      ensures r.Err? ==> r.error == RowError(row).value
      ensures r.Ok? ==> fresh(r.value) && fresh(r.value.entity) && BuiltFrom(vs + [r.value], rows + [row])
    {
      r := VolumeFromRow(swis, nodeId, row);
      if r.Ok? {
        var ws := vs + [r.value];
        assert forall j :: 0 <= j < |vs| ==> ws[j] == vs[j];
      }
    }

    /** The volumes of query rows, built in order; the first row that cannot be built raises. */
    method BuildAll(rows: seq<Props>) returns (r: Result<seq<Volume>>)
      modifies swis`log
      ensures swis.log == old(swis.log)
      ensures r.Ok? <==> RowsError(rows).None?
      ensures r.Err? ==> RowsError(rows) == Some(r.error)
      ensures r.Ok? ==> BuiltFrom(r.value, rows)
    {
      var vs: seq<Volume> := [];
      for i := 0 to |rows|
        invariant swis.log == old(swis.log)
        invariant BuiltFrom(vs, rows[..i])
        invariant forall j :: 0 <= j < i ==> fresh(vs[j].entity)
      {
        var v := BuildNext(vs, rows[..i], rows[i]);
        if v.Err? {
          RowsErrorAt(rows, i);
          return Err(v.error);
        }
        assert rows[..i + 1] == rows[..i] + [rows[i]];
        vs := vs + [v.value];
      }
      assert rows[..|rows|] == rows;
      RowsErrorNone(rows);
      return Ok(vs);
    }

    /**
     * `fetch`: the node's volumes replace the list when the query returns
     * any; with no rows, or when a row cannot be built, the list is kept.
     */
    method Fetch() returns (r: Result<()>)
      requires Valid()
      modifies this`items, swis`log
      ensures Valid()
      ensures swis.log == old(swis.log) + [QueryCall(FetchQuery(nodeId))]
      ensures var rows := swis.RowsFor(FetchQuery(nodeId));
        && (rows == [] ==> r == Ok(()) && items == old(items))
        && (rows != [] && RowsError(rows).Some? ==> r == Err(RowsError(rows).value) && items == old(items))
        && (rows != [] && RowsError(rows).None? ==> r == Ok(()) && BuiltFrom(items, rows))
    {
      var rows := swis.RunQuery(FetchQuery(nodeId));
      if rows == [] {
        return Ok(());
      }
      var vs := BuildAll(rows);
      if vs.Err? {
        return Err(vs.error);
      }
      Install(vs.value, rows);
      return Ok(());
    }

    /** Makes the volumes built from `rows` the list. */
    method Install(vs: seq<Volume>, rows: seq<Props>)
      requires BuiltFrom(vs, rows)
      modifies this`items
      ensures items == vs && Valid() && BuiltFrom(items, rows)
    {
      BuiltValid(vs, rows);
      items := vs;
    }

    /**
     * `delete_all`: a `fetch`, then, when any volume is listed, one delete
     * call for all their URIs and an empty list. A query with no rows keeps
     * what was listed before, so those volumes are the ones deleted.
     */
    method DeleteAll() returns (r: Result<()>)
      requires Valid()
      modifies this`items, swis`log
      ensures Valid()
      ensures var rows := swis.RowsFor(FetchQuery(nodeId));
        var q := old(swis.log) + [QueryCall(FetchQuery(nodeId))];
        && (rows != [] && RowsError(rows).Some? ==> r == Err(RowsError(rows).value) && items == old(items) && swis.log == q)
        && (rows != [] && RowsError(rows).None? ==> r == Ok(()) && items == [] && swis.log == q + [DeleteCall(RowUris(rows))])
        && (rows == [] ==> (r == Ok(()) && items == [] &&
                            swis.log == q + (if old(items) == [] then [] else [DeleteCall(old(UrisOf(items)))])))
    {
      ghost var uris0 := UrisOf(items);
      var f := Fetch();
      if f.Err? {
        return f;
      }
      ghost var rows := swis.RowsFor(FetchQuery(nodeId));
      if rows != [] {
        BuiltValid(items, rows);
      } else {
        assert UrisOf(items) == uris0;
      }
      if items != [] {
        swis.Delete(UrisOf(items));
        items := [];
      }
      return Ok(());
    }
  }
}
