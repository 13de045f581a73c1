/**
 * The settings of a node (pysolarwinds/models/orion/node_settings.py): the
 * NodeSettings rows SWIS holds for one node, kept as a list of setting
 * objects, and `save`, which reconciles the node's SNMPv3 credential
 * attributes with that list through raw SQL statements.
 */
module OrionNodeSettings {
  import opened Wrappers
  import opened PyValue
  import opened Transport
  import Endpoints
  import Text
  import opened Lists

  /** A credential object as a setting fetches it: the id it was asked for and the CredentialType of its record. */
  datatype Credential = Credential(id: Value, credType: Value)

  /**
   * The parts of the node entity the settings touch: its id, and its
   * credential attributes (`snmpv3_ro_cred` and the like), an absent name
   * standing for an attribute that holds None.
   */
  class SettingsNode {
    const id: Value
    var creds: map<string, Credential>

    constructor (id: Value, creds: map<string, Credential>)
      ensures this.id == id && this.creds == creds
    {
      this.id := id;
      this.creds := creds;
    }

    /** `getattr(node, attr)`. */
    function Attr(attr: string): Option<Credential>
      reads this
    {
      CredAttr(creds, attr)
    }
  }

  // ---- SETTING_MAP and the credential settings ----

  /** A SETTING_MAP entry: the setting name, and the node attribute whose credential `id` the setting stores. */
  datatype MapEntry = MapEntry(name: string, nodeAttr: string)

  const SettingMap: seq<MapEntry> := [MapEntry("ROSNMPCredentialID", "snmpv3_ro_cred"), MapEntry("RWSNMPCredentialID", "snmpv3_rw_cred")]

  /** Whether `SETTING_MAP.get(name)` finds an entry, which makes `create` build an SNMPCredentialSetting. */
  predicate IsCredentialName(name: Value)
  {
    name == Str(SettingMap[0].name) || name == Str(SettingMap[1].name)
  }

  const CredentialTemplate := Endpoints.UriTemplate("swis://", "/Orion/Orion.Credential/ID=", "")

  /** `cred.type`: the record's CredentialType, "" when it has none. */
  function CredentialTypeOf(record: Props): Value
  {
    if "CredentialType" in record then record["CredentialType"] else Str("")
  }

  /** `s[:2]`. */
  function Prefix2(s: string): (r: string)
    ensures |r| <= 2 && Text.StartsWith(s, r)
    ensures |s| >= 2 ==> |r| == 2
  {
    if |s| < 2 then s else s[..2]
  }

  /**
   * The node attribute `SNMPCredentialSetting.build` targets,
   * `snmpv<v>_<m>_cred`, with v the digit that ends the credential type and
   * m the first two characters of the setting name lower-cased. A type that
   * is not a string cannot be sliced (TypeError); an empty one, or one
   * ending in anything but a digit, fails `int` (ValueError).
   */
  function CredentialAttr(name: string, credType: Value): (r: Result<string>)
    ensures r.Ok? <==> credType.Str? && |credType.s| > 0 && Text.IsDigit(credType.s[|credType.s| - 1])
    ensures !credType.Str? ==> r == Err(TypeError)
    ensures credType.Str? && r.Err? ==> r.error == ValueError
    ensures r.Ok? ==> Text.StartsWith(r.value, "snmpv") && |r.value| > 5 && r.value[5] == credType.s[|credType.s| - 1]
    ensures r.Ok? ==> Text.EndsWith(r.value, "_cred")
  {
    if !credType.Str? then Err(TypeError)
    else if |credType.s| == 0 || !Text.IsDigit(credType.s[|credType.s| - 1]) then Err(ValueError)
    else Ok("snmpv" + [credType.s[|credType.s| - 1]] + "_" + Text.Lower(Prefix2(name)) + "_cred")
  }

  /** The lower-cased modes of the two SETTING_MAP names. */
  lemma ModeCases()
    ensures Text.Lower(Prefix2(SettingMap[0].name)) == "ro"
    ensures Text.Lower(Prefix2(SettingMap[1].name)) == "rw"
  {
    assert Prefix2(SettingMap[0].name) == "RO";
    assert Prefix2(SettingMap[1].name) == "RW";
    assert Text.Lower("RO") == "ro";
    assert Text.Lower("RW") == "rw";
  }

  /**
   * For an SNMPv3 credential (a type ending in 3) the attribute a setting
   * fills is the one SETTING_MAP names, the one `save` reads back.
   */
  lemma V3AttrIsMapped(i: nat, credType: string)
    requires i < |SettingMap|
    requires |credType| > 0 && credType[|credType| - 1] == '3'
    ensures CredentialAttr(SettingMap[i].name, Str(credType)) == Ok(SettingMap[i].nodeAttr)
  {
    ModeCases();
    var mode := Text.Lower(Prefix2(SettingMap[i].name));
    assert "snmpv" + ['3'] + "_" + mode + "_cred" == SettingMap[i].nodeAttr;
  }

  /**
   * The read-only and the read-write setting never fill the same
   * attribute, whatever the credential types: the mode letters differ.
   */
  lemma ModesApart(type0: Value, type1: Value)
    requires CredentialAttr(SettingMap[0].name, type0).Ok? && CredentialAttr(SettingMap[1].name, type1).Ok?
    ensures CredentialAttr(SettingMap[0].name, type0).value != CredentialAttr(SettingMap[1].name, type1).value
    ensures CredentialAttr(SettingMap[0].name, type0).value != SettingMap[1].nodeAttr
    ensures CredentialAttr(SettingMap[1].name, type1).value != SettingMap[0].nodeAttr
  {
    ModeCases();
    var a0 := CredentialAttr(SettingMap[0].name, type0).value;
    var a1 := CredentialAttr(SettingMap[1].name, type1).value;
    assert a0[8] == 'o';
    assert a1[8] == 'w';
    assert SettingMap[1].nodeAttr[8] == 'w';
    assert SettingMap[0].nodeAttr[8] == 'o';
  }

  /** A `NodeSetting`; an `SNMPCredentialSetting` carries the attribute and credential its `build` chose. */
  class NodeSetting {
    const node: SettingsNode
    const name: Value
    const value: Value
    var nodeSettingId: Value
    const target: Option<(string, Credential)>

    constructor (node: SettingsNode, name: Value, value: Value, nodeSettingId: Value, target: Option<(string, Credential)>)
      ensures this.node == node && this.name == name && this.value == value
      ensures this.nodeSettingId == nodeSettingId && this.target == target
    {
      this.node := node;
      this.name := name;
      this.value := value;
      this.nodeSettingId := nodeSettingId;
      this.target := target;
    }

    /** `exists`: the setting is stored exactly when it has a truthy id. */
    predicate Exists()
      reads this
    {
      Truthy(nodeSettingId)
    }
  }

  // ---- the list as rows ----

  /** What `get` and `save` see of a setting: its name, value and id. */
  datatype Row = Row(name: Value, value: Value, id: Value)

  function RowOf(s: NodeSetting): Row
    reads s
  {
    Row(s.name, s.value, s.nodeSettingId)
  }

  /** The rows of a list of settings, in list order. */
  function View(ss: seq<NodeSetting>): (rs: seq<Row>)
    reads ss
    ensures |rs| == |ss|
    ensures forall i :: 0 <= i < |ss| ==> rs[i] == RowOf(ss[i])
  {
    seq(|ss|, i reads ss requires 0 <= i < |ss| => RowOf(ss[i]))
  }

  lemma ViewAppend(ss: seq<NodeSetting>, n: NodeSetting)
    ensures View(ss + [n]) == View(ss) + [RowOf(n)]
  {
    assert forall i :: 0 <= i < |ss| ==> (ss + [n])[i] == ss[i];
  }

  lemma ViewRemoveAt(ss: seq<NodeSetting>, k: nat)
    requires k < |ss|
    ensures View(ss[..k] + ss[k + 1..]) == RemoveAt(View(ss), k)
  {
    var t := ss[..k] + ss[k + 1..];
    assert forall i :: 0 <= i < |t| ==> View(t)[i] == RemoveAt(View(ss), k)[i];
  }

  /** `rs` without its element at `k`. */
  function RemoveAt(rs: seq<Row>, k: nat): (r: seq<Row>)
    requires k < |rs|
    ensures |r| == |rs| - 1
    ensures forall i :: 0 <= i < k ==> r[i] == rs[i]
    ensures forall i :: k <= i < |r| ==> r[i] == rs[i + 1]
  {
    rs[..k] + rs[k + 1..]
  }

  // ---- searching the list ----

  /** What `get` tests of each setting: the id first, then the name, by equality. */
  predicate Matches(r: Row, name: Value, nodeSettingId: Value)
  {
    nodeSettingId == r.id || name == r.name
  }

  /** The position of the first row that matches, or the length when none does. */
  function FirstMatch(rs: seq<Row>, name: Value, nodeSettingId: Value): (k: nat)
    ensures k <= |rs|
    ensures k < |rs| ==> Matches(rs[k], name, nodeSettingId)
    ensures forall j :: 0 <= j < k ==> !Matches(rs[j], name, nodeSettingId)
    decreases |rs|
  {
    if rs == [] then 0
    else if Matches(rs[0], name, nodeSettingId) then 0
    else 1 + FirstMatch(rs[1..], name, nodeSettingId)
  }

  /** What `get(name=name)` returns from the list `ss`. */
  function Found(ss: seq<NodeSetting>, name: Value): Option<NodeSetting>
    reads ss
  {
    var k := FirstMatch(View(ss), name, Null);
    if k < |ss| then Some(ss[k]) else None
  }

  /** `remove` of the setting `get` found takes out exactly its position: nothing before it is that object. */
  lemma RemoveFound(ss: seq<NodeSetting>, name: Value)
    requires Found(ss, name).Some?
    ensures var k := FirstMatch(View(ss), name, Null);
      Found(ss, name).value in ss && RemoveFirst(ss, ss[k]) == ss[..k] + ss[k + 1..]
  {
  }

  /** `AbsentStep` for a name `get` finds: the found setting's row removed, and its delete sent. */
  lemma AbsentRemoves(ss: seq<NodeSetting>, name: string, creds: map<string, Credential>)
    requires Found(ss, Str(name)).Some?
    ensures var k := FirstMatch(View(ss), Str(name), Null);
      && Found(ss, Str(name)) == Some(ss[k]) && ss[k] in ss && RemoveFirst(ss, ss[k]) == ss[..k] + ss[k + 1..]
      && AbsentStep(SaveState(View(ss), creds), name)
         == StepOut(Ok(()), SaveState(View(ss[..k] + ss[k + 1..]), creds), [SqlCall(DeleteStatement(ss[k].nodeSettingId))])
  {
    var k := FirstMatch(View(ss), Str(name), Null);
    RemoveFound(ss, Str(name));
    ViewRemoveAt(ss, k);
  }

  // ---- the SWIS statements ----

  function SettingsQuery(nodeId: Value): Query
  {
    Query("Orion.NodeSettings", [("NodeID", nodeId)])
  }

  function AddedQuery(nodeId: Value, name: Value): Query
  {
    Query("Orion.NodeSettings", [("NodeID", nodeId), ("SettingName", name)])
  }

  function InsertStatement(nodeId: Value, name: Value, value: Value): string
  {
    "INSERT INTO NodeSettings (NodeID, SettingName, SettingValue) VALUES ('"
      + StrOf(nodeId) + "', '" + StrOf(name) + "', '" + StrOf(value) + "')"
  }

  function DeleteStatement(nodeSettingId: Value): string
  {
    "DELETE FROM NodeSettings WHERE NodeSettingID = '" + StrOf(nodeSettingId) + "'"
  }

  /** A settings row with the three columns `fetch` reads. */
  predicate RowComplete(row: Props)
  {
    "SettingName" in row && "SettingValue" in row && "NodeSettingID" in row
  }

  /** The setting `fetch` makes of a complete row. */
  function RowFrom(row: Props): Row
    requires RowComplete(row)
  {
    Row(row["SettingName"], row["SettingValue"], row["NodeSettingID"])
  }

  // ---- what creating and adding a setting do ----

  /** `getattr(node, attr)` on the node's credential attributes. */
  function CredAttr(creds: map<string, Credential>, attr: string): Option<Credential>
  {
    if attr in creds then Some(creds[attr]) else None
  }

  /**
   * The node's credentials once `create(name, value)` built a setting: a
   * name SETTING_MAP lacks leaves them alone; for one it has, a falsy value
   * is a ValueError and otherwise the attribute chosen from the fetched
   * credential's type is set to it, or choosing it raises.
   */
  function CreatedCreds(swis: Swis, host: string, name: Value, value: Value, creds: map<string, Credential>): Result<map<string, Credential>>
  {
    if !IsCredentialName(name) then Ok(creds)
    else if !Truthy(value) then Err(ValueError)
    else
      var t := CredentialTypeOf(swis.RecordAt(CredentialTemplate.Format(host, value)));
      var a := CredentialAttr(name.s, t);
      if a.Err? then Err(a.error) else Ok(creds[a.value := Credential(value, t)])
  }

  /** The row `add` gives a new setting: the id of the first row its follow-up query returns, or the error. */
  function AddedRow(swis: Swis, nodeId: Value, name: Value, value: Value): Result<Row>
  {
    var rows := swis.RowsFor(AddedQuery(nodeId, name));
    if |rows| == 0 then Err(SWObjectCreationError)
    else if "NodeSettingID" !in rows[0] then Err(KeyError)
    else Ok(Row(name, value, rows[0]["NodeSettingID"]))
  }

  // ---- fetch, on values ----

  /** What `fetch` leaves: its outcome and the node's credentials. */
  datatype FetchOut = FetchOut(result: Result<()>, creds: map<string, Credential>)

  /** `fetch` over the remaining rows: each builds its setting in turn, the first failure ending the pass. */
  function Fetched(swis: Swis, host: string, creds: map<string, Credential>, rows: seq<Props>): FetchOut
    decreases |rows|
  {
    if rows == [] then FetchOut(Ok(()), creds)
    else if !RowComplete(rows[0]) then FetchOut(Err(KeyError), creds)
    else
      var c := CreatedCreds(swis, host, rows[0]["SettingName"], rows[0]["SettingValue"], creds);
      if c.Err? then FetchOut(Err(c.error), creds) else Fetched(swis, host, c.value, rows[1..])
  }

  /** `Fetched` from the row at `i` on, one row unfolded. */
  lemma FetchedStep(swis: Swis, host: string, creds: map<string, Credential>, rows: seq<Props>, i: nat)
    requires i < |rows|
    ensures Fetched(swis, host, creds, rows[i..])
      == if !RowComplete(rows[i]) then FetchOut(Err(KeyError), creds)
         else
           var c := CreatedCreds(swis, host, rows[i]["SettingName"], rows[i]["SettingValue"], creds);
           if c.Err? then FetchOut(Err(c.error), creds) else Fetched(swis, host, c.value, rows[i + 1..])
  {
    assert rows[i..][0] == rows[i] && rows[i..][1..] == rows[i + 1..];
  }

  /** The attribute a complete row's credential setting sets on the node, if it sets one. */
  function RowTarget(swis: Swis, host: string, row: Props): Option<string>
    requires RowComplete(row)
  {
    var name := row["SettingName"];
    var value := row["SettingValue"];
    if !IsCredentialName(name) || !Truthy(value) then None
    else
      var a := CredentialAttr(name.s, CredentialTypeOf(swis.RecordAt(CredentialTemplate.Format(host, value))));
      if a.Ok? then Some(a.value) else None
  }

  /** An attribute no row targets keeps what it held before `fetch`. */
  lemma {:induction false} FetchKeepsUntargeted(swis: Swis, host: string, creds: map<string, Credential>, rows: seq<Props>, attr: string)
    requires forall i :: 0 <= i < |rows| && RowComplete(rows[i]) ==> RowTarget(swis, host, rows[i]) != Some(attr)
    ensures CredAttr(Fetched(swis, host, creds, rows).creds, attr) == CredAttr(creds, attr)
    decreases |rows|
  {
    if rows != [] && RowComplete(rows[0]) {
      var c := CreatedCreds(swis, host, rows[0]["SettingName"], rows[0]["SettingValue"], creds);
      if c.Ok? {
        assert forall i :: 1 <= i < |rows| ==> rows[1..][i - 1] == rows[i];
        FetchKeepsUntargeted(swis, host, c.value, rows[1..], attr);
      }
    }
  }

  /**
   * After a `fetch` that succeeds, an attribute holds the credential of the
   * last row that targets it: later rows overwrite earlier ones.
   */
  lemma {:induction false} FetchSetsLastTarget(swis: Swis, host: string, creds: map<string, Credential>, rows: seq<Props>, j: nat, attr: string)
    requires j < |rows| && RowComplete(rows[j]) && RowTarget(swis, host, rows[j]) == Some(attr)
    requires forall i :: j < i < |rows| && RowComplete(rows[i]) ==> RowTarget(swis, host, rows[i]) != Some(attr)
    requires Fetched(swis, host, creds, rows).result.Ok?
    ensures var value := rows[j]["SettingValue"];
      CredAttr(Fetched(swis, host, creds, rows).creds, attr)
        == Some(Credential(value, CredentialTypeOf(swis.RecordAt(CredentialTemplate.Format(host, value)))))
    decreases |rows|
  {
    var c := CreatedCreds(swis, host, rows[0]["SettingName"], rows[0]["SettingValue"], creds);
    assert forall i :: 1 <= i < |rows| ==> rows[1..][i - 1] == rows[i];
    if j == 0 {
      FetchKeepsUntargeted(swis, host, c.value, rows[1..], attr);
    } else {
      FetchSetsLastTarget(swis, host, c.value, rows[1..], j - 1, attr);
    }
  }

  // ---- save, on values ----

  /** What `save` works on: the rows of the list and the node's credentials. */
  datatype SaveState = SaveState(rows: seq<Row>, creds: map<string, Credential>)

  /** The outcome of part of `save`: its result, the state it leaves and the statements it wrote. */
  datatype StepOut = StepOut(result: Result<()>, state: SaveState, writes: seq<Call>)

  /** `save` for an attribute holding None: the setting `get` finds by name, if any, is deleted. */
  function AbsentStep(st: SaveState, name: string): (o: StepOut)
    ensures o.result.Ok? && o.state.creds == st.creds
  {
    var k := FirstMatch(st.rows, Str(name), Null);
    if k < |st.rows| then StepOut(Ok(()), st.(rows := RemoveAt(st.rows, k)), [SqlCall(DeleteStatement(st.rows[k].id))])
    else StepOut(Ok(()), st, [])
  }

  /** Whether the setting `get` finds for `name` already holds `id` (compared as strings). */
  predicate Holds(rows: seq<Row>, name: string, id: Value)
  {
    var k := FirstMatch(rows, Str(name), Null);
    k < |rows| && rows[k].name == Str(name) && StrOf(rows[k].value) == StrOf(id)
  }

  /**
   * `save` as written for a credential with the given id: a found setting
   * already holding it is left alone; otherwise a new setting is created,
   * which may set a credential attribute of the node, and added. The
   * `update` for a found setting is only an `add`: the old setting stays.
   */
  function PresentStep(swis: Swis, nodeId: Value, host: string, st: SaveState, name: string, id: Value): StepOut
  {
    if Holds(st.rows, name, id) then StepOut(Ok(()), st, [])
    else
      var creds := CreatedCreds(swis, host, Str(name), id, st.creds);
      if creds.Err? then StepOut(Err(creds.error), st, [])
      else
        var row := AddedRow(swis, nodeId, Str(name), id);
        var insert := [SqlCall(InsertStatement(nodeId, Str(name), id))];
        if row.Err? then StepOut(Err(row.error), st.(creds := creds.value), insert)
        else StepOut(Ok(()), SaveState(st.rows + [row.value], creds.value), insert)
  }

  /** One SETTING_MAP entry of `save`. */
  function SaveStep(swis: Swis, nodeId: Value, host: string, st: SaveState, e: MapEntry): StepOut
  {
    match CredAttr(st.creds, e.nodeAttr)
    case None => AbsentStep(st, e.name)
    case Some(c) => PresentStep(swis, nodeId, host, st, e.name, c.id)
  }

  /** `save` from the entry at `i` on, in SETTING_MAP order, the first failure ending the pass. */
  function SaveFrom(swis: Swis, nodeId: Value, host: string, st: SaveState, i: nat): StepOut
    requires i <= |SettingMap|
    decreases |SettingMap| - i
  {
    if i == |SettingMap| then StepOut(Ok(()), st, [])
    else
      var o := SaveStep(swis, nodeId, host, st, SettingMap[i]);
      if o.result.Err? then o else After(o.writes, SaveFrom(swis, nodeId, host, o.state, i + 1))
  }

  /** `o` preceded by the statements `w`. */
  function After(w: seq<Call>, o: StepOut): StepOut
  {
    StepOut(o.result, o.state, w + o.writes)
  }

  lemma AfterNothing(o: StepOut)
    ensures After([], o) == o
  {
    assert [] + o.writes == o.writes;
  }

  lemma AfterAfter(w1: seq<Call>, w2: seq<Call>, o: StepOut)
    ensures After(w1, After(w2, o)) == After(w1 + w2, o)
  {
    assert w1 + (w2 + o.writes) == w1 + w2 + o.writes;
  }

  /** Whether the list already holds what `save` would write for one SETTING_MAP entry. */
  predicate EntryInSync(st: SaveState, e: MapEntry)
  {
    match CredAttr(st.creds, e.nodeAttr)
    case None => FirstMatch(st.rows, Str(e.name), Null) == |st.rows|
    case Some(c) => Holds(st.rows, e.name, c.id)
  }

  /** A list in step with the node's attributes is left as it is by `save`, with nothing sent. */
  lemma SaveInSyncIsNoop(swis: Swis, nodeId: Value, host: string, st: SaveState)
    requires forall i :: 0 <= i < |SettingMap| ==> EntryInSync(st, SettingMap[i])
    ensures SaveFrom(swis, nodeId, host, st, 0) == StepOut(Ok(()), st, [])
  {
    assert EntryInSync(st, SettingMap[0]) && EntryInSync(st, SettingMap[1]);
    assert SaveFrom(swis, nodeId, host, st, 2) == StepOut(Ok(()), st, []);
  }

  /** One entry of `save` writes only SQL statements. */
  lemma StepWritesOnlySql(swis: Swis, nodeId: Value, host: string, st: SaveState, e: MapEntry)
    ensures forall j :: 0 <= j < |SaveStep(swis, nodeId, host, st, e).writes| ==> SaveStep(swis, nodeId, host, st, e).writes[j].SqlCall?
  {
    var w := SaveStep(swis, nodeId, host, st, e).writes;
    match CredAttr(st.creds, e.nodeAttr)
    case None =>
      var k := FirstMatch(st.rows, Str(e.name), Null);
      assert w == (if k < |st.rows| then [SqlCall(DeleteStatement(st.rows[k].id))] else []);
    case Some(c) =>
      assert w == PresentStep(swis, nodeId, host, st, e.name, c.id).writes;
      assert w == [] || w == [SqlCall(InsertStatement(nodeId, Str(e.name), c.id))];
  }

  /** Whatever happens, `save` writes only SQL statements. */
  lemma {:induction false} SaveWritesOnlySql(swis: Swis, nodeId: Value, host: string, st: SaveState, i: nat)
    requires i <= |SettingMap|
    ensures forall j :: 0 <= j < |SaveFrom(swis, nodeId, host, st, i).writes| ==> SaveFrom(swis, nodeId, host, st, i).writes[j].SqlCall?
    decreases |SettingMap| - i
  {
    if i < |SettingMap| {
      var o := SaveStep(swis, nodeId, host, st, SettingMap[i]);
      StepWritesOnlySql(swis, nodeId, host, st, SettingMap[i]);
      if o.result.Ok? {
        var rest := SaveFrom(swis, nodeId, host, o.state, i + 1);
        SaveWritesOnlySql(swis, nodeId, host, o.state, i + 1);
        assert SaveFrom(swis, nodeId, host, st, i).writes == o.writes + rest.writes;
      }
    }
  }

  /** A matching row put after rows that do not match is the first match. */
  lemma {:induction false} FirstMatchAppended(rs: seq<Row>, r: Row, name: Value, id: Value)
    requires FirstMatch(rs, name, id) == |rs| && Matches(r, name, id)
    ensures FirstMatch(rs + [r], name, id) == |rs|
    decreases |rs|
  {
    if rs == [] {
      assert [r][0] == r;
    } else {
      assert (rs + [r])[0] == rs[0];
      assert (rs + [r])[1..] == rs[1..] + [r];
      FirstMatchAppended(rs[1..], r, name, id);
    }
  }

  /** Appending a row does not move the first match of a list that has one. */
  lemma {:induction false} FirstMatchKept(rs: seq<Row>, r: Row, name: Value, id: Value)
    requires FirstMatch(rs, name, id) < |rs|
    ensures FirstMatch(rs + [r], name, id) == FirstMatch(rs, name, id)
    decreases |rs|
  {
    assert (rs + [r])[0] == rs[0];
    if !Matches(rs[0], name, id) {
      assert (rs + [r])[1..] == rs[1..] + [r];
      FirstMatchKept(rs[1..], r, name, id);
    }
  }

  /** What a successful `PresentStep` that did not skip leaves: the new row at the end and the created credentials. */
  lemma PresentAdds(swis: Swis, nodeId: Value, host: string, st: SaveState, name: string, id: Value)
    requires !Holds(st.rows, name, id) && PresentStep(swis, nodeId, host, st, name, id).result.Ok?
    ensures CreatedCreds(swis, host, Str(name), id, st.creds).Ok? && AddedRow(swis, nodeId, Str(name), id).Ok?
    ensures var o := PresentStep(swis, nodeId, host, st, name, id);
      && o.state.rows == st.rows + [AddedRow(swis, nodeId, Str(name), id).value]
      && o.state.creds == CreatedCreds(swis, host, Str(name), id, st.creds).value
      && AddedRow(swis, nodeId, Str(name), id).value.name == Str(name)
      && AddedRow(swis, nodeId, Str(name), id).value.value == id
  {
  }

  /** A `PresentStep` that does not skip: a failed create changes nothing, otherwise the store decides. */
  lemma PresentSteps(swis: Swis, nodeId: Value, host: string, st: SaveState, name: string, id: Value)
    requires !Holds(st.rows, name, id)
    ensures var c := CreatedCreds(swis, host, Str(name), id, st.creds);
      var row := AddedRow(swis, nodeId, Str(name), id);
      PresentStep(swis, nodeId, host, st, name, id)
        == if c.Err? then StepOut(Err(c.error), st, [])
           else StepOut(if row.Ok? then Ok(()) else Err(row.error),
                        SaveState(if row.Ok? then st.rows + [row.value] else st.rows, c.value),
                        [SqlCall(InsertStatement(nodeId, Str(name), id))])
  {
  }

  /** Creating the setting for an entry's credential leaves that attribute with a credential of the same id. */
  lemma CreatedKeepsId(swis: Swis, host: string, e: MapEntry, id: Value, creds: map<string, Credential>)
    requires CredAttr(creds, e.nodeAttr).Some? && CredAttr(creds, e.nodeAttr).value.id == id
    requires CreatedCreds(swis, host, Str(e.name), id, creds).Ok?
    ensures CredAttr(CreatedCreds(swis, host, Str(e.name), id, creds).value, e.nodeAttr).Some?
    ensures CredAttr(CreatedCreds(swis, host, Str(e.name), id, creds).value, e.nodeAttr).value.id == id
  {
  }

  /** A setting that was missing is in step once `save` added it. */
  lemma AddSettles(swis: Swis, nodeId: Value, host: string, st: SaveState, e: MapEntry)
    requires CredAttr(st.creds, e.nodeAttr).Some?
    requires FirstMatch(st.rows, Str(e.name), Null) == |st.rows|
    requires SaveStep(swis, nodeId, host, st, e).result.Ok?
    ensures EntryInSync(SaveStep(swis, nodeId, host, st, e).state, e)
  {
    var id := CredAttr(st.creds, e.nodeAttr).value.id;
    PresentAdds(swis, nodeId, host, st, e.name, id);
    CreatedKeepsId(swis, host, e, id, st.creds);
    FirstMatchAppended(st.rows, AddedRow(swis, nodeId, Str(e.name), id).value, Str(e.name), Null);
  }

  /**
   * As written, a found setting of that name holding another value stays
   * where `get` finds it first, so every later `save` adds yet another
   * setting instead of settling.
   */
  lemma StaleSettingAddedAgain(swis: Swis, nodeId: Value, host: string, st: SaveState, e: MapEntry)
    requires CredAttr(st.creds, e.nodeAttr).Some?
    requires var k := FirstMatch(st.rows, Str(e.name), Null);
      k < |st.rows| && st.rows[k].name == Str(e.name) && StrOf(st.rows[k].value) != StrOf(CredAttr(st.creds, e.nodeAttr).value.id)
    requires SaveStep(swis, nodeId, host, st, e).result.Ok?
    ensures var o := SaveStep(swis, nodeId, host, st, e);
      && o.state.rows[..|st.rows|] == st.rows
      && FirstMatch(o.state.rows, Str(e.name), Null) == FirstMatch(st.rows, Str(e.name), Null)
      && |SaveStep(swis, nodeId, host, o.state, e).state.rows| == |st.rows| + 2
  {
    var id := CredAttr(st.creds, e.nodeAttr).value.id;
    var o := SaveStep(swis, nodeId, host, st, e);
    var row := AddedRow(swis, nodeId, Str(e.name), id).value;
    PresentAdds(swis, nodeId, host, st, e.name, id);
    CreatedKeepsId(swis, host, e, id, st.creds);
    FirstMatchKept(st.rows, row, Str(e.name), Null);
    assert o.state.rows[..|st.rows|] == st.rows;
    assert o.state.rows[FirstMatch(st.rows, Str(e.name), Null)] == st.rows[FirstMatch(st.rows, Str(e.name), Null)];
    assert !Holds(o.state.rows, e.name, id);
    PresentAdds(swis, nodeId, host, o.state, e.name, id);
  }

  /** `save` for a credential as intended: `update` also deletes the old setting once the new one is added. */
  function PresentStepIntended(swis: Swis, nodeId: Value, host: string, st: SaveState, name: string, id: Value): StepOut
  {
    if Holds(st.rows, name, id) then StepOut(Ok(()), st, [])
    else
      var creds := CreatedCreds(swis, host, Str(name), id, st.creds);
      if creds.Err? then StepOut(Err(creds.error), st, [])
      else
        var row := AddedRow(swis, nodeId, Str(name), id);
        var insert := [SqlCall(InsertStatement(nodeId, Str(name), id))];
        var k := FirstMatch(st.rows, Str(name), Null);
        if row.Err? then StepOut(Err(row.error), st.(creds := creds.value), insert)
        else if k == |st.rows| then StepOut(Ok(()), SaveState(st.rows + [row.value], creds.value), insert)
        else StepOut(Ok(()), SaveState(RemoveAt(st.rows + [row.value], k), creds.value), insert + [SqlCall(DeleteStatement(st.rows[k].id))])
  }

  /** One SETTING_MAP entry of `save` as intended. */
  function SaveStepIntended(swis: Swis, nodeId: Value, host: string, st: SaveState, e: MapEntry): StepOut
  {
    match CredAttr(st.creds, e.nodeAttr)
    case None => AbsentStep(st, e.name)
    case Some(c) => PresentStepIntended(swis, nodeId, host, st, e.name, c.id)
  }

  /** Removing the first match, when no later row matches, leaves the appended matching row as the first match. */
  lemma FirstMatchReplaced(rs: seq<Row>, r: Row, name: Value, id: Value)
    requires FirstMatch(rs, name, id) < |rs| && Matches(r, name, id)
    requires forall j :: FirstMatch(rs, name, id) < j < |rs| ==> !Matches(rs[j], name, id)
    ensures FirstMatch(RemoveAt(rs + [r], FirstMatch(rs, name, id)), name, id) == |rs| - 1
  {
    var k := FirstMatch(rs, name, id);
    var t := RemoveAt(rs + [r], k);
    assert forall j :: 0 <= j < k ==> t[j] == rs[j];
    assert forall j :: k <= j < |rs| - 1 ==> t[j] == (rs + [r])[j + 1];
    assert t[|rs| - 1] == r;
  }

  /**
   * With the delete, a stale setting that is the only one `get` can find
   * is replaced, and the next `save` of that entry leaves everything alone.
   */
  lemma IntendedStepSettles(swis: Swis, nodeId: Value, host: string, st: SaveState, e: MapEntry)
    requires CredAttr(st.creds, e.nodeAttr).Some?
    requires var k := FirstMatch(st.rows, Str(e.name), Null);
      k < |st.rows| && forall j :: k < j < |st.rows| ==> !Matches(st.rows[j], Str(e.name), Null)
    requires SaveStepIntended(swis, nodeId, host, st, e).result.Ok?
    ensures var o := SaveStepIntended(swis, nodeId, host, st, e);
      SaveStepIntended(swis, nodeId, host, o.state, e) == StepOut(Ok(()), o.state, [])
  {
    var o := SaveStepIntended(swis, nodeId, host, st, e);
    IntendedReplaces(swis, nodeId, host, st, e);
    InSyncIntendedNoop(swis, nodeId, host, o.state, e);
  }

  /** The intended step that replaces a stale setting leaves the entry in step. */
  lemma IntendedReplaces(swis: Swis, nodeId: Value, host: string, st: SaveState, e: MapEntry)
    requires CredAttr(st.creds, e.nodeAttr).Some?
    requires var k := FirstMatch(st.rows, Str(e.name), Null);
      k < |st.rows| && forall j :: k < j < |st.rows| ==> !Matches(st.rows[j], Str(e.name), Null)
    requires SaveStepIntended(swis, nodeId, host, st, e).result.Ok?
    ensures EntryInSync(SaveStepIntended(swis, nodeId, host, st, e).state, e)
  {
    var id := CredAttr(st.creds, e.nodeAttr).value.id;
    if !Holds(st.rows, e.name, id) {
      var row := AddedRow(swis, nodeId, Str(e.name), id).value;
      var rows := SaveStepIntended(swis, nodeId, host, st, e).state.rows;
      PresentAdds(swis, nodeId, host, st, e.name, id);
      CreatedKeepsId(swis, host, e, id, st.creds);
      FirstMatchReplaced(st.rows, row, Str(e.name), Null);
      assert rows == RemoveAt(st.rows + [row], FirstMatch(st.rows, Str(e.name), Null));
      assert rows[|st.rows| - 1] == row;
    }
  }

  /** An entry in step is left alone by the intended step too. */
  lemma InSyncIntendedNoop(swis: Swis, nodeId: Value, host: string, st: SaveState, e: MapEntry)
    requires EntryInSync(st, e)
    ensures SaveStepIntended(swis, nodeId, host, st, e) == StepOut(Ok(()), st, [])
  {
  }

  /**
   * `NodeSettings`: the settings of one node. A credential setting's own
   * `delete` goes through `node.settings`, which the node entity sets to
   * this object, so it is modelled as this object's `Delete`.
   */
  class NodeSettings {
    const node: SettingsNode
    const swis: Swis
    const host: string
    var settings: seq<NodeSetting>

    constructor (node: SettingsNode, swis: Swis, host: string)
      ensures this.node == node && this.swis == swis && this.host == host && settings == []
    {
      this.node := node;
      this.swis := swis;
      this.host := host;
      settings := [];
    }

    /** The list's rows and the node's credentials, what `save` reads and changes. */
    function Current(): SaveState
      reads this, node, settings
    {
      SaveState(View(settings), node.creds)
    }

    /**
     * `create`: a plain setting for a name SETTING_MAP lacks; for one it
     * has, a credential setting whose `build` fetches the credential by the
     * value (a falsy value is a ValueError before anything is sent), picks
     * the attribute from its type and sets that attribute on the node.
     */
    method Create(name: Value, value: Value, nodeSettingId: Value) returns (r: Result<NodeSetting>)
      modifies swis`log, node`creds
      ensures r.Ok? ==> fresh(r.value) && r.value.node == node && r.value.name == name
      ensures r.Ok? ==> r.value.value == value && r.value.nodeSettingId == nodeSettingId
      ensures !IsCredentialName(name) ==>
        r.Ok? && r.value.target.None? && swis.log == old(swis.log) && node.creds == old(node.creds)
      ensures IsCredentialName(name) && !Truthy(value) ==>
        r == Err(ValueError) && swis.log == old(swis.log) && node.creds == old(node.creds)
      ensures IsCredentialName(name) && Truthy(value) ==>
        var uri := CredentialTemplate.Format(host, value);
        var t := CredentialTypeOf(swis.RecordAt(uri));
        var a := CredentialAttr(name.s, t);
        && swis.log == old(swis.log) + [ReadCall(uri)]
        && (a.Err? ==> r == Err(a.error) && node.creds == old(node.creds))
        && (a.Ok? ==> r.Ok? && r.value.target == Some((a.value, Credential(value, t))))
        && (a.Ok? ==> node.creds == old(node.creds)[a.value := Credential(value, t)])
      ensures SentSince(old(swis.log), swis.log, [])
    {
      SentNothing(swis.log);
      if !IsCredentialName(name) {
        var s := new NodeSetting(node, name, value, nodeSettingId, None);
        return Ok(s);
      }
      if !Truthy(value) {
        return Err(ValueError);
      }
      ghost var log0 := swis.log;
      var record := swis.Read(CredentialTemplate.Format(host, value));
      SentReads(log0, [ReadCall(CredentialTemplate.Format(host, value))]);
      var t := CredentialTypeOf(record);
      var a := CredentialAttr(name.s, t);
      if a.Err? {
        return Err(a.error);
      }
      var s := new NodeSetting(node, name, value, nodeSettingId, Some((a.value, Credential(value, t))));
      node.creds := node.creds[a.value := Credential(value, t)];
      return Ok(s);
    }

    /** One row of `fetch` turned into a setting by `create`. */
    method CreateFromRow(row: Props) returns (r: Result<NodeSetting>)
      requires RowComplete(row)
      modifies swis`log, node`creds
      ensures var c := CreatedCreds(swis, host, row["SettingName"], row["SettingValue"], old(node.creds));
        && (c.Err? ==> r == Err(c.error) && node.creds == old(node.creds))
        && (c.Ok? ==> r.Ok? && node.creds == c.value)
      ensures r.Ok? ==> fresh(r.value) && RowOf(r.value) == RowFrom(row)
      ensures SentSince(old(swis.log), swis.log, [])
    {
      r := Create(row["SettingName"], row["SettingValue"], row["NodeSettingID"]);
    }

    /**
     * `fetch`: the list rebuilt from the node's settings rows, one setting
     * per row in row order; a row missing a column is a KeyError. Each
     * credential row sets a credential attribute of the node, as `Fetched`
     * says. Nothing is written.
     */
    method Fetch() returns (r: Result<()>)
      modifies this`settings, swis`log, node`creds
      ensures var rows := swis.RowsFor(SettingsQuery(node.id));
        var out := Fetched(swis, host, old(node.creds), rows);
        && r == out.result && node.creds == out.creds
        && (r.Ok? ==> |settings| == |rows|)
        && (r.Ok? ==> forall i :: 0 <= i < |rows| ==> RowComplete(rows[i]))
        && (r.Ok? ==> forall i :: 0 <= i < |rows| ==> fresh(settings[i]) && RowOf(settings[i]) == RowFrom(rows[i]))
      ensures SentSince(old(swis.log), swis.log, [])
    {
      ghost var log0 := swis.log;
      settings := [];
      var rows := swis.RunQuery(SettingsQuery(node.id));
      SentReads(log0, [QueryCall(SettingsQuery(node.id))]);
      var i := 0;
      while i < |rows|
        invariant 0 <= i <= |rows| && rows == swis.RowsFor(SettingsQuery(node.id))
        invariant |settings| == i
        invariant forall j :: 0 <= j < i ==> RowComplete(rows[j])
        invariant forall j :: 0 <= j < i ==> fresh(settings[j]) && RowOf(settings[j]) == RowFrom(rows[j])
        invariant Fetched(swis, host, node.creds, rows[i..]) == Fetched(swis, host, old(node.creds), rows)
        invariant SentSince(log0, swis.log, [])
      {
        FetchedStep(swis, host, node.creds, rows, i);
        if !RowComplete(rows[i]) {
          return Err(KeyError);
        }
        ghost var log1 := swis.log;
        var s := CreateFromRow(rows[i]);
        SentSinceTrans(log0, log1, swis.log, [], []);
        if s.Err? {
          return Err(s.error);
        }
        settings := settings + [s.value];
        i := i + 1;
      }
      return Ok(());
    }

    /** `get`: the first setting whose id or name matches, in list order; neither name nor id is a ValueError. */
    method Get(name: Value, nodeSettingId: Value) returns (r: Result<Option<NodeSetting>>)
      ensures name == Null && nodeSettingId == Null ==> r == Err(ValueError)
      ensures !(name == Null && nodeSettingId == Null) ==>
        var k := FirstMatch(View(settings), name, nodeSettingId);
        r == Ok(if k < |settings| then Some(settings[k]) else None)
    {
      if name == Null && nodeSettingId == Null {
        return Err(ValueError);
      }
      var i := 0;
      while i < |settings|
        invariant 0 <= i <= |settings|
        invariant forall j :: 0 <= j < i ==> !Matches(RowOf(settings[j]), name, nodeSettingId)
      {
        if nodeSettingId == settings[i].nodeSettingId {
          return Ok(Some(settings[i]));
        }
        if name == settings[i].name {
          return Ok(Some(settings[i]));
        }
        i := i + 1;
      }
      return Ok(None);
    }

    /**
     * `add`: the INSERT, then the query for the row it made; the setting
     * takes that row's id and joins the list, and no row is an
     * SWObjectCreationError with the list unchanged.
     */
    method Add(setting: NodeSetting) returns (r: Result<()>)
      modifies this`settings, swis`log, setting`nodeSettingId
      ensures var a := AddedRow(swis, node.id, setting.name, setting.value);
        && swis.log == old(swis.log) + [SqlCall(InsertStatement(setting.node.id, setting.name, setting.value)), QueryCall(AddedQuery(node.id, setting.name))]
        && r == (if a.Ok? then Ok(()) else Err(a.error))
        && (a.Err? ==> settings == old(settings) && setting.nodeSettingId == old(setting.nodeSettingId))
        && (a.Ok? ==> settings == old(settings) + [setting] && RowOf(setting) == a.value)
      ensures SentSince(old(swis.log), swis.log, [SqlCall(InsertStatement(setting.node.id, setting.name, setting.value))])
    {
      ghost var log0 := swis.log;
      swis.Sql(InsertStatement(setting.node.id, setting.name, setting.value));
      ghost var log1 := swis.log;
      SentWrite(log0, SqlCall(InsertStatement(setting.node.id, setting.name, setting.value)));
      var rows := swis.RunQuery(AddedQuery(node.id, setting.name));
      SentReads(log1, [QueryCall(AddedQuery(node.id, setting.name))]);
      SentSinceTrans(log0, log1, swis.log, [SqlCall(InsertStatement(setting.node.id, setting.name, setting.value))], []);
      if |rows| == 0 {
        return Err(SWObjectCreationError);
      }
      if "NodeSettingID" !in rows[0] {
        return Err(KeyError);
      }
      setting.nodeSettingId := rows[0]["NodeSettingID"];
      settings := settings + [setting];
      return Ok(());
    }

    /** `delete`: the DELETE by id, then the setting's first occurrence removed; one not in the list is a ValueError after the DELETE. */
    method Delete(setting: NodeSetting) returns (r: Result<()>)
      modifies this`settings, swis`log
      ensures swis.log == old(swis.log) + [SqlCall(DeleteStatement(setting.nodeSettingId))]
      ensures setting in old(settings) ==> r == Ok(()) && settings == RemoveFirst(old(settings), setting)
      ensures setting !in old(settings) ==> r == Err(ValueError) && settings == old(settings)
    {
      swis.Sql(DeleteStatement(setting.nodeSettingId));
      if setting !in settings {
        return Err(ValueError);
      }
      settings := RemoveFirst(settings, setting);
      return Ok(());
    }

    /**
     * `update` as written: `add` returns None, so the delete guarded by its
     * result never runs and the old setting stays in the list.
     */
    method UpdateAsWritten(oldSetting: NodeSetting, newSetting: NodeSetting) returns (r: Result<()>)
      modifies this`settings, swis`log, newSetting`nodeSettingId
      ensures var a := AddedRow(swis, node.id, newSetting.name, newSetting.value);
        && r == (if a.Ok? then Ok(()) else Err(a.error))
        && settings == (if a.Ok? then old(settings) + [newSetting] else old(settings))
        && (a.Ok? ==> RowOf(newSetting) == a.value)
      ensures oldSetting in old(settings) ==> oldSetting in settings
      ensures SentSince(old(swis.log), swis.log, [SqlCall(InsertStatement(newSetting.node.id, newSetting.name, newSetting.value))])
    {
      r := Add(newSetting);
    }

    /** `update` as intended: add the new setting, and once that succeeded delete the old one. */
    method Update(oldSetting: NodeSetting, newSetting: NodeSetting) returns (r: Result<()>)
      requires oldSetting != newSetting
      modifies this`settings, swis`log, newSetting`nodeSettingId
      ensures var insert := SqlCall(InsertStatement(newSetting.node.id, newSetting.name, newSetting.value));
        && (r.Ok? ==> oldSetting in old(settings) && settings == RemoveFirst(old(settings) + [newSetting], oldSetting))
        && (r.Ok? ==> SentSince(old(swis.log), swis.log, [insert, SqlCall(DeleteStatement(oldSetting.nodeSettingId))]))
        && (oldSetting in old(settings) && r.Err? ==> settings == old(settings) && SentSince(old(swis.log), swis.log, [insert]))
      ensures oldSetting.nodeSettingId == old(oldSetting.nodeSettingId)
    {
      ghost var log0 := swis.log;
      ghost var settings0 := settings;
      ghost var insert := SqlCall(InsertStatement(newSetting.node.id, newSetting.name, newSetting.value));
      ghost var delete := SqlCall(DeleteStatement(oldSetting.nodeSettingId));
      r := Add(newSetting);
      if r.Err? {
        return;
      }
      r := DeleteReplaced(oldSetting, newSetting, settings0, log0, insert);
    }

    /** The second step of `update`: once `newSetting` is added, the old setting is deleted. */
    method DeleteReplaced(oldSetting: NodeSetting, newSetting: NodeSetting,
                          ghost settings0: seq<NodeSetting>, ghost log0: seq<Call>, ghost insert: Call)
      returns (r: Result<()>)
      requires oldSetting != newSetting && settings == settings0 + [newSetting] && SentSince(log0, swis.log, [insert])
      modifies this`settings, swis`log
      ensures r.Ok? <==> oldSetting in settings0
      ensures r.Ok? ==> settings == RemoveFirst(settings0 + [newSetting], oldSetting)
      ensures r.Ok? ==> SentSince(log0, swis.log, [insert, SqlCall(DeleteStatement(oldSetting.nodeSettingId))])
    {
      ghost var delete := SqlCall(DeleteStatement(oldSetting.nodeSettingId));
      assert oldSetting in settings <==> oldSetting in settings0;
      ghost var log1 := swis.log;
      r := Delete(oldSetting);
      SentWrite(log1, delete);
      SentSinceTrans(log0, log1, swis.log, [insert], [delete]);
    }

    /**
     * One pass of `save`'s loop, for a SETTING_MAP entry: `get` by name,
     * then the delete, the skip or the create-and-add `SaveStep` describes.
     */
    method SaveEntry(e: MapEntry) returns (r: Result<()>)
      requires e in SettingMap
      modifies this`settings, swis`log, node`creds
      ensures var o := SaveStep(swis, node.id, host, old(Current()), e);
        r == o.result && Current() == o.state && SentSince(old(swis.log), swis.log, o.writes)
    {
      var attr := node.Attr(e.nodeAttr);
      var found := Get(Str(e.name), Null);
      if attr.None? {
        r := SaveAbsent(e.name, found.value);
      } else {
        r := SavePresent(e.name, attr.value.id, found.value);
      }
    }

    /** `save` for an attribute holding None: the setting found, if any, is deleted. */
    method SaveAbsent(name: string, found: Option<NodeSetting>) returns (r: Result<()>)
      requires found == Found(settings, Str(name))
      modifies this`settings, swis`log
      ensures var o := AbsentStep(old(Current()), name);
        r == o.result && Current() == o.state && SentSince(old(swis.log), swis.log, o.writes)
    {
      ghost var log0 := swis.log;
      if found.None? {
        SentNothing(log0);
        return Ok(());
      }
      ghost var ss := settings;
      ghost var k := FirstMatch(View(ss), Str(name), Null);
      ghost var rows := View(ss[..k] + ss[k + 1..]);
      AbsentRemoves(ss, name, node.creds);
      r := Delete(found.value);
      assert settings == ss[..k] + ss[k + 1..];
      assert View(settings) == rows;
      SentWrite(log0, SqlCall(DeleteStatement(found.value.nodeSettingId)));
    }

    /**
     * `save` for a credential with the given id: a found setting of that
     * name holding the id (as a string) is left alone; otherwise a new
     * setting holding the id is created and stored.
     */
    method SavePresent(name: string, id: Value, found: Option<NodeSetting>) returns (r: Result<()>)
      requires IsCredentialName(Str(name)) && found == Found(settings, Str(name))
      modifies this`settings, swis`log, node`creds
      ensures var o := PresentStep(swis, node.id, host, old(Current()), name, id);
        r == o.result && Current() == o.state && SentSince(old(swis.log), swis.log, o.writes)
    {
      if found.Some? && found.value.name == Str(name) && StrOf(found.value.value) == StrOf(id) {
        SentNothing(swis.log);
        return Ok(());
      }
      r := AddNew(name, id, found);
    }

    /** The create-and-store part of `save` for a credential whose setting is missing or stale. */
    method AddNew(name: string, id: Value, found: Option<NodeSetting>) returns (r: Result<()>)
      requires IsCredentialName(Str(name)) && !Holds(View(settings), name, id)
      modifies this`settings, swis`log, node`creds
      ensures var o := PresentStep(swis, node.id, host, old(Current()), name, id);
        r == o.result && Current() == o.state && SentSince(old(swis.log), swis.log, o.writes)
    {
      ghost var st0, log0, nid := Current(), swis.log, node.id;
      ghost var c := CreatedCreds(swis, host, Str(name), id, st0.creds);
      ghost var a := AddedRow(swis, nid, Str(name), id);
      PresentSteps(swis, nid, host, st0, name, id);
      var created := CreateNew(name, id);
      if created.Err? {
        return Err(created.error);
      }
      ghost var log1 := swis.log;
      r := StoreNew(found, created.value, View(settings));
      assert node.creds == c.value;
      assert View(settings) == (if a.Ok? then st0.rows + [a.value] else st0.rows);
      SentSinceTrans(log0, log1, swis.log, [], [SqlCall(InsertStatement(nid, Str(name), id))]);
    }

    /** `Store` of a new setting, seen on the rows: the added row joins them. */
    method StoreNew(found: Option<NodeSetting>, n: NodeSetting, ghost rows0: seq<Row>) returns (r: Result<()>)
      requires n.node == node && n !in settings && View(settings) == rows0
      modifies this`settings, swis`log, n`nodeSettingId
      ensures var a := AddedRow(swis, node.id, n.name, n.value);
        && r == (if a.Ok? then Ok(()) else Err(a.error))
        && View(settings) == (if a.Ok? then rows0 + [a.value] else rows0)
      ensures SentSince(old(swis.log), swis.log, [SqlCall(InsertStatement(node.id, n.name, n.value))])
    {
      ghost var settings0 := settings;
      r := Store(found, n);
      ViewAppend(settings0, n);
    }

    /** `create(name=..., value=id)` as `save` calls it, with what it does to the node's credentials. */
    method CreateNew(name: string, id: Value) returns (r: Result<NodeSetting>)
      requires IsCredentialName(Str(name))
      modifies swis`log, node`creds
      ensures var c := CreatedCreds(swis, host, Str(name), id, old(node.creds));
        && (c.Err? ==> r == Err(c.error) && node.creds == old(node.creds))
        && (c.Ok? ==> r.Ok? && node.creds == c.value)
      ensures r.Ok? ==> fresh(r.value) && r.value.node == node && r.value.name == Str(name) && r.value.value == id
      ensures SentSince(old(swis.log), swis.log, [])
    {
      r := Create(Str(name), id, Null);
    }

    /** The write of `save` for a new setting: `update` over the found one as written, else `add`; both only add. */
    method Store(found: Option<NodeSetting>, n: NodeSetting) returns (r: Result<()>)
      requires n.node == node
      modifies this`settings, swis`log, n`nodeSettingId
      ensures var a := AddedRow(swis, node.id, n.name, n.value);
        && r == (if a.Ok? then Ok(()) else Err(a.error))
        && settings == (if a.Ok? then old(settings) + [n] else old(settings))
        && (a.Ok? ==> RowOf(n) == a.value)
      ensures SentSince(old(swis.log), swis.log, [SqlCall(InsertStatement(node.id, n.name, n.value))])
    {
      if found.Some? {
        r := UpdateAsWritten(found.value, n);
      } else {
        r := Add(n);
      }
    }

    /**
     * `save`: each SETTING_MAP entry in order, the first failure ending the
     * pass; the list, the node's credentials and the statements sent are
     * those `SaveFrom` gives.
     */
    method Save() returns (r: Result<()>)
      modifies this`settings, swis`log, node`creds
      ensures var out := SaveFrom(swis, node.id, host, old(Current()), 0);
        r == out.result && Current() == out.state && SentSince(old(swis.log), swis.log, out.writes)
    {
      ghost var log0 := swis.log;
      ghost var written: seq<Call> := [];
      SentNothing(log0);
      AfterNothing(SaveFrom(swis, node.id, host, Current(), 0));
      var i := 0;
      while i < |SettingMap|
        invariant 0 <= i <= |SettingMap|
        invariant SentSince(log0, swis.log, written)
        invariant After(written, SaveFrom(swis, node.id, host, Current(), i)) == SaveFrom(swis, node.id, host, old(Current()), 0)
      {
        ghost var log1 := swis.log;
        ghost var o := SaveStep(swis, node.id, host, Current(), SettingMap[i]);
        var entry := SaveEntry(SettingMap[i]);
        SentSinceTrans(log0, log1, swis.log, written, o.writes);
        if entry.Err? {
          return entry;
        }
        AfterAfter(written, o.writes, SaveFrom(swis, node.id, host, Current(), i + 1));
        written := written + o.writes;
        i := i + 1;
      }
      assert written + [] == written;
      return Ok(());
    }
  }

  /** `NodeSettings(node)`: construction runs `fetch`, whose failure propagates. */
  method NewNodeSettings(node: SettingsNode, swis: Swis, host: string) returns (r: Result<NodeSettings>)
    modifies swis`log, node`creds
    ensures var out := Fetched(swis, host, old(node.creds), swis.RowsFor(SettingsQuery(node.id)));
      && (r.Ok? <==> out.result.Ok?) && (r.Err? ==> r.error == out.result.error) && node.creds == out.creds
    ensures r.Ok? ==> fresh(r.value) && r.value.node == node && r.value.swis == swis && r.value.host == host
    ensures r.Ok? ==> |r.value.settings| == |swis.RowsFor(SettingsQuery(node.id))|
    ensures SentSince(old(swis.log), swis.log, [])
  {
    var settings := new NodeSettings(node, swis, host);
    var fetched := settings.Fetch();
    if fetched.Err? {
      return Err(fetched.error);
    }
    return Ok(settings);
  }
}
