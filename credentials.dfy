/**
 * Credentials. The three credential kinds of the endpoint generation
 * (pysolarwinds/endpoints/orion/credential.py) are checked in a fixed
 * order before `create` or `save` invokes a verb of `Orion.Credential`;
 * the user/password credential of
 * pysolarwinds/endpoints/orion/credentials/userpass.py is the same on the
 * `NewEndpoint` base; and `CredentialsModel.get`
 * (pysolarwinds/models/orion/credentials/__init__.py) picks the credential
 * class for a lookup by id or by name.
 */
module Credentials {
  import opened Wrappers
  import opened PyValue
  import opened Transport
  import Text
  import Endpoints

  /** The SWIS entity whose verbs create and update credentials. */
  const Entity := "Orion.Credential"

  /** `VALID_AUTH_METHODS`. */
  const AuthMethods: seq<Value> := [Null, Str("md5"), Str("sha1"), Str("sha256"), Str("sha512")]

  /** `VALID_PRIV_METHODS`. */
  const PrivMethods: seq<Value> := [Null, Str("des56"), Str("aes128"), Str("aes192"), Str("aes256")]

  /** What each credential kind holds besides its id and name. */
  datatype Kind =
    | SnmpV3(owner: Value, description: Value, username: Value, context: Value,
             authMethod: Value, authPassword: Value, authKeyIsPassword: Value,
             privMethod: Value, privPassword: Value, privKeyIsPassword: Value)
    | SnmpV2(community: Value, owner: Value)
    | UserPass(owner: Value, username: Value, password: Value)

  /** The reason `_validate` gives in its ValueError. */
  datatype Invalid = NoName | NoUsername | NoPassword | NoCommunity | BadAuthMethod | BadPrivMethod

  // ---- _validate ----

  /** The checks of `_validate`, in the order it makes them: whether each holds, and its reason. */
  function Requirements(name: Value, k: Kind): seq<(bool, Invalid)>
  {
    match k
    case SnmpV3(_, _, u, _, a, _, _, p, _, _) =>
      [(Truthy(name), NoName), (Truthy(u), NoUsername), (a in AuthMethods, BadAuthMethod), (p in PrivMethods, BadPrivMethod)]
    case SnmpV2(c, _) => [(Truthy(name), NoName), (Truthy(c), NoCommunity)]
    case UserPass(_, u, pw) => [(Truthy(name), NoName), (Truthy(u), NoUsername), (Truthy(pw), NoPassword)]
  }

  /** The position of the first check that fails, or the number of checks when all hold. */
  function FirstFailing(reqs: seq<(bool, Invalid)>): (n: nat)
    ensures n <= |reqs|
    ensures forall j :: 0 <= j < n ==> reqs[j].0
    ensures n < |reqs| ==> !reqs[n].0
    decreases |reqs|
  {
    if reqs == [] || !reqs[0].0 then 0 else 1 + FirstFailing(reqs[1..])
  }

  /** `_validate`: None when it returns, else the reason of the ValueError it raises. */
  function Validate(name: Value, k: Kind): (r: Option<Invalid>)
    ensures var reqs := Requirements(name, k);
      && (r.None? <==> forall j :: 0 <= j < |reqs| ==> reqs[j].0)
      && (r.Some? ==> exists n :: 0 <= n < |reqs| && !reqs[n].0 && reqs[n].1 == r.value && forall j :: 0 <= j < n ==> reqs[j].0)
  {
    var reqs := Requirements(name, k);
    var n := FirstFailing(reqs);
    if n == |reqs| then None else Some(reqs[n].1)
  }

  /**
   * What `_validate` accepts, kind by kind: a name, and a username with
   * known methods (SNMPv3), a community (SNMPv2), or a username and a
   * password (user/password). The name is always checked first.
   */
  lemma ValidateAccepts(name: Value, k: Kind)
    ensures Validate(name, k).None? <==> Truthy(name) && match k
      case SnmpV3(_, _, u, _, a, _, _, p, _, _) => Truthy(u) && a in AuthMethods && p in PrivMethods
      case SnmpV2(c, _) => Truthy(c)
      case UserPass(_, u, pw) => Truthy(u) && Truthy(pw)
    ensures !Truthy(name) ==> Validate(name, k) == Some(NoName)
  {
    var reqs := Requirements(name, k);
    if !Truthy(name) {
      assert !reqs[0].0 && FirstFailing(reqs) == 0;
    }
    assert (forall j :: 0 <= j < |reqs| ==> reqs[j].0) <==>
      (reqs[0].0 && reqs[1].0 && (|reqs| > 2 ==> reqs[2].0) && (|reqs| > 3 ==> reqs[3].0)) by {
      assert 2 <= |reqs| <= 4;
    }
  }

  /** Without a password a user/password credential is refused for that reason exactly when its name and username are given. */
  lemma UserPassOrder(name: Value, owner: Value, username: Value)
    ensures Validate(name, UserPass(owner, username, Null)) ==
      if !Truthy(name) then Some(NoName) else if !Truthy(username) then Some(NoUsername) else Some(NoPassword)
  {
    var reqs := Requirements(name, UserPass(owner, username, Null));
    if Truthy(name) {
      if Truthy(username) {
        assert FirstFailing(reqs[1..][1..]) == 0;
        assert FirstFailing(reqs) == 2;
      } else {
        assert FirstFailing(reqs[1..]) == 0;
      }
    }
  }

  // ---- argument encoding ----

  /** A method argument: the method upper-cased, or the text "None" when there is none. */
  function MethodArg(m: Value): (r: Value)
    requires m in AuthMethods || m in PrivMethods
  {
    if m == Null then Str("None") else Str(Text.Upper(m.s))
  }

  /** Reads a method argument back: "None" is no method, any other text is lower-cased. */
  function MethodFromArg(a: Value): Value
  {
    if a == Str("None") then Null
    else match a
      case Str(s) => Str(Text.Lower(s))
      case _ => a
  }

  /** Upper- then lower-casing a text without capitals gives it back. */
  lemma LowerUpper(s: string)
    requires forall i :: 0 <= i < |s| ==> !Text.IsUpper(s[i])
    ensures Text.Lower(Text.Upper(s)) == s
  {
    var u := Text.Upper(s);
    forall i | 0 <= i < |s| ensures Text.Lower(u)[i] == s[i] {
      LowerUpperChar(s[i]);
    }
  }

  /** Upper- then lower-casing a character that is not a capital gives it back. */
  lemma LowerUpperChar(c: char)
    requires !Text.IsUpper(c)
    ensures Text.LowerChar(Text.UpperChar(c)) == c
  {
    if Text.IsLower(c) {
      assert Text.IsUpper(Text.UpperChar(c));
    }
  }

  /** The known methods are written without capitals. */
  lemma KnownMethodsLower(m: Value)
    requires (m in AuthMethods || m in PrivMethods) && m != Null
    ensures m.Str? && forall i :: 0 <= i < |m.s| ==> !Text.IsUpper(m.s[i])
  {
  }

  /** Every known method is read back from its argument, so distinct methods give distinct arguments. */
  lemma MethodRoundTrip(m: Value)
    requires m in AuthMethods || m in PrivMethods
    ensures MethodFromArg(MethodArg(m)) == m
  {
    if m != Null {
      KnownMethodsLower(m);
      LowerUpper(m.s);
      var u := Text.Upper(m.s);
      assert |u| != 4 || !Text.IsLower(u[1]);
      assert Text.IsLower("None"[1]);
      assert u != "None";
    }
  }

  /** The verb of `create`. */
  function CreateVerb(k: Kind): string
  {
    match k
    case SnmpV3(_, _, _, _, _, _, _, _, _, _) => "CreateSNMPv3Credentials"
    case SnmpV2(_, _) => "CreateSNMPCredentials"
    case UserPass(_, _, _) => "CreateUsernamePasswordCredentials"
  }

  /** The verb of the update in `save`. */
  function UpdateVerb(k: Kind): string
  {
    match k
    case SnmpV3(_, _, _, _, _, _, _, _, _, _) => "UpdateSNMPv3Credentials"
    case SnmpV2(_, _) => "UpdateSNMPCredentials"
    case UserPass(_, _, _) => "UpdateUsernamePasswordCredentials"
  }

  /**
   * The arguments of `create`. An SNMPv3 credential sends each method as
   * `MethodArg` and each "key is password" flag negated, since the SWIS
   * verb reads it the other way round; its description is not sent.
   */
  function CreateArgs(name: Value, k: Kind): seq<Value>
    requires Validate(name, k).None?
  {
    ValidateAccepts(name, k);
    match k
    case SnmpV3(owner, _, u, ctx, a, apw, akp, p, ppw, pkp) =>
      [name, u, ctx, MethodArg(a), apw, Bool(!Truthy(akp)), MethodArg(p), ppw, Bool(!Truthy(pkp)), owner]
    case SnmpV2(c, owner) => [name, c, owner]
    case UserPass(owner, u, pw) => [name, u, pw, owner]
  }

  /** The arguments of the update in `save`: the id, then the settings as `create` sends them, without the owner. */
  function UpdateArgs(id: Value, name: Value, k: Kind): seq<Value>
    requires Validate(name, k).None?
  {
    ValidateAccepts(name, k);
    match k
    case SnmpV3(_, _, u, ctx, a, apw, akp, p, ppw, pkp) =>
      [id, name, u, ctx, MethodArg(a), apw, Bool(!Truthy(akp)), MethodArg(p), ppw, Bool(!Truthy(pkp))]
    case SnmpV2(c, _) => [id, name, c]
    case UserPass(_, u, pw) => [id, name, u, pw]
  }

  /** The update sends what `create` sends, with the id in front and the owner left off the end. */
  lemma UpdateArgsAreCreateArgs(id: Value, name: Value, k: Kind)
    requires Validate(name, k).None?
    ensures var c := CreateArgs(name, k);
      |c| > 0 && UpdateArgs(id, name, k) == [id] + c[..|c| - 1] && c[|c| - 1] == k.owner
  {
  }

  /**
   * Two valid SNMPv3 credentials that `create` sends the same arguments
   * for have the same name, owner, username, context, methods and
   * passwords, and flags of the same truth: nothing but the description
   * is lost.
   */
  lemma SnmpV3ArgsDetermine(n1: Value, k1: Kind, n2: Value, k2: Kind)
    requires k1.SnmpV3? && k2.SnmpV3? && Validate(n1, k1).None? && Validate(n2, k2).None?
    requires CreateArgs(n1, k1) == CreateArgs(n2, k2)
    ensures n1 == n2 && k1.owner == k2.owner && k1.username == k2.username && k1.context == k2.context
    ensures k1.authMethod == k2.authMethod && k1.privMethod == k2.privMethod
    ensures k1.authPassword == k2.authPassword && k1.privPassword == k2.privPassword
    ensures Truthy(k1.authKeyIsPassword) == Truthy(k2.authKeyIsPassword)
    ensures Truthy(k1.privKeyIsPassword) == Truthy(k2.privKeyIsPassword)
  {
    ValidateAccepts(n1, k1);
    ValidateAccepts(n2, k2);
    var c1 := CreateArgs(n1, k1);
    var c2 := CreateArgs(n2, k2);
    assert c1[3] == c2[3] && c1[6] == c2[6] && c1[5] == c2[5] && c1[8] == c2[8];
    MethodRoundTrip(k1.authMethod);
    MethodRoundTrip(k2.authMethod);
    MethodRoundTrip(k1.privMethod);
    MethodRoundTrip(k2.privMethod);
  }

  /** What `save` answers after an update: True, except None for a user/password credential. */
  function UpdateAnswer(k: Kind): Value
  {
    if k.UserPass? then Null else Bool(true)
  }

  // ---- credentials of pysolarwinds/endpoints/orion/credential.py ----

  /** `_get_attr_updates`: the id and name of the cached properties. */
  function AttrUpdates(p: Props): Props
  {
    map["id" := Get(p, "ID"), "name" := Get(p, "Name")]
  }

  /** The class-level settings of `OrionCredential`. */
  const CredentialConfig := Endpoints.Config("Orion.Credential", map["id" := "ID", "name" := "Name"], "ID", "credential_id",
                                             ["id", "name"], ["id", "name"], [], AttrUpdates)

  /** The URI lookup of `exists()` for a credential. */
  function Lookup(swis: Swis, attrs: Props, uri: string): Endpoints.Lookup
  {
    Endpoints.UriLookup(CredentialConfig, swis, attrs, uri, false)
  }

  /** A lookup that finds nothing leaves the URI as it was, which was none. */
  lemma NotFoundKeepsUri(swis: Swis, attrs: Props, uri: string)
    ensures Lookup(swis, attrs, uri).result == Ok("") ==> Lookup(swis, attrs, uri).uri == uri == ""
  {
  }

  /**
   * A credential of one of the three kinds: an `Endpoint` whose `id` and
   * `name` attributes, which its lookup reads, live in the endpoint's
   * attributes, and whose other settings are `kind`.
   */
  class Credential {
    const ep: Endpoints.Endpoint
    var kind: Kind

    constructor (ep: Endpoints.Endpoint, kind: Kind)
      ensures this.ep == ep && this.kind == kind
    {
      this.ep := ep;
      this.kind := kind;
    }

    ghost predicate Valid()
      reads ep
    {
      ep.config == CredentialConfig
    }

    function Id(): Value
      reads ep
    {
      Get(ep.attrs, "id")
    }

    function Name(): Value
      reads ep
    {
      Get(ep.attrs, "name")
    }

    /**
     * `create`: a credential that already exists is refused with
     * SWObjectExists; otherwise `_validate` runs, the create verb is
     * invoked and its answer becomes the id; True.
     */
    method Create() returns (r: Result<bool>)
      requires Valid()
      modifies ep`uri, ep`present, ep`attrs, ep.swis`log
      ensures Valid()
      ensures var l := Lookup(ep.swis, old(ep.attrs), old(ep.uri));
        var log1 := old(ep.swis.log) + l.calls;
        && ep.uri == l.uri
        && (l.result.Err? ==> r == Err(l.result.error) && ep.attrs == old(ep.attrs) && ep.swis.log == log1)
        && (l.result.Ok? && l.result.value != "" ==> r == Err(SWObjectExists) && ep.attrs == old(ep.attrs) && ep.swis.log == log1)
        && (l.result == Ok("") && Validate(old(Name()), kind).Some? ==>
              r == Err(ValueError) && ep.attrs == old(ep.attrs) && ep.swis.log == log1)
        && (l.result == Ok("") && Validate(old(Name()), kind).None? ==>
              && r == Ok(true)
              && ep.swis.log == log1 + [InvokeCall(Entity, CreateVerb(kind), CreateArgs(old(Name()), kind))]
              && ep.attrs == old(ep.attrs)["id" := ep.swis.InvokeAnswer(CreateVerb(kind))])
    {
      var e := ep.Exists(false);
      if e.Err? {
        return Err(e.error);
      }
      if e.value {
        return Err(SWObjectExists);
      }
      if Validate(Name(), kind).Some? {
        return Err(ValueError);
      }
      var id := ep.swis.Invoke(Entity, CreateVerb(kind), CreateArgs(Name(), kind));
      ep.attrs := ep.attrs["id" := id];
      return Ok(true);
    }

    /**
     * `save`: a credential that does not exist is created (which asks
     * again whether it exists); an existing one is validated and updated,
     * answering `UpdateAnswer`.
     */
    method Save() returns (r: Result<Value>)
      requires Valid()
      modifies ep`uri, ep`present, ep`attrs, ep.swis`log
      ensures Valid()
      ensures var l := Lookup(ep.swis, old(ep.attrs), old(ep.uri));
        var log1 := old(ep.swis.log) + l.calls;
        && (l.result.Err? ==> r == Err(l.result.error) && ep.attrs == old(ep.attrs) && ep.swis.log == log1)
        && (l.result == Ok("") && Validate(old(Name()), kind).Some? ==>
              r == Err(ValueError) && ep.attrs == old(ep.attrs) && ep.swis.log == log1 + l.calls)
        && (l.result == Ok("") && Validate(old(Name()), kind).None? ==>
              && r == Ok(Bool(true))
              && ep.swis.log == log1 + l.calls + [InvokeCall(Entity, CreateVerb(kind), CreateArgs(old(Name()), kind))]
              && ep.attrs == old(ep.attrs)["id" := ep.swis.InvokeAnswer(CreateVerb(kind))])
        && (l.result.Ok? && l.result.value != "" && Validate(old(Name()), kind).Some? ==>
              r == Err(ValueError) && ep.attrs == old(ep.attrs) && ep.swis.log == log1)
        && (l.result.Ok? && l.result.value != "" && Validate(old(Name()), kind).None? ==>
              && r == Ok(UpdateAnswer(kind)) && ep.attrs == old(ep.attrs)
              && ep.swis.log == log1 + [InvokeCall(Entity, UpdateVerb(kind), UpdateArgs(old(Id()), old(Name()), kind))])
    {
      NotFoundKeepsUri(ep.swis, ep.attrs, ep.uri);
      var e := ep.Exists(false);
      if e.Err? {
        return Err(e.error);
      }
      if !e.value {
        var c := Create();
        return if c.Ok? then Ok(Bool(c.value)) else Err(c.error);
      }
      if Validate(Name(), kind).Some? {
        return Err(ValueError);
      }
      var _ := ep.swis.Invoke(Entity, UpdateVerb(kind), UpdateArgs(Id(), Name(), kind));
      return Ok(UpdateAnswer(kind));
    }
  }

  /**
   * `OrionCredential(api, ...)` of one of the three kinds as written: each
   * kind keeps the client in `api`, but the base class's `__init__` asks
   * `self.swis` whether the credential exists. Past the id-or-name check
   * the lookup has a query to send (the id or the name is set), so every
   * construction ends in an exception.
   */
  function ConstructAsWritten(id: Value, name: Value): (r: Result<()>)
    ensures r.Err?
    ensures r == Err(ValueError) <==> !Truthy(id) && !Truthy(name)
    ensures r.Err? && r.error != ValueError ==> r == Err(AttributeError)
  {
    if !Truthy(id) && !Truthy(name) then Err(ValueError) else Err(AttributeError)
  }

  /**
   * `OrionCredential(...)` of one of the three kinds as evidently meant,
   * with the client the kind is given as `swis`: without an id or a
   * name a ValueError; otherwise the attributes are assigned and
   * `Endpoint.__init__` asks whether the credential exists and refreshes
   * it if so. The credential classes have no `_init` methods of their own,
   * no endpoint attributes and no child objects, so nothing else runs.
   */
  method NewCredential(swis: Swis, id: Value, name: Value, kind: Kind) returns (r: Result<Credential>)
    modifies swis`log
    ensures !Truthy(id) && !Truthy(name) ==> r == Err(ValueError) && swis.log == old(swis.log)
    ensures Truthy(id) || Truthy(name) ==>
      var l := Lookup(swis, map["id" := id, "name" := name], "");
      && (l.result.Err? ==> r == Err(l.result.error) && swis.log == old(swis.log) + l.calls)
      && (l.result == Ok("") ==> r.Ok? && r.value.ep.uri == "" && swis.log == old(swis.log) + l.calls)
    ensures r.Ok? ==> && (Truthy(id) || Truthy(name)) && fresh(r.value) && fresh(r.value.ep)
                      && r.value.Valid() && r.value.kind == kind && r.value.ep.swis == swis
    ensures SentSince(old(swis.log), swis.log, [])
  {
    if !Truthy(id) && !Truthy(name) {
      return Err(ValueError);
    }
    var ep := new Endpoints.Endpoint(CredentialConfig, swis, map["id" := id, "name" := name], false, None);
    var e := ep.Exists(false);
    if e.Err? {
      return Err(e.error);
    }
    if e.value {
      ghost var log1 := swis.log;
      var f := ep.Refresh();
      SentSinceTrans(old(swis.log), log1, swis.log, [], []);
      if f.Err? {
        return Err(f.error);
      }
    }
    var c := new Credential(ep, kind);
    return Ok(c);
  }

  // ---- the credential of pysolarwinds/endpoints/orion/credentials/userpass.py ----

  /**
   * `OrionUserPassCredential(swis, ...)` as written: after its assignments
   * it calls the base `__init__` without the `swis` argument that
   * `OrionCredential.__init__` requires, so construction raises TypeError
   * whatever the arguments.
   */
  function UserPassConstructAsWritten(id: Value, name: Value, owner: Value, username: Value, password: Value): (r: Result<()>)
    ensures r == Err(TypeError)
  {
    Err(TypeError)
  }

  /**
   * The user/password credential on the `NewEndpoint` base as evidently
   * meant, with the base constructed from the client: the assignments its
   * `__init__` makes before calling the base class. The methods below
   * describe an object that, as written, construction never yields.
   */
  class NewUserPassCredential {
    const swis: Swis
    var id: Value
    var name: Value
    var owner: Value
    var username: Value
    var password: Value

    constructor (swis: Swis, id: Value, name: Value, owner: Value, username: Value, password: Value)
      ensures this.swis == swis && this.id == id && this.name == name
      ensures this.owner == owner && this.username == username && this.password == password
    {
      this.swis := swis;
      this.id := id;
      this.name := name;
      this.owner := owner;
      this.username := username;
      this.password := password;
    }

    /** The settings as a user/password `Kind`. */
    function Settings(): Kind
      reads this
    {
      UserPass(owner, username, password)
    }

    /**
     * `create` as written: after `_validate` it reads `self.endpoint`,
     * which the `NewEndpoint` base does not define, so it raises
     * AttributeError before anything is sent.
     */
    method CreateAsWritten() returns (r: Result<bool>)
      ensures r == Err(if Validate(name, Settings()).Some? then ValueError else AttributeError)
    {
      if Validate(name, Settings()).Some? {
        return Err(ValueError);
      }
      return Err(AttributeError);
    }

    /** `save` as written: the base has no `exists`, so it raises AttributeError at once. */
    method SaveAsWritten() returns (r: Result<Value>)
      ensures r == Err(AttributeError)
    {
      return Err(AttributeError);
    }

    /**
     * `create` as evidently meant: with no existence check, `_validate`
     * runs, the create verb of the credential entity is invoked and its
     * answer becomes the id; True.
     */
    method Create() returns (r: Result<bool>)
      modifies this`id, swis`log
      ensures Validate(name, Settings()).Some? ==> r == Err(ValueError) && id == old(id) && swis.log == old(swis.log)
      ensures Validate(name, Settings()).None? ==>
        && r == Ok(true) && id == swis.InvokeAnswer(CreateVerb(Settings()))
        && swis.log == old(swis.log) + [InvokeCall(Entity, CreateVerb(Settings()), CreateArgs(name, Settings()))]
    {
      if Validate(name, Settings()).Some? {
        return Err(ValueError);
      }
      id := swis.Invoke(Entity, CreateVerb(Settings()), CreateArgs(name, Settings()));
      return Ok(true);
    }

    /**
     * `save` as evidently meant, with `present` the answer to whether the
     * credential exists: a new one is created; an existing one is
     * validated and updated, answering None.
     */
    method Save(present: bool) returns (r: Result<Value>)
      modifies this`id, swis`log
      ensures Validate(name, Settings()).Some? ==> r == Err(ValueError) && id == old(id) && swis.log == old(swis.log)
      ensures !present && Validate(name, Settings()).None? ==>
        && r == Ok(Bool(true)) && id == swis.InvokeAnswer(CreateVerb(Settings()))
        && swis.log == old(swis.log) + [InvokeCall(Entity, CreateVerb(Settings()), CreateArgs(name, Settings()))]
      ensures present && Validate(name, Settings()).None? ==>
        && r == Ok(Null) && id == old(id)
        && swis.log == old(swis.log) + [InvokeCall(Entity, UpdateVerb(Settings()), UpdateArgs(id, name, Settings()))]
    {
      if !present {
        var c := Create();
        return if c.Ok? then Ok(Bool(c.value)) else Err(c.error);
      }
      if Validate(name, Settings()).Some? {
        return Err(ValueError);
      }
      var _ := swis.Invoke(Entity, UpdateVerb(Settings()), UpdateArgs(id, name, Settings()));
      return Ok(Null);
    }
  }

  // ---- CredentialsModel.get ----

  /** Which credential class `get` constructs, and from what. */
  datatype Chosen = SnmpV3ById(id: Value) | SnmpV3Record(data: Props) | SnmpV2Record(data: Props) | UserPassRecord(data: Props)

  const V3Suffix := "SnmpCredentialsV3"
  const V2Suffix := "SnmpCredentialsV2"
  const UserPassSuffix := "UsernamePasswordCredential"

  /** The query of `get` by name. */
  function NameQuery(name: Value): Query
  {
    Query("Orion.Credential", [("Name", name)])
  }

  /**
   * `get(id, name)` once the name query has answered `rows`: an id wins
   * and always gives an SNMPv3 credential; a name needs exactly one row,
   * whose `CredentialType` suffix picks the class.
   */
  function Choose(id: Value, name: Value, rows: seq<Props>): (r: Result<Chosen>)
    ensures r == Err(ValueError) <==> !Truthy(id) && !Truthy(name)
    ensures Truthy(id) ==> r == Ok(SnmpV3ById(id))
    ensures !Truthy(id) && Truthy(name) && rows == [] ==> r == Err(SWObjectNotFoundError)
    ensures !Truthy(id) && Truthy(name) && |rows| > 1 ==> r == Err(SWNonUniqueResultError)
    ensures r.Ok? && !r.value.SnmpV3ById? ==> !Truthy(id) && Truthy(name) && |rows| == 1 && r.value.data == rows[0]
  {
    if !Truthy(id) && !Truthy(name) then Err(ValueError)
    else if Truthy(id) then Ok(SnmpV3ById(id))
    else if rows == [] then Err(SWObjectNotFoundError)
    else if |rows| > 1 then Err(SWNonUniqueResultError)
    else if "CredentialType" !in rows[0] then Err(KeyError)
    else match rows[0]["CredentialType"]
      case Str(t) =>
        if Text.EndsWith(t, V3Suffix) then Ok(SnmpV3Record(rows[0]))
        else if Text.EndsWith(t, V2Suffix) then Ok(SnmpV2Record(rows[0]))
        else if Text.EndsWith(t, UserPassSuffix) then Ok(UserPassRecord(rows[0]))
        else Err(SWError)
      case _ => Err(AttributeError)
  }

  /** A text ends with a suffix only if their last characters agree. */
  lemma EndsWithLast(t: string, s: string)
    requires |s| > 0 && Text.EndsWith(t, s)
    ensures t[|t| - 1] == s[|s| - 1]
  {
    assert t[|t| - |s|..][|s| - 1] == t[|t| - 1];
  }

  /** No type name ends with two of the three suffixes, so the order `get` tests them in does not matter. */
  lemma SuffixesExclusive(t: string)
    ensures !(Text.EndsWith(t, V3Suffix) && Text.EndsWith(t, V2Suffix))
    ensures !(Text.EndsWith(t, V3Suffix) && Text.EndsWith(t, UserPassSuffix))
    ensures !(Text.EndsWith(t, V2Suffix) && Text.EndsWith(t, UserPassSuffix))
  {
    if Text.EndsWith(t, V3Suffix) {
      EndsWithLast(t, V3Suffix);
    }
    if Text.EndsWith(t, V2Suffix) {
      EndsWithLast(t, V2Suffix);
    }
    if Text.EndsWith(t, UserPassSuffix) {
      EndsWithLast(t, UserPassSuffix);
    }
  }

  /** For a lookup by name with one row, each suffix gives its own class and a type with none of them raises SWError. */
  lemma ChooseBySuffix(name: Value, row: Props, t: string)
    requires Truthy(name) && "CredentialType" in row && row["CredentialType"] == Str(t)
    ensures Text.EndsWith(t, V3Suffix) ==> Choose(Null, name, [row]) == Ok(SnmpV3Record(row))
    ensures Text.EndsWith(t, V2Suffix) ==> Choose(Null, name, [row]) == Ok(SnmpV2Record(row))
    ensures Text.EndsWith(t, UserPassSuffix) ==> Choose(Null, name, [row]) == Ok(UserPassRecord(row))
    ensures !Text.EndsWith(t, V3Suffix) && !Text.EndsWith(t, V2Suffix) && !Text.EndsWith(t, UserPassSuffix) ==>
      Choose(Null, name, [row]) == Err(SWError)
  {
    SuffixesExclusive(t);
  }

  /** `CredentialsModel`: `get` on the model's client. */
  class CredentialsModel {
    const swis: Swis

    constructor (swis: Swis)
      ensures this.swis == swis
    {
      this.swis := swis;
    }

    /** `get`: the name query is sent only for a lookup by name alone; the answer is `Choose` of its rows. */
    method Get(id: Value, name: Value) returns (r: Result<Chosen>)
      modifies swis`log
      ensures r == Choose(id, name, swis.RowsFor(NameQuery(name)))
      ensures swis.log == old(swis.log) + (if !Truthy(id) && Truthy(name) then [QueryCall(NameQuery(name))] else [])
    {
      if !Truthy(id) && !Truthy(name) {
        return Err(ValueError);
      }
      if Truthy(id) {
        return Ok(SnmpV3ById(id));
      }
      var rows := swis.RunQuery(NameQuery(name));
      return Choose(id, name, rows);
    }
  }
}
