/**
 * The SolarWinds Information Service (SWIS) client, replaced by a scripted
 * stub: every call is appended to `log`, and what the server answers is
 * fixed when the stub is built. No network, JSON or HTTP status handling is
 * modelled.
 */
module Transport {
  import opened PyValue

  /** A SWQL `SELECT ... FROM entity WHERE c1 = v1 AND c2 = v2 ...`. */
  datatype Query = Query(entity: string, where: seq<(string, Value)>)

  datatype Call =
    | QueryCall(query: Query)
    | ReadCall(uri: string)
    | CreateCall(entity: string, props: Props)
    /** A create whose keyword arguments also hold dictionaries, by keyword. */
    | CreateNestedCall(entity: string, props: Props, nested: map<string, Props>)
    | UpdateCall(uri: string, props: Props)
    | DeleteCall(uris: seq<string>)
    | InvokeCall(entity: string, verb: string, args: seq<Value>)
    /** A verb whose arguments are a target, a list of records and an option name. */
    | InvokeRowsCall(entity: string, verb: string, target: Value, rows: seq<Props>, option: string)
    | SqlCall(statement: string)

  /** `now` is `past` followed by further calls. */
  predicate Extends(past: seq<Call>, now: seq<Call>)
  {
    |past| <= |now| && now[..|past|] == past
  }

  /** Whether a call leaves the server unchanged. */
  predicate IsRead(c: Call) { c.QueryCall? || c.ReadCall? }

  /** The calls that change something on the server, in order. */
  function Writes(calls: seq<Call>): (w: seq<Call>)
    ensures forall i :: 0 <= i < |w| ==> !IsRead(w[i])
  {
    if calls == [] then []
    else (if IsRead(calls[0]) then [] else [calls[0]]) + Writes(calls[1..])
  }

  lemma {:induction false} WritesAppend(a: seq<Call>, b: seq<Call>)
    ensures Writes(a + b) == Writes(a) + Writes(b)
  {
    if a == [] {
      assert a + b == b;
    } else {
      assert (a + b)[1..] == a[1..] + b;
      WritesAppend(a[1..], b);
    }
  }

  /** A call sequence writes nothing exactly when every call in it only reads. */
  lemma {:induction false} NoWritesOnlyReads(calls: seq<Call>)
    ensures Writes(calls) == [] <==> forall i :: 0 <= i < |calls| ==> IsRead(calls[i])
  {
    if calls != [] {
      NoWritesOnlyReads(calls[1..]);
      if forall i :: 0 <= i < |calls| ==> IsRead(calls[i]) {
        assert forall i :: 0 <= i < |calls[1..]| ==> IsRead(calls[1..][i]) by {
          forall i | 0 <= i < |calls[1..]| ensures IsRead(calls[1..][i]) {
            assert calls[1..][i] == calls[i + 1];
          }
        }
      }
      if Writes(calls) == [] {
        forall i | 0 <= i < |calls| ensures IsRead(calls[i]) {
          if i > 0 {
            assert calls[i] == calls[1..][i - 1];
          }
        }
      }
    }
  }

  /** The writes sent between `past` and `now`, which extends it, are exactly `w`. */
  predicate SentSince(past: seq<Call>, now: seq<Call>, w: seq<Call>)
  {
    Extends(past, now) && Writes(now[|past|..]) == w
  }

  /** Regrouping a log that grows by one call. */
  lemma LogAppend(past: seq<Call>, calls: seq<Call>, c: Call)
    ensures past + calls + [c] == past + (calls + [c])
  {
  }

  lemma ExtendsTrans(a: seq<Call>, b: seq<Call>, c: seq<Call>)
    requires Extends(a, b) && Extends(b, c)
    ensures Extends(a, c)
  {
    assert c[..|a|] == c[..|b|][..|a|];
  }

  lemma SentSinceTrans(a: seq<Call>, b: seq<Call>, c: seq<Call>, w1: seq<Call>, w2: seq<Call>)
    requires SentSince(a, b, w1) && SentSince(b, c, w2)
    ensures SentSince(a, c, w1 + w2)
  {
    assert c[..|a|] == c[..|b|][..|a|];
    assert c[|a|..] == b[|a|..] + c[|b|..];
    WritesAppend(b[|a|..], c[|b|..]);
  }

  /** Appending calls that only read sends nothing. */
  lemma SentReads(past: seq<Call>, calls: seq<Call>)
    requires forall i :: 0 <= i < |calls| ==> IsRead(calls[i])
    ensures SentSince(past, past + calls, [])
  {
    assert (past + calls)[..|past|] == past;
    assert (past + calls)[|past|..] == calls;
    NoWritesOnlyReads(calls);
  }

  /** Appending one write sends exactly that write. */
  lemma SentWrite(past: seq<Call>, c: Call)
    requires !IsRead(c)
    ensures SentSince(past, past + [c], [c])
  {
    assert (past + [c])[..|past|] == past;
    assert (past + [c])[|past|..] == [c];
    assert [c][1..] == [];
  }

  lemma SentNothing(past: seq<Call>)
    ensures SentSince(past, past, [])
  {
    assert past[|past|..] == [];
  }

  /** The calls made by running the queries in order. */
  function QueryLog(qs: seq<Query>): (calls: seq<Call>)
    ensures |calls| == |qs|
    ensures forall i :: 0 <= i < |qs| ==> calls[i] == QueryCall(qs[i])
  {
    if qs == [] then [] else QueryLog(qs[..|qs| - 1]) + [QueryCall(qs[|qs| - 1])]
  }

  /** One more query run, on top of the log `past`. */
  lemma QueryLogStep(past: seq<Call>, qs: seq<Query>, i: nat)
    requires i < |qs|
    ensures past + QueryLog(qs[..i + 1]) == past + QueryLog(qs[..i]) + [QueryCall(qs[i])]
  {
    assert qs[..i + 1][..i] == qs[..i];
    assert QueryLog(qs[..i + 1]) == QueryLog(qs[..i]) + [QueryCall(qs[i])];
  }

  class Swis {
    /** The host name used in URI templates. */
    const host: string
    /** Rows returned for each query; any other query returns no rows. */
    const answers: map<Query, seq<Props>>
    /** Record returned by a read of each URI; any other URI reads as {}. */
    const records: map<string, Props>
    /** URI returned by `create` for each entity type and payload. */
    const createdUris: map<(string, Props), string>
    /** Value returned by `invoke` for each verb. */
    const invokeAnswers: map<string, Value>
    /** Records returned by `invoke` for each verb that answers a list of records. */
    const invokeRecords: map<string, seq<Props>>
    /** Every call made so far, oldest first. */
    var log: seq<Call>

    constructor (host: string, answers: map<Query, seq<Props>>, records: map<string, Props>,
                 createdUris: map<(string, Props), string>, invokeAnswers: map<string, Value>,
                 invokeRecords: map<string, seq<Props>>)
      ensures this.host == host && this.answers == answers && this.records == records
      ensures this.createdUris == createdUris && this.invokeAnswers == invokeAnswers
      ensures this.invokeRecords == invokeRecords
      ensures log == []
    {
      this.host := host;
      this.answers := answers;
      this.records := records;
      this.createdUris := createdUris;
      this.invokeAnswers := invokeAnswers;
      this.invokeRecords := invokeRecords;
      log := [];
    }

    function RowsFor(q: Query): seq<Props>
    {
      if q in answers then answers[q] else []
    }

    function RecordAt(uri: string): Props
    {
      if uri in records then records[uri] else map[]
    }

    function CreatedUri(entity: string, props: Props): string
    {
      if (entity, props) in createdUris then createdUris[(entity, props)] else ""
    }

    function InvokeRecords(verb: string): seq<Props>
    {
      if verb in invokeRecords then invokeRecords[verb] else []
    }

    function InvokeAnswer(verb: string): Value
    {
      if verb in invokeAnswers then invokeAnswers[verb] else Null
    }

    method RunQuery(q: Query) returns (rows: seq<Props>)
      modifies this`log
      ensures rows == RowsFor(q)
      ensures log == old(log) + [QueryCall(q)]
    {
      rows := RowsFor(q);
      log := log + [QueryCall(q)];
    }

    method Read(uri: string) returns (record: Props)
      modifies this`log
      ensures record == RecordAt(uri)
      ensures log == old(log) + [ReadCall(uri)]
    {
      record := RecordAt(uri);
      log := log + [ReadCall(uri)];
    }

    method Create(entity: string, props: Props) returns (uri: string)
      modifies this`log
      ensures uri == CreatedUri(entity, props)
      ensures log == old(log) + [CreateCall(entity, props)]
    {
      uri := CreatedUri(entity, props);
      log := log + [CreateCall(entity, props)];
    }

    method CreateNested(entity: string, props: Props, nested: map<string, Props>) returns (uri: string)
      modifies this`log
      ensures uri == CreatedUri(entity, props)
      ensures log == old(log) + [CreateNestedCall(entity, props, nested)]
    {
      uri := CreatedUri(entity, props);
      log := log + [CreateNestedCall(entity, props, nested)];
    }

    method Update(uri: string, props: Props)
      modifies this`log
      ensures log == old(log) + [UpdateCall(uri, props)]
    {
      log := log + [UpdateCall(uri, props)];
    }

    method Delete(uris: seq<string>)
      modifies this`log
      ensures log == old(log) + [DeleteCall(uris)]
    {
      log := log + [DeleteCall(uris)];
    }

    method Invoke(entity: string, verb: string, args: seq<Value>) returns (answer: Value)
      modifies this`log
      ensures answer == InvokeAnswer(verb)
      ensures log == old(log) + [InvokeCall(entity, verb, args)]
    {
      answer := InvokeAnswer(verb);
      log := log + [InvokeCall(entity, verb, args)];
    }

    /** An `invoke` whose answer is a list of records. */
    method InvokeForRecords(entity: string, verb: string, args: seq<Value>) returns (answer: seq<Props>)
      modifies this`log
      ensures answer == InvokeRecords(verb)
      ensures log == old(log) + [InvokeCall(entity, verb, args)]
    {
      answer := InvokeRecords(verb);
      log := log + [InvokeCall(entity, verb, args)];
    }

    method InvokeRows(entity: string, verb: string, target: Value, rows: seq<Props>, option: string)
      modifies this`log
      ensures log == old(log) + [InvokeRowsCall(entity, verb, target, rows, option)]
    {
      log := log + [InvokeRowsCall(entity, verb, target, rows, option)];
    }

    method Sql(statement: string)
      modifies this`log
      ensures log == old(log) + [SqlCall(statement)]
    {
      log := log + [SqlCall(statement)];
    }
  }
}
