/** A vector database as its clients see it: named collections of rows, calls that
    may fail, and a record of every state it has been in. */
module CollectionServer {
  import opened Basics

  datatype Value = Text(text: string) | Number(number: int) | Flag(flag: bool) | Texts(texts: seq<string>) | Null

  type Row = map<string, Value>

  type Collections = map<string, seq<Row>>

  /** How a call that writes ends: normally, or with an error after part of the work: `done` rows
      of an insert; for the other calls, whether the whole effect took place. */
  datatype Fault = NoFault | FailsAfter(done: nat)

  predicate TakesEffect(fault: Fault) {
    fault.NoFault? || fault.done > 0
  }

  const BATCH: nat := 500

  /** Whether Python's `or` keeps the value. */
  predicate Truthy(v: Value) {
    match v
    case Text(t) => t != ""
    case Number(n) => n != 0
    case Flag(b) => b
    case Texts(ts) => ts != []
    case Null => false
  }

  /** `str(row.get(key) or default)`. */
  function TextOr(row: Row, key: string, default: string, render: Value -> string): string {
    if key in row && Truthy(row[key]) then render(row[key]) else default
  }

  /** `row.setdefault(key, value)`. */
  function SetDefault(row: Row, key: string, value: Value): Row {
    if key in row then row else row[key := value]
  }

  class Server {
    var collections: Collections
    ghost var history: seq<Collections>

    constructor (collections: Collections)
      ensures this.collections == collections && history == [collections]
    {
      this.collections := collections;
      history := [collections];
    }

    /** A failing rename may have taken effect. */
    method Rename(name: string, to: string, fault: Fault) returns (ok: bool)
      modifies this
      ensures ok <==> fault.NoFault? && name in old(collections) && to !in old(collections)
      ensures collections == if TakesEffect(fault) && name in old(collections) && to !in old(collections)
        then (old(collections) - {name})[to := old(collections)[name]] else old(collections)
      ensures history == old(history) + [collections]
    {
      var possible := name in collections && to !in collections;
      ok := fault.NoFault? && possible;
      if TakesEffect(fault) && possible {
        var rows := collections[name];
        collections := collections - {name};
        collections := collections[to := rows];
      }
      history := history + [collections];
    }

    /** A failing create may or may not leave an empty collection behind. */
    method Create(name: string, fault: Fault) returns (ok: bool)
      modifies this
      ensures ok <==> fault.NoFault? && name !in old(collections)
      ensures collections == if TakesEffect(fault) && name !in old(collections) then old(collections)[name := []] else old(collections)
      ensures history == old(history) + [collections]
    {
      ok := fault.NoFault? && name !in collections;
      if name !in collections && TakesEffect(fault) {
        collections := collections[name := []];
      }
      history := history + [collections];
    }

    /** A failing insert may have stored some of the rows. */
    method Insert(name: string, data: seq<Row>, fault: Fault) returns (ok: bool)
      modifies this
      ensures ok <==> fault.NoFault? && name in old(collections)
      ensures ok ==> collections == old(collections)[name := old(collections)[name] + data]
      ensures collections.Keys == old(collections).Keys
      ensures forall c | c in collections && c != name :: collections[c] == old(collections)[c]
      ensures history == old(history) + [collections]
    {
      ok := fault.NoFault? && name in collections;
      if name in collections {
        var stored := if ok then |data| else Min(fault.done, |data|);
        assert ok ==> data[..stored] == data;
        collections := collections[name := collections[name] + data[..stored]];
      }
      history := history + [collections];
    }

    /** A failing drop may have taken effect. */
    method Drop(name: string, fault: Fault) returns (ok: bool)
      modifies this
      ensures ok <==> fault.NoFault?
      ensures collections == if TakesEffect(fault) then old(collections) - {name} else old(collections)
      ensures history == old(history) + [collections]
    {
      ok := fault.NoFault?;
      if TakesEffect(fault) {
        collections := collections - {name};
      }
      history := history + [collections];
    }

    /** Loading, releasing and flushing change no row. */
    method Touch(name: string, fails: bool) returns (ok: bool)
      modifies this
      ensures ok <==> !fails && name in collections
      ensures collections == old(collections) && history == old(history) + [collections]
    {
      ok := !fails && name in collections;
      history := history + [collections];
    }
  }

  /** A query cursor over a fixed result, `BATCH` rows at a time. */
  class QueryIterator {
    const result: seq<Row>
    var position: nat

    constructor (result: seq<Row>)
      ensures this.result == result && position == 0
    {
      this.result, position := result, 0;
    }

    method Next() returns (batch: seq<Row>)
      requires position <= |result|
      modifies this
      ensures position == old(position) + |batch| <= |result|
      ensures batch == result[old(position)..position]
      ensures batch == [] <==> old(position) == |result|
    {
      var end := Min(position + BATCH, |result|);
      batch := result[position..end];
      position := end;
    }
  }

  /** Read batches until an empty one; the rows are exactly those of the result, in order. */
  method ReadAll(result: seq<Row>) returns (rows: seq<Row>)
    ensures rows == result
  {
    rows := [];
    var cursor := new QueryIterator(result);
    var batch := cursor.Next();
    while batch != []
      invariant cursor.position == |rows| + |batch| <= |result|
      invariant rows == result[..|rows|] && batch == result[|rows|..cursor.position]
      invariant batch == [] ==> |rows| == |result|
      decreases |result| - |rows|
    {
      assert rows + batch == result[..cursor.position];
      rows := rows + batch;
      batch := cursor.Next();
    }
  }

  /** Count a result without keeping it. */
  method CountAll(result: seq<Row>) returns (count: nat)
    ensures count == |result|
  {
    count := 0;
    var cursor := new QueryIterator(result);
    var batch := cursor.Next();
    while batch != []
      invariant cursor.position == count + |batch| <= |result|
      invariant batch == result[count..cursor.position]
      invariant batch == [] ==> count == |result|
      decreases |result| - count
    {
      count := count + |batch|;
      batch := cursor.Next();
    }
  }
}
