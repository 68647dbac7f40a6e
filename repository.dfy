/**
 * The contract the REST resource relies on from its Foo repository, stated as
 * an abstract in-memory table: a map from id to row plus a fresh-id counter.
 * This is an assumption about the persistence collaborator, not a verified
 * description of any particular store.
 *
 *  - `save` of a Foo without an id stores it under a fresh id and gives the
 *    passed object that id; `save` of a Foo with an id stores it under that
 *    id, replacing any row already there.
 *  - `findOne` yields the row stored under an id, if any.
 *  - `delete` removes the row stored under an id, and does nothing if there is none.
 *  - `findAll` yields every stored row once, in an order the store chooses.
 */
module Repository {
  import opened Wrappers
  import opened JavaLang
  import opened Domain

  /** The rows of table FOO keyed by id, and the next id the generator hands out. */
  datatype Table = Table(rows: map<Long, FooRecord>, nextId: int)

  /** A fresh table; hence the first generated id is 1. */
  const EMPTY: Table := Table(map[], 1)

  /** Every row is stored under its own id, and the generator is past every id in use. */
  predicate WellFormed(t: Table) {
    && 1 <= t.nextId
    && forall k :: k in t.rows ==> t.rows[k].id == Some(k) && (k as int) < t.nextId
  }

  /** The generator still has a `long` to hand out. */
  predicate HasFreshId(t: Table) {
    t.nextId <= LONG_MAX
  }

  /** `findOne(id)`. */
  function Lookup(t: Table, id: Long): (r: Option<FooRecord>)
    ensures r.Some? <==> id in t.rows
    ensures r.Some? ==> r.value == t.rows[id]
    ensures WellFormed(t) && r.Some? ==> r.value.id == Some(id)
  {
    if id in t.rows then Some(t.rows[id]) else None
  }

  /** `save(foo)`: the new table and the saved row. */
  function AfterSave(t: Table, foo: FooRecord): (r: (Table, FooRecord))
    requires WellFormed(t)
    requires foo.id == None ==> HasFreshId(t)
    ensures WellFormed(r.0)
    ensures r.1.id.Some? && r.0.rows == t.rows[r.1.id.value := r.1]
    ensures r.1 == foo.(id := r.1.id)
    ensures foo.id.Some? ==> r.1 == foo
    ensures foo.id == None ==> r.1.id.value !in t.rows && |r.0.rows| == |t.rows| + 1
    ensures foo.id.Some? ==> (|r.0.rows| == |t.rows| <==> foo.id.value in t.rows)
  {
    match foo.id
    case None =>
      var id := t.nextId as Long;
      var saved := foo.(id := Some(id));
      (Table(t.rows[id := saved], t.nextId + 1), saved)
    case Some(id) =>
      var next := if t.nextId <= id as int then id as int + 1 else t.nextId;
      (Table(t.rows[id := foo], next), foo)
  }

  /** `delete(id)`. */
  function AfterDelete(t: Table, id: Long): (t': Table)
    ensures WellFormed(t) ==> WellFormed(t')
    ensures t'.rows.Keys == t.rows.Keys - {id}
    ensures forall k :: k in t'.rows ==> t'.rows[k] == t.rows[k]
    ensures |t'.rows| == if id in t.rows then |t.rows| - 1 else |t.rows|
    ensures t'.nextId == t.nextId
  {
    Table(t.rows - {id}, t.nextId)
  }

  /** `content` holds every row of `t` exactly once, and nothing else. */
  predicate IsListing(content: seq<FooRecord>, t: Table) {
    && |content| == |t.rows|
    && ListsExactly(content, t.rows, t.rows.Keys)
  }

  /** `content` holds the rows stored under the keys `done`, each once, and nothing else. */
  predicate ListsExactly(content: seq<FooRecord>, rows: map<Long, FooRecord>, done: set<Long>) {
    && (forall i :: 0 <= i < |content| ==>
          content[i].id.Some? && content[i].id.value in done && content[i].id.value in rows
          && rows[content[i].id.value] == content[i])
    && (forall i, j :: 0 <= i < j < |content| ==> content[i].id != content[j].id)
    && (forall k :: k in done && k in rows ==> rows[k] in content)
  }

  /** Appending the row of one more key keeps the listing exact. */
  lemma ListsOneMore(content: seq<FooRecord>, rows: map<Long, FooRecord>, done: set<Long>, k: Long)
    requires ListsExactly(content, rows, done)
    requires k in rows && k !in done && rows[k].id == Some(k)
    ensures ListsExactly(content + [rows[k]], rows, done + {k})
  {
    var content' := content + [rows[k]];
    assert content'[|content|] == rows[k];
    forall i, j | 0 <= i < j < |content'|
      ensures content'[i].id != content'[j].id
    {
      if j == |content| {
        assert content'[i] == content[i];
      }
    }
  }

  /** Lists the rows of a table, picking the keys in an unspecified order. */
  method ListRows(rows: map<Long, FooRecord>) returns (content: seq<FooRecord>)
    requires forall k :: k in rows ==> rows[k].id == Some(k)
    ensures |content| == |rows| && ListsExactly(content, rows, rows.Keys)
  {
    content := [];
    var todo, done := rows.Keys, {};
    while todo != {}
      invariant todo + done == rows.Keys && todo !! done
      invariant |content| == |done|
      invariant ListsExactly(content, rows, done)
      decreases todo
    {
      var k :| k in todo;
      ListsOneMore(content, rows, done, k);
      content := content + [rows[k]];
      todo, done := todo - {k}, done + {k};
    }
    assert done == rows.Keys;
  }

  class FooRepository {
    var rows: map<Long, FooRecord>
    var nextId: int

    function State(): Table
      reads this
    {
      Table(rows, nextId)
    }

    ghost predicate Valid()
      reads this
    {
      WellFormed(State())
    }

    constructor ()
      ensures Valid() && State() == EMPTY
    {
      rows, nextId := map[], 1;
    }

    /**
     * `save(foo)`. A Foo without an id is persisted: the passed object itself
     * receives the generated id. Otherwise the object is left as it is and its
     * values are stored under its id.
     */
    method Save(foo: Foo) returns (saved: FooRecord)
      requires Valid()
      requires foo.GetId() == None ==> HasFreshId(State())
      modifies this, foo
      ensures Valid()
      ensures (State(), saved) == AfterSave(old(State()), old(foo.Record()))
      ensures foo.Record() == saved
    {
      var id: Long;
      if foo.GetId() == None {
        id := nextId as Long;
        foo.SetId(Some(id));
        nextId := nextId + 1;
      } else {
        id := foo.GetId().value;
        if nextId <= id as int {
          nextId := id as int + 1;
        }
      }
      saved := foo.Record();
      rows := rows[id := saved];
    }

    /** `findOne(id)`. */
    method FindOne(id: Long) returns (r: Option<FooRecord>)
      ensures r == Lookup(State(), id)
    {
      r := Lookup(State(), id);
    }

    /** `delete(id)`. */
    method Delete(id: Long)
      requires Valid()
      modifies this
      ensures Valid()
      ensures State() == AfterDelete(old(State()), id)
    {
      rows := rows - {id};
    }

    /** `findAll()`: every stored row once, in an order the store chooses. */
    method FindAll() returns (content: seq<FooRecord>)
      requires Valid()
      ensures IsListing(content, State())
    {
      content := ListRows(rows);
    }
  }
}
