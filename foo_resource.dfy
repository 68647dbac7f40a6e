/**
 * The REST resource for Foo under `/api`: create, update, list, get and
 * delete. Each operation is given twice: as a function from the repository
 * table (and the request) to the new table and the response, which the
 * lemmas reason about, and as a method of `FooResource` that performs the
 * repository calls and is proved to agree with that function.
 */
module Rest {
  import opened Wrappers
  import opened JavaLang
  import opened Http
  import opened HeaderUtil
  import opened Domain
  import opened Repository

  /** The entity name in the alert keys. */
  const ENTITY_NAME: string := "foo"
  /** The path of one Foo, without its id. */
  const FOO_PATH: string := "/api/foos/"
  const LOCATION: string := "Location"
  const FAILURE: string := "Failure"
  const FAILURE_MESSAGE: string := "A new foo cannot already have an ID"

  // The responses the resource builds

  /** 400 with a `Failure` header and a null body. */
  function RejectedResponse(): (r: Response<FooRecord>)
    ensures r.status == BAD_REQUEST && r.body == None
    ensures HeaderValue(r.headers, FAILURE) == Some(FAILURE_MESSAGE)
    ensures DecodeAlert(r.headers) == None
  {
    Response(BAD_REQUEST, [(FAILURE, FAILURE_MESSAGE)], None)
  }

  /** 201 with `Location: /api/foos/<id>`, the creation alert for the id, and the saved row. */
  function CreatedResponse(result: FooRecord): (r: Response<FooRecord>)
    requires result.id.Some?
    ensures r.status == CREATED && r.body == Some(result)
    ensures |r.headers| == 3 && r.headers[0] == (LOCATION, FOO_PATH + LongToString(result.id.value))
  {
    var id := LongToString(result.id.value);
    Response(CREATED, [(LOCATION, FOO_PATH + id)] + CreateEntityCreationAlert(ENTITY_NAME, id), Some(result))
  }

  /** 200 with the update alert for the id of the request, and the saved row. */
  function UpdatedResponse(id: Long, result: FooRecord): (r: Response<FooRecord>)
    ensures r.status == OK && r.body == Some(result)
    ensures DecodeAlert(r.headers) == Some(Alert(ENTITY_NAME, Updated, LongToString(id)))
  {
    Response(OK, CreateEntityUpdateAlert(ENTITY_NAME, LongToString(id)), Some(result))
  }

  /** 200 with the stored row, or 404 with no body. */
  function FoundResponse(found: Option<FooRecord>): (r: Response<FooRecord>)
    ensures r.status == OK <==> found.Some?
    ensures r.status == OK || r.status == NOT_FOUND
    ensures r.body == found && r.headers == []
  {
    match found
    case Some(_) => Response(OK, [], found)
    case None => Response(NOT_FOUND, [], None)
  }

  /** 200 with the deletion alert for the id and no body. */
  function DeletedResponse(id: Long): (r: Response<()>)
    ensures r.status == OK && r.body == None
    ensures DecodeAlert(r.headers) == Some(Alert(ENTITY_NAME, Deleted, LongToString(id)))
  {
    Response(OK, CreateEntityDeletionAlert(ENTITY_NAME, LongToString(id)), None)
  }

  /** The alert a client reads from a created response; the `Location` entry comes first. */
  lemma CreatedResponseHeaders(result: FooRecord)
    requires result.id.Some?
    ensures HeaderValue(CreatedResponse(result).headers, LOCATION) == Some(FOO_PATH + LongToString(result.id.value))
    ensures DecodeAlert(CreatedResponse(result).headers)
         == Some(Alert(ENTITY_NAME, Created, LongToString(result.id.value)))
  {
    var id := LongToString(result.id.value);
    var front: Headers := [(LOCATION, FOO_PATH + id)];
    var alert := CreateEntityCreationAlert(ENTITY_NAME, id);
    assert HeaderValue(front, LOCATION) == Some(FOO_PATH + id);
    HeaderValueAppend(front, alert, LOCATION);
    assert HeaderValue(front, ALERT_HEADER) == None;
    assert HeaderValue(front, PARAMS_HEADER) == None;
    HeaderValueSkip(front, alert, ALERT_HEADER);
    HeaderValueSkip(front, alert, PARAMS_HEADER);
  }

  // The operations on the table

  /** `POST /api/foos`. */
  function CreateStep(t: Table, foo: FooRecord): (r: (Table, Response<FooRecord>))
    requires WellFormed(t)
    requires foo.id == None ==> HasFreshId(t)
    ensures WellFormed(r.0)
    ensures foo.id.Some? ==>
              && r.0 == t && r.1.status == BAD_REQUEST && r.1.body == None
              && HeaderValue(r.1.headers, FAILURE) == Some(FAILURE_MESSAGE)
    ensures foo.id == None ==>
              && r.1.status == CREATED && r.1.body.Some? && r.1.body.value.id.Some?
              && var saved := r.1.body.value;
                 var id := saved.id.value;
                 && saved == foo.(id := Some(id))
                 && id !in t.rows && r.0.rows == t.rows[id := saved]
                 && |r.0.rows| == |t.rows| + 1
                 && HeaderValue(r.1.headers, LOCATION) == Some(FOO_PATH + LongToString(id))
                 && DecodeAlert(r.1.headers) == Some(Alert(ENTITY_NAME, Created, LongToString(id)))
  {
    if foo.id.Some? then
      (t, RejectedResponse())
    else
      var (t', result) := AfterSave(t, foo);
      CreatedResponseHeaders(result);
      (t', CreatedResponse(result))
  }

  /** `PUT /api/foos`. */
  function UpdateStep(t: Table, foo: FooRecord): (r: (Table, Response<FooRecord>))
    requires WellFormed(t)
    requires foo.id == None ==> HasFreshId(t)
    ensures WellFormed(r.0)
    ensures foo.id == None ==> r == CreateStep(t, foo)
    ensures foo.id.Some? ==>
              && var id := foo.id.value;
                 && r.1.status == OK && r.1.body == Some(foo)
                 && DecodeAlert(r.1.headers) == Some(Alert(ENTITY_NAME, Updated, LongToString(id)))
                 && r.0.rows == t.rows[id := foo]
                 && (id in t.rows ==> |r.0.rows| == |t.rows|)
                 && (id !in t.rows ==> |r.0.rows| == |t.rows| + 1)
  {
    if foo.id == None then
      CreateStep(t, foo)
    else
      var (t', result) := AfterSave(t, foo);
      (t', UpdatedResponse(foo.id.value, result))
  }

  /** `GET /api/foos/{id}`; it leaves the table as it is. */
  function GetStep(t: Table, id: Long): (r: Response<FooRecord>)
    ensures r.status == OK <==> id in t.rows
    ensures r.status == OK ==> r.body == Some(t.rows[id])
    ensures id !in t.rows ==> r.status == NOT_FOUND && r.body == None
    ensures r.headers == []
  {
    FoundResponse(Lookup(t, id))
  }

  /** `DELETE /api/foos/{id}`: no existence check, always 200. */
  function DeleteStep(t: Table, id: Long): (r: (Table, Response<()>))
    ensures WellFormed(t) ==> WellFormed(r.0)
    ensures r.0 == AfterDelete(t, id)
    ensures r.1.status == OK && r.1.body == None
    ensures DecodeAlert(r.1.headers) == Some(Alert(ENTITY_NAME, Deleted, LongToString(id)))
    ensures r.0.rows.Keys == t.rows.Keys - {id}
    ensures |r.0.rows| == if id in t.rows then |t.rows| - 1 else |t.rows|
    ensures GetStep(r.0, id).status == NOT_FOUND
  {
    (AfterDelete(t, id), DeletedResponse(id))
  }

  // Properties across several requests

  /**
   * After a create, following the `Location` header (`GET /api/foos/{id}`,
   * the id read back from the path) yields 200 with the created row.
   */
  lemma CreateThenGet(t: Table, foo: FooRecord)
    requires WellFormed(t) && foo.id == None && HasFreshId(t)
    ensures var (t', r) := CreateStep(t, foo);
            && r.body.Some? && r.body.value.id.Some?
            && var location := HeaderValue(r.headers, LOCATION).value;
               && |location| > |FOO_PATH| && location[..|FOO_PATH|] == FOO_PATH
               && ParseLong(location[|FOO_PATH|..]) == Some(r.body.value.id.value)
               && GetStep(t', r.body.value.id.value) == Response(OK, [], r.body)
  {
    var (t', r) := CreateStep(t, foo);
    var id := r.body.value.id.value;
    var location := FOO_PATH + LongToString(id);
    assert location[..|FOO_PATH|] == FOO_PATH;
    assert location[|FOO_PATH|..] == LongToString(id);
    LongToStringRoundTrip(id);
  }

  /** After an update of a stored Foo, a get shows the new field values. */
  lemma UpdateThenGet(t: Table, foo: FooRecord)
    requires WellFormed(t) && foo.id.Some?
    ensures var t' := UpdateStep(t, foo).0;
            && GetStep(t', foo.id.value) == Response(OK, [], Some(foo))
            && t'.rows[foo.id.value].name == foo.name
            && t'.rows[foo.id.value].comment == foo.comment
            && t'.rows[foo.id.value].date == foo.date
  {
  }

  /** Deleting what was just created gives back the rows as they were. */
  lemma CreateThenDelete(t: Table, foo: FooRecord)
    requires WellFormed(t) && foo.id == None && HasFreshId(t)
    ensures var (t', r) := CreateStep(t, foo);
            DeleteStep(t', r.body.value.id.value).0.rows == t.rows
  {
    var (t', r) := CreateStep(t, foo);
    var id := r.body.value.id.value;
    assert id !in t.rows && t'.rows == t.rows[id := r.body.value];
    RemoveAfterInsert(t.rows, id, r.body.value);
  }

  lemma RemoveAfterInsert(m: map<Long, FooRecord>, k: Long, v: FooRecord)
    requires k !in m
    ensures m[k := v] - {k} == m
  {
    assert (m[k := v] - {k}).Keys == m.Keys;
  }

  /** Two creates in a row answer with different `Location` headers. */
  lemma CreatesHaveDistinctLocations(t: Table, foo1: FooRecord, foo2: FooRecord)
    requires WellFormed(t) && foo1.id == None && foo2.id == None && t.nextId < LONG_MAX
    ensures var (t1, r1) := CreateStep(t, foo1);
            HasFreshId(t1) &&
            HeaderValue(r1.headers, LOCATION) != HeaderValue(CreateStep(t1, foo2).1.headers, LOCATION)
  {
    var (t1, r1) := CreateStep(t, foo1);
    var r2 := CreateStep(t1, foo2).1;
    var s1, s2 := LongToString(r1.body.value.id.value), LongToString(r2.body.value.id.value);
    LongToStringInjective(r1.body.value.id.value, r2.body.value.id.value);
    assert s1 != s2;
    assert (FOO_PATH + s1)[|FOO_PATH|..] == s1;
    assert (FOO_PATH + s2)[|FOO_PATH|..] == s2;
  }

  /** On a fresh table a get of `Long.MAX_VALUE` is 404. */
  lemma GetMissingOnFreshTable()
    ensures GetStep(EMPTY, LONG_MAX as Long).status == NOT_FOUND
  {
  }

  // The handler object

  class FooResource {
    const repository: FooRepository

    /** The repository is passed in rather than injected into a field. */
    constructor (repository: FooRepository)
      ensures this.repository == repository
    {
      this.repository := repository;
    }

    /** `create(foo)`; a persisted Foo receives its new id. */
    method Create(foo: Foo) returns (resp: Response<FooRecord>)
      requires repository.Valid()
      requires foo.GetId() == None ==> HasFreshId(repository.State())
      modifies repository, foo
      ensures repository.Valid()
      ensures (repository.State(), resp) == CreateStep(old(repository.State()), old(foo.Record()))
      ensures old(foo.GetId()).Some? ==> foo.Record() == old(foo.Record())
      ensures old(foo.GetId()) == None ==> Some(foo.Record()) == resp.body
    {
      if foo.GetId() != None {
        return RejectedResponse();
      }
      var result := repository.Save(foo);
      resp := CreatedResponse(result);
    }

    /** `update(foo)`: a Foo without an id takes the create path. */
    method Update(foo: Foo) returns (resp: Response<FooRecord>)
      requires repository.Valid()
      requires foo.GetId() == None ==> HasFreshId(repository.State())
      modifies repository, foo
      ensures repository.Valid()
      ensures (repository.State(), resp) == UpdateStep(old(repository.State()), old(foo.Record()))
      ensures old(foo.GetId()).Some? ==> foo.Record() == old(foo.Record())
      ensures old(foo.GetId()) == None ==> Some(foo.Record()) == resp.body
    {
      if foo.GetId() == None {
        resp := Create(foo);
        return;
      }
      var result := repository.Save(foo);
      resp := UpdatedResponse(foo.GetId().value, result);
    }

    /**
     * `getAll()` without pagination: 200 and every stored row once, in an
     * order the store chooses.
     */
    method GetAll() returns (resp: Response<seq<FooRecord>>)
      requires repository.Valid()
      ensures resp.status == OK && resp.body.Some?
      ensures IsListing(resp.body.value, repository.State())
    {
      var content := repository.FindAll();
      resp := Response(OK, [], Some(content));
    }

    /** `get(id)`. */
    method Get(id: Long) returns (resp: Response<FooRecord>)
      ensures resp == GetStep(repository.State(), id)
    {
      var found := repository.FindOne(id);
      resp := FoundResponse(found);
    }

    /** `delete(id)`. */
    method Delete(id: Long) returns (resp: Response<()>)
      requires repository.Valid()
      modifies repository
      ensures repository.Valid()
      ensures (repository.State(), resp) == DeleteStep(old(repository.State()), id)
    {
      repository.Delete(id);
      resp := DeletedResponse(id);
    }
  }
}
