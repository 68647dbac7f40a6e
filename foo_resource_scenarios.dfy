/**
 * The integration scenarios for the Foo resource, replayed through the
 * methods of `FooResource` and `FooRepository`: what a caller can conclude
 * from their contracts alone. The current time, which the update scenario
 * takes from the clock, is a parameter.
 */
module RestScenarios {
  import opened Wrappers
  import opened JavaLang
  import opened Http
  import opened Domain
  import opened Repository
  import opened Rest

  const DEFAULT_NAME: string := "SAMPLE_TEXT"
  const UPDATED_NAME: string := "UPDATED_TEXT"
  const DEFAULT_COMMENT: string := "SAMPLE_TEXT"
  const UPDATED_COMMENT: string := "UPDATED_TEXT"
  /** The epoch, `new DateTime(0L, DateTimeZone.UTC)`. */
  const DEFAULT_DATE: DateTime := DateTime(0)

  /** The Foo every scenario starts from: default name, comment and date, no id. */
  method NewDefaultFoo() returns (foo: Foo)
    ensures fresh(foo)
    ensures foo.Record() == BLANK.(name := Some(DEFAULT_NAME), comment := Some(DEFAULT_COMMENT),
                                   date := Some(DEFAULT_DATE))
  {
    foo := new Foo();
    foo.SetName(Some(DEFAULT_NAME));
    foo.SetComment(Some(DEFAULT_COMMENT));
    foo.SetDate(Some(DEFAULT_DATE));
  }

  /** POST of a new Foo: 201, one more row, and the row holds the default fields. */
  method CreateFoo(resource: FooResource) returns (status: int, sizeBefore: nat, sizeAfter: nat, stored: FooRecord)
    requires resource.repository.Valid() && HasFreshId(resource.repository.State())
    modifies resource.repository
    ensures resource.repository.Valid()
    ensures status == CREATED && sizeAfter == sizeBefore + 1
    ensures stored.id.Some? && stored.id.value in resource.repository.rows
    ensures resource.repository.rows[stored.id.value] == stored
    ensures stored.name == Some(DEFAULT_NAME) && stored.comment == Some(DEFAULT_COMMENT)
    ensures stored.date == Some(DEFAULT_DATE)
  {
    var foo := NewDefaultFoo();
    var before := resource.repository.FindAll();
    var resp := resource.Create(foo);
    var after := resource.repository.FindAll();
    status, sizeBefore, sizeAfter, stored := resp.status, |before|, |after|, resp.body.value;
  }

  /** GET of a saved Foo: 200 with the saved fields. */
  method GetFoo(resource: FooResource) returns (resp: Response<FooRecord>, id: Long)
    requires resource.repository.Valid() && HasFreshId(resource.repository.State())
    modifies resource.repository
    ensures resp.status == OK && resp.body.Some?
    ensures resp.body.value == BLANK.(id := Some(id), name := Some(DEFAULT_NAME),
                                      comment := Some(DEFAULT_COMMENT), date := Some(DEFAULT_DATE))
  {
    var foo := NewDefaultFoo();
    var saved := resource.repository.Save(foo);
    id := foo.GetId().value;
    resp := resource.Get(id);
  }

  /** GET of `Long.MAX_VALUE` on a fresh repository: 404. */
  method GetNonExistingFoo() returns (resp: Response<FooRecord>)
    ensures resp.status == NOT_FOUND && resp.body == None
  {
    var repository := new FooRepository();
    var resource := new FooResource(repository);
    resp := resource.Get(LONG_MAX as Long);
  }

  /** GET of the list after a save: 200, and the saved Foo is among the rows. */
  method GetAllFoos(resource: FooResource) returns (resp: Response<seq<FooRecord>>, saved: FooRecord)
    requires resource.repository.Valid() && HasFreshId(resource.repository.State())
    modifies resource.repository
    ensures resp.status == OK && resp.body.Some? && saved in resp.body.value
    ensures saved.id.Some? && saved.name == Some(DEFAULT_NAME) && saved.comment == Some(DEFAULT_COMMENT)
    ensures saved.date == Some(DEFAULT_DATE)
  {
    var foo := NewDefaultFoo();
    saved := resource.repository.Save(foo);
    resp := resource.GetAll();
  }

  /** PUT of a saved Foo with new fields: 200, as many rows as before, the row holds the new fields. */
  method UpdateFoo(resource: FooResource, now: DateTime)
    returns (status: int, sizeBefore: nat, sizeAfter: nat, stored: FooRecord)
    requires resource.repository.Valid() && HasFreshId(resource.repository.State())
    modifies resource.repository
    ensures resource.repository.Valid()
    ensures status == OK && sizeAfter == sizeBefore
    ensures stored.id.Some? && stored.id.value in resource.repository.rows
    ensures resource.repository.rows[stored.id.value] == stored
    ensures stored.name == Some(UPDATED_NAME) && stored.comment == Some(UPDATED_COMMENT)
    ensures stored.date == Some(now)
  {
    var foo := NewDefaultFoo();
    var saved := resource.repository.Save(foo);
    var before := resource.repository.FindAll();
    foo.SetName(Some(UPDATED_NAME));
    foo.SetComment(Some(UPDATED_COMMENT));
    foo.SetDate(Some(now));
    var resp := resource.Update(foo);
    var after := resource.repository.FindAll();
    status, sizeBefore, sizeAfter := resp.status, |before|, |after|;
    stored := resource.repository.rows[foo.GetId().value];
  }

  /** DELETE of a saved Foo: 200, one row fewer, and a later GET is 404. */
  method DeleteFoo(resource: FooResource) returns (status: int, sizeBefore: nat, sizeAfter: nat, later: int)
    requires resource.repository.Valid() && HasFreshId(resource.repository.State())
    modifies resource.repository
    ensures resource.repository.Valid()
    ensures status == OK && sizeAfter + 1 == sizeBefore && later == NOT_FOUND
  {
    var foo := NewDefaultFoo();
    var saved := resource.repository.Save(foo);
    var before := resource.repository.FindAll();
    var resp := resource.Delete(foo.GetId().value);
    var after := resource.repository.FindAll();
    var again := resource.Get(foo.GetId().value);
    status, sizeBefore, sizeAfter, later := resp.status, |before|, |after|, again.status;
  }
}
