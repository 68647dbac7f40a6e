# Foo CRUD resource — a Dafny model

This project models the Java core of a generated CRUD backend for one entity,
`Foo`: the REST handler `FooResource` (create, update, list, get, delete), the
alert-header builder `HeaderUtil`, and the entity `Foo` with its setters,
`equals` and `hashCode`. The repository the handler calls is modelled as an
abstract in-memory table: a map from id to row plus a fresh-id counter. Its
behaviour is an ASSUMPTION about the persistence collaborator, stated in
module `Repository`. It is not verified library behaviour:

- `save` of a Foo without an id stores it under the next id of the counter and
  sets that id on the passed object (persist).
- `save` of a Foo with an id stores its values under that id, replacing any row
  there (merge / upsert).
- `findOne` returns the row under an id, or nothing.
- `delete` removes the row under an id, and does nothing if there is none.
- `findAll` returns every row once, in an order the store chooses.

Modules, one per source file or component:

- `Wrappers`: `Option`, standing for Java's nullable references.
- `JavaLang`: the `long`/`int` ranges and `Long.toString`, which the handler
  uses for the `Location` URI and the alert parameter. It also has the
  ASCII-decimal part of `Long.parseLong`, the inverse of that rendering, and
  `Long.hashCode`: `(int)(v ^ (v >>> 32))`, written out on integers.
- `Http`: status codes, headers as an ordered list of (name, value) entries,
  the response entity, and how a client reads a header.
- `HeaderUtil` (`HeaderUtil.java`): the two-entry alert header set, and the
  three alert keys `jhipstertestApp.<entity>.created|updated|deleted`. It also
  has a parser for those keys, which is their inverse.
- `Domain` (`Foo.java`): `FooRecord`, the field values of a Foo, which is what
  a table row and a response body hold. `Foo` is a class with those fields, its
  getters and setters, `Equals` over `object?` and `HashCode`.
- `Repository`: the table contract above, as functions on a `Table` value, and
  the class `FooRepository`, whose methods are proved equal to those functions.
- `Notification` (`notification.interceptor.js`): when the web client shows
  an alert, and with which key and parameter.
- `Rest` (`FooResource.java`): each handler operation as a function from
  (table, request) to (new table, response), the lemmas relating several
  requests, and the class `FooResource` whose methods call the repository and
  are proved to agree with those functions.
- `RestScenarios`: the integration tests' scenarios replayed through the class
  methods. They show what a caller can conclude from the contracts alone.

The model follows the code in two details that are easy to misread. The
resource is mapped under `/api`, so `Location` is `/api/foos/<id>`. The update
alert carries the id of the request body, not that of the saved row.

## Model

| member | source | states |
|---|---|---|
| `JavaLang.LongToString` | src/main/java/local/demo/test/web/rest/FooResource.java:48-49 | the decimal rendering of an id is non-empty; it has a leading '-' exactly for negative ids and otherwise only digits |
| `JavaLang.NatToDecimal` | src/main/java/local/demo/test/web/rest/FooResource.java:48-49 | the numeral of a natural number is all digits, with no leading zero except "0" itself |
| `JavaLang.DecimalRoundTrip` | src/main/java/local/demo/test/web/rest/FooResource.java:48-49 | the value of the numeral of n is n |
| `JavaLang.ParseLong` | src/main/java/local/demo/test/web/rest/FooResource.java:93 | the ASCII-decimal reading of the `{id}` path variable: a successful parse is of digits with at most a leading sign, and an unsigned numeral within the `long` range reads as its value |
| `JavaLang.LongToStringRoundTrip` | src/main/java/local/demo/test/web/rest/FooResource.java:89-93 | parsing the rendered id (as the `{id}` path variable is parsed) gives back the id |
| `JavaLang.LongToStringInjective` | src/main/java/local/demo/test/web/rest/FooResource.java:48 | distinct ids render to distinct strings |
| `JavaLang.LongHashCode` | src/main/java/local/demo/test/domain/Foo.java:109-111 | `Long.hashCode` lies in the `int` range and is the id itself for ids in 0..2^31-1 |
| `JavaLang.XorBitsZero` | src/main/java/local/demo/test/domain/Foo.java:109-111 | exclusive-or with a zero high half leaves the low half unchanged |
| `JavaLang.Pow2Of32` | src/main/java/local/demo/test/domain/Foo.java:109-111 | the `int` cast keeps 32 bits, so the modulus is 2^32 |
| `Http.HeaderValue` | src/main/webapp/scripts/components/interceptor/notification.interceptor.js:7-9 | a header name is read as absent exactly when no entry carries it; otherwise its value comes from an entry with that name |
| `HeaderUtil.CreateAlert` | src/main/java/local/demo/test/web/rest/util/HeaderUtil.java:11-16 | exactly two entries, `X-jhipstertestApp-alert` first and `X-jhipstertestApp-params` second; reading them gives the message and the parameter |
| `HeaderUtil.CreateEntityCreationAlert` | src/main/java/local/demo/test/web/rest/util/HeaderUtil.java:18-20 | the alert key is `"jhipstertestApp." + entity + ".created"`; a client decodes (entity, created, param) |
| `HeaderUtil.CreateEntityUpdateAlert` | src/main/java/local/demo/test/web/rest/util/HeaderUtil.java:22-24 | the alert key is `"jhipstertestApp." + entity + ".updated"`; a client decodes (entity, updated, param) |
| `HeaderUtil.CreateEntityDeletionAlert` | src/main/java/local/demo/test/web/rest/util/HeaderUtil.java:26-28 | the alert key is `"jhipstertestApp." + entity + ".deleted"`; a client decodes (entity, deleted, param) |
| `HeaderUtil.DecodeAlert` | src/main/java/local/demo/test/web/rest/util/HeaderUtil.java:18-28 | defined exactly when both alert headers are present and the key has the wrappers' form; a decoded alert is backed by an alert header holding its key and a params header holding its parameter |
| `Notification.NotifiedAlert` | src/main/webapp/scripts/components/interceptor/notification.interceptor.js:7-9 | the interceptor fires exactly when the alert header is present, with that key and the params header's value, which may be absent |
| `Notification.NotifiedAgreesWithDecode` | src/main/webapp/scripts/components/interceptor/notification.interceptor.js:7-9 | wherever an alert decodes, the interceptor fires with its key and its parameter |
| `Notification.NotifiedOnBuiltAlerts` | src/main/java/local/demo/test/web/rest/util/HeaderUtil.java:18-28 | on the header sets of the three wrappers the interceptor fires with the built key and the parameter |
| `HeaderUtil.AlertKeyRoundTrip` | src/main/java/local/demo/test/web/rest/util/HeaderUtil.java:18-28 | parsing a built alert key gives back the entity name and the action |
| `HeaderUtil.ParseAlertKeyExact` | src/main/java/local/demo/test/web/rest/util/HeaderUtil.java:18-28 | a key that parses is exactly the key built from what it parses to |
| `HeaderUtil.AlertKeyInjective` | src/main/java/local/demo/test/web/rest/util/HeaderUtil.java:18-28 | an alert key determines the entity name and the action |
| `HeaderUtil.AlertKeysDistinct` | src/main/java/local/demo/test/web/rest/util/HeaderUtil.java:18-28 | for one entity the created, updated and deleted keys are pairwise distinct |
| `HeaderUtil.Action.Suffix` | src/main/java/local/demo/test/web/rest/util/HeaderUtil.java:19-27 | each key suffix is a dot and seven lower-case letters |
| `Domain.Foo.constructor` | src/test/java/local/demo/test/web/rest/FooResourceTest.java:78 | a new Foo has every field null |
| `Domain.Foo.GetId` | src/main/java/local/demo/test/domain/Foo.java:52-54 | returns the id field of the current record |
| `Domain.Foo.GetName` | src/main/java/local/demo/test/domain/Foo.java:60-62 | returns the name field of the current record |
| `Domain.Foo.GetComment` | src/main/java/local/demo/test/domain/Foo.java:68-70 | returns the comment field of the current record |
| `Domain.Foo.GetDate` | src/main/java/local/demo/test/domain/Foo.java:76-78 | returns the date field of the current record |
| `Domain.Foo.GetBack` | src/main/java/local/demo/test/domain/Foo.java:84-86 | returns the back field of the current record |
| `Domain.Foo.Equals` | src/main/java/local/demo/test/domain/Foo.java:92-106 | true for the object itself; true only for a non-null Foo; for another Foo, true exactly when the ids are equal (two absent ids included, as `Objects.equals` compares) |
| `Domain.Foo.SetId` | src/main/java/local/demo/test/domain/Foo.java:56-58 | the getter returns the id set; no other field changes |
| `Domain.Foo.SetName` | src/main/java/local/demo/test/domain/Foo.java:64-66 | the getter returns the name set; no other field changes |
| `Domain.Foo.SetComment` | src/main/java/local/demo/test/domain/Foo.java:72-74 | the getter returns the comment set; no other field changes |
| `Domain.Foo.SetDate` | src/main/java/local/demo/test/domain/Foo.java:80-82 | the getter returns the date set; no other field changes |
| `Domain.Foo.SetBack` | src/main/java/local/demo/test/domain/Foo.java:88-90 | the getter returns the user set; no other field changes |
| `Domain.Foo.HashCode` | src/main/java/local/demo/test/domain/Foo.java:108-111 | an `int`, 0 for a null id, the id itself for small non-negative ids |
| `Domain.EqualsReflexive` | src/main/java/local/demo/test/domain/Foo.java:94-96 | every Foo equals itself |
| `Domain.NeverEqualsNull` | src/main/java/local/demo/test/domain/Foo.java:97-99 | no Foo equals null |
| `Domain.EqualsIffSameId` | src/main/java/local/demo/test/domain/Foo.java:101-105 | two Foos are equal exactly when their ids are null-safely equal, so two null ids are equal |
| `Domain.EqualsSymmetric` | src/main/java/local/demo/test/domain/Foo.java:103 | equality is symmetric |
| `Domain.EqualsTransitive` | src/main/java/local/demo/test/domain/Foo.java:103 | equality is transitive |
| `Domain.EqualsIgnoresOtherFields` | src/main/java/local/demo/test/domain/Foo.java:103 | Foos that differ only in name, comment, date or back are equal |
| `Domain.EqualsImpliesSameHashCode` | src/main/java/local/demo/test/domain/Foo.java:108-111 | equal Foos have equal hash codes |
| `Repository.Lookup` | src/main/java/local/demo/test/web/rest/FooResource.java:95 | a row is found exactly when the id is stored; the found row carries that id |
| `Repository.AfterSave` | src/main/java/local/demo/test/web/rest/FooResource.java:47 | a null id gets a fresh id and the table grows by one; a given id is kept and the table keeps its size exactly when the id was stored; the saved row keeps every other field; the table stays well formed |
| `Repository.AfterDelete` | src/main/java/local/demo/test/web/rest/FooResource.java:111 | only the id's key goes, with the other rows unchanged; the table shrinks by one exactly when the id was stored |
| `Repository.FooRepository.constructor` | src/test/java/local/demo/test/web/rest/FooResourceTest.java:58-59 | a new repository holds the empty, well-formed table |
| `Repository.FooRepository.Save` | src/main/java/local/demo/test/web/rest/FooResource.java:47 | the new table and the saved row are those of `AfterSave`; the passed Foo then holds the saved values, including a generated id |
| `Repository.FooRepository.FindOne` | src/main/java/local/demo/test/web/rest/FooResource.java:95 | returns `Lookup` of the current table |
| `Repository.FooRepository.Delete` | src/main/java/local/demo/test/web/rest/FooResource.java:111 | the new table is `AfterDelete` of the old one |
| `Repository.ListRows` | src/main/java/local/demo/test/web/rest/FooResource.java:81-83 | given rows stored under their own ids, yields one entry per row, each row exactly once, and nothing else |
| `Repository.ListsOneMore` | src/main/java/local/demo/test/web/rest/FooResource.java:81-83 | adding the row of one more key to an exact listing keeps it exact |
| `Repository.FooRepository.FindAll` | src/main/java/local/demo/test/web/rest/FooResource.java:81-83 | every stored row exactly once and nothing else |
| `Rest.RejectedResponse` | src/main/java/local/demo/test/web/rest/FooResource.java:45 | 400, a null body, the `Failure` header with its message, and no alert |
| `Rest.CreatedResponse` | src/main/java/local/demo/test/web/rest/FooResource.java:48-50 | 201 with the saved row as body; three headers, the first `Location: /api/foos/<id>` |
| `Rest.UpdatedResponse` | src/main/java/local/demo/test/web/rest/FooResource.java:66-68 | 200 with the saved row as body and the update alert for the given id |
| `Rest.FoundResponse` | src/main/java/local/demo/test/web/rest/FooResource.java:95-99 | 200 exactly when a row was found, otherwise 404; the body is the found row or none; no headers |
| `Rest.DeletedResponse` | src/main/java/local/demo/test/web/rest/FooResource.java:112 | 200, no body, and the deletion alert for the id |
| `Rest.CreatedResponseHeaders` | src/main/java/local/demo/test/web/rest/FooResource.java:48-49 | in a created response, `Location` reads `/api/foos/<id>` and the alert decodes as (foo, created, id) |
| `Rest.CreateStep` | src/main/java/local/demo/test/web/rest/FooResource.java:42-51 | a preset id gives 400 with the `Failure` header, a null body and an unchanged table. A null id gives 201; the body is the input with a fresh id, stored under that id; the table grows by one; `Location` is `/api/foos/<id>`; the creation alert carries the id |
| `Rest.UpdateStep` | src/main/java/local/demo/test/web/rest/FooResource.java:60-69 | a null id is exactly the create path. Otherwise 200, the update alert for the request's id, and the body stored under that id; the size is unchanged for a stored id |
| `Rest.GetStep` | src/main/java/local/demo/test/web/rest/FooResource.java:93-100 | 200 exactly when the id is stored, with the stored row; otherwise 404 and no body; no headers |
| `Rest.DeleteStep` | src/main/java/local/demo/test/web/rest/FooResource.java:109-113 | the new table is `AfterDelete` of the old, so the other rows keep their values; always 200 with the deletion alert for the id and no body. The key is gone and the table shrinks by one exactly when it was there; a later get is 404 |
| `Rest.CreateThenGet` | src/test/java/local/demo/test/web/rest/FooResourceTest.java:121-135 | after a create, the id read back from `Location` gets 200 with the created row |
| `Rest.UpdateThenGet` | src/test/java/local/demo/test/web/rest/FooResourceTest.java:164-170 | after an update, a get of that id shows the new name, comment and date |
| `Rest.CreateThenDelete` | src/test/java/local/demo/test/web/rest/FooResourceTest.java:186-188 | deleting the row just created restores the rows as they were |
| `Rest.CreatesHaveDistinctLocations` | src/main/java/local/demo/test/web/rest/FooResource.java:47-48 | two successive creates answer with different `Location` headers |
| `Rest.GetMissingOnFreshTable` | src/test/java/local/demo/test/web/rest/FooResourceTest.java:139-142 | on an empty table a get of `Long.MAX_VALUE` is 404 |
| `Rest.FooResource.constructor` | src/test/java/local/demo/test/web/rest/FooResourceTest.java:71-72 | the handler uses the repository it is given |
| `Rest.FooResource.Create` | src/main/java/local/demo/test/web/rest/FooResource.java:42-51 | new table and response are `CreateStep`'s; a rejected Foo is untouched; a created one holds the returned body, with its new id |
| `Rest.FooResource.Update` | src/main/java/local/demo/test/web/rest/FooResource.java:60-69 | new table and response are `UpdateStep`'s; a Foo with an id is untouched |
| `Rest.FooResource.GetAll` | src/main/java/local/demo/test/web/rest/FooResource.java:78-84 | 200 with every stored row exactly once |
| `Rest.FooResource.Get` | src/main/java/local/demo/test/web/rest/FooResource.java:93-100 | the response is `GetStep` of the current table; nothing is modified |
| `Rest.FooResource.Delete` | src/main/java/local/demo/test/web/rest/FooResource.java:109-113 | new table and response are `DeleteStep`'s |
| `RestScenarios.NewDefaultFoo` | src/test/java/local/demo/test/web/rest/FooResourceTest.java:76-82 | a fresh Foo with no id and the default name, comment and date |
| `RestScenarios.CreateFoo` | src/test/java/local/demo/test/web/rest/FooResourceTest.java:84-103 | 201, one more row, and the stored row has the default fields |
| `RestScenarios.GetFoo` | src/test/java/local/demo/test/web/rest/FooResourceTest.java:121-135 | after a save, get is 200 with the saved id and the default fields |
| `RestScenarios.GetNonExistingFoo` | src/test/java/local/demo/test/web/rest/FooResourceTest.java:137-143 | on a fresh repository, get of `Long.MAX_VALUE` is 404 with no body |
| `RestScenarios.GetAllFoos` | src/test/java/local/demo/test/web/rest/FooResourceTest.java:105-119 | after a save, the list is 200 and contains the saved row with the default fields |
| `RestScenarios.UpdateFoo` | src/test/java/local/demo/test/web/rest/FooResourceTest.java:145-171 | 200, the same number of rows, and the stored row has the updated name, comment and date |
| `RestScenarios.DeleteFoo` | src/test/java/local/demo/test/web/rest/FooResourceTest.java:173-189 | 200, one row fewer, and a later get is 404 |

## Left out

- Pagination: the page request built from `page`/`per_page` and the pagination headers come from a utility that is not part of this model, and the page type is a library type.
- Rest.FooResource.GetAll: returns all stored rows with 200 and no headers, rather than one page with pagination headers.
- Row order of `findAll` is chosen by the store. `IsListing` admits every order, so the tests' "last element is the new row" is not modelled.
- Dates are an opaque instant (`DateTime`). Time zones, the custom JSON (de)serializers and the ISO-8601 wire form are not modelled.
- The User entity behind `back` is not part of this model. `back` is an opaque optional reference (`UserRef`).
- JSON mapping of request and response bodies is not modelled, nor its round trip. A body is the Foo's field values (`FooRecord`). Object identity is not modelled: neither for the deserialized request entity nor for the managed copy a merge returns.
- Spring MVC routing, annotations, `@Timed` metrics, slf4j logging and `Foo.toString` (used only for logging) are framework or diagnostic concerns.
- Hibernate caching, transactions and the id-generation strategy are handled by the store. Id freshness comes from the abstract counter.
- Repository.AfterSave: a `save` of a Foo whose id is not stored inserts it under that id, as the upsert contract says. A store might instead generate a new id for it.
- Repository.AfterDelete: deleting a missing id is a no-op. A store may instead raise an error, and the framework's error response for that is not modelled.
- Repository.AfterSave: `save` of a Foo without an id requires the counter to have a `long` left (`HasFreshId`); running out of ids is not modelled.
- Other failures are not modelled: a store that is unavailable, and `URISyntaxException` from building the `Location` URI.
- Concurrency: concurrent saves on one id race in the store, last writer wins. The handler has no coordination to model.
- Domain.Foo.Equals: the `getClass()` test tells apart only Foo and non-Foo objects. Subclasses of Foo, such as ORM proxies, do not exist in the model.
- A header name given twice is read by its first value. Joining of repeated headers by the client is not modelled.
- Http.HeaderValue: header names are matched case-sensitively, whereas Spring and the web client ignore case; for the fixed names used here this makes no difference.
- JavaLang.ParseLong: only ASCII digits with an optional sign are read. Java also accepts other Unicode decimal digits, and the framework's conversion of the `{id}` path variable may trim whitespace or accept other radixes; those inputs are not modelled.
- The web client's `AlertService` is foreign. The notification interceptor is modelled only as deciding whether it fires and with which key and parameter (`NotifiedAlert`). The password service, a bare endpoint declaration, is not modelled.
