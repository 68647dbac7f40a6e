/**
 * The Foo entity: an identity, two texts, a timestamp and a one-to-one
 * reference to a User. Equality and hashing follow the identity alone.
 */
module Domain {
  import opened Wrappers
  import opened JavaLang

  /** A Joda `DateTime`, kept as an opaque instant; zones and formatting are not modelled. */
  datatype DateTime = DateTime(instant: int)

  /** A reference to a User row; the User entity itself is not part of this model. */
  datatype UserRef = UserRef(key: int)

  /**
   * The field values of a Foo: one row of table FOO, and what a response body
   * carries. `None` stands for a null field.
   */
  datatype FooRecord = FooRecord(
    id: Option<Long>,
    name: Option<string>,
    comment: Option<string>,
    date: Option<DateTime>,
    back: Option<UserRef>)

  const BLANK: FooRecord := FooRecord(None, None, None, None, None)

  class Foo {
    var id: Option<Long>
    var name: Option<string>
    var comment: Option<string>
    var date: Option<DateTime>
    var back: Option<UserRef>

    /** `new Foo()`: every field null. */
    constructor ()
      ensures Record() == BLANK
    {
      id, name, comment, date, back := None, None, None, None, None;
    }

    /** The current field values. */
    function Record(): FooRecord
      reads this
    {
      FooRecord(id, name, comment, date, back)
    }

    function GetId(): (r: Option<Long>) reads this ensures r == Record().id { id }
    function GetName(): (r: Option<string>) reads this ensures r == Record().name { name }
    function GetComment(): (r: Option<string>) reads this ensures r == Record().comment { comment }
    function GetDate(): (r: Option<DateTime>) reads this ensures r == Record().date { date }
    function GetBack(): (r: Option<UserRef>) reads this ensures r == Record().back { back }

    method SetId(id: Option<Long>)
      modifies this
      ensures GetId() == id
      ensures Record() == old(Record()).(id := id)
    {
      this.id := id;
    }

    method SetName(name: Option<string>)
      modifies this
      ensures GetName() == name
      ensures Record() == old(Record()).(name := name)
    {
      this.name := name;
    }

    method SetComment(comment: Option<string>)
      modifies this
      ensures GetComment() == comment
      ensures Record() == old(Record()).(comment := comment)
    {
      this.comment := comment;
    }

    method SetDate(date: Option<DateTime>)
      modifies this
      ensures GetDate() == date
      ensures Record() == old(Record()).(date := date)
    {
      this.date := date;
    }

    method SetBack(user: Option<UserRef>)
      modifies this
      ensures GetBack() == user
      ensures Record() == old(Record()).(back := user)
    {
      this.back := user;
    }

    /**
     * `equals(o)`: the same object, or another Foo whose id is equal
     * (null-safely, as `Objects.equals` compares).
     */
    predicate Equals(o: object?): (r: bool)
      reads this, o
      ensures this == o ==> r
      ensures r ==> o != null && o is Foo
      ensures r && this != o ==> Record().id == (o as Foo).Record().id
      ensures o != null && o is Foo && Record().id == (o as Foo).Record().id ==> r
    {
      if this == o then true
      else if o == null || !(o is Foo) then false
      else id == (o as Foo).id
    }

    /** `hashCode()`: `Objects.hashCode(id)`, which is 0 for a null id. */
    function HashCode(): (h: int)
      reads this
      ensures INT_MIN <= h <= INT_MAX
      ensures id == None ==> h == 0
      ensures id.Some? && 0 <= id.value as int <= INT_MAX ==> h == id.value as int
    {
      match id
      case None => 0
      case Some(v) => LongHashCode(v)
    }
  }

  lemma EqualsReflexive(a: Foo)
    ensures a.Equals(a)
  {
  }

  lemma NeverEqualsNull(a: Foo)
    ensures !a.Equals(null)
  {
  }

  /** Two Foos are equal exactly when their ids are; in particular two with a null id are. */
  lemma EqualsIffSameId(a: Foo, b: Foo)
    ensures a.Equals(b) <==> a.GetId() == b.GetId()
  {
  }

  lemma EqualsSymmetric(a: Foo, b: Foo)
    ensures a.Equals(b) <==> b.Equals(a)
  {
  }

  lemma EqualsTransitive(a: Foo, b: Foo, c: Foo)
    requires a.Equals(b) && b.Equals(c)
    ensures a.Equals(c)
  {
  }

  /** Equality ignores name, comment, date and back: Foos whose ids agree are equal. */
  lemma EqualsIgnoresOtherFields(a: Foo, b: Foo)
    requires a.Record() == b.Record().(name := a.GetName(), comment := a.GetComment(),
                                       date := a.GetDate(), back := a.GetBack())
    ensures a.Equals(b)
  {
  }

  /** Equal Foos have equal hash codes. */
  lemma EqualsImpliesSameHashCode(a: Foo, b: Foo)
    requires a.Equals(b)
    ensures a.HashCode() == b.HashCode()
  {
  }
}
