/**
 * The HTTP vocabulary of a response: the status codes the handler uses, a
 * header list in insertion order, and the response entity (status, headers,
 * optional body).
 */
module Http {
  import opened Wrappers

  const OK: int := 200
  const CREATED: int := 201
  const BAD_REQUEST: int := 400
  const NOT_FOUND: int := 404

  /** Response headers as (name, value) entries, in the order they were added. */
  type Headers = seq<(string, string)>

  /** A response entity; `body == None` is an empty (null) body. */
  datatype Response<B> = Response(status: int, headers: Headers, body: Option<B>)

  /** The first value given for header `name`, as a client reads it. */
  function HeaderValue(h: Headers, name: string): (r: Option<string>)
    ensures r.None? <==> forall i :: 0 <= i < |h| ==> h[i].0 != name
    ensures r.Some? ==> exists i :: 0 <= i < |h| && h[i] == (name, r.value)
  {
    if h == [] then None
    else if h[0].0 == name then Some(h[0].1)
    else
      var r := HeaderValue(h[1..], name);
      assert r.Some? ==> h[1..][0].0 == name || exists i :: 1 <= i < |h| && h[i] == (name, r.value);
      r
  }

  /** A header that some entry of `front` carries is read from `front`, whatever follows. */
  lemma {:induction false} HeaderValueAppend(front: Headers, back: Headers, name: string)
    requires HeaderValue(front, name).Some?
    ensures HeaderValue(front + back, name) == HeaderValue(front, name)
  {
    if front[0].0 != name {
      assert (front + back)[1..] == front[1..] + back;
      HeaderValueAppend(front[1..], back, name);
    }
  }

  /** A header that no entry of `front` carries is read from `back`. */
  lemma {:induction false} HeaderValueSkip(front: Headers, back: Headers, name: string)
    requires HeaderValue(front, name).None?
    ensures HeaderValue(front + back, name) == HeaderValue(back, name)
  {
    if front != [] {
      assert (front + back)[1..] == front[1..] + back;
      HeaderValueSkip(front[1..], back, name);
    } else {
      assert front + back == back;
    }
  }
}
