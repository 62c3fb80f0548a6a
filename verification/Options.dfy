/** What the services share: optional values, results or error codes, blank texts. */
module Options {

  datatype Option<+T> = None | Some(value: T)

  datatype Result<+T> = Ok(value: T) | Err(code: string)

  // Identifiers are UUIDs in the services; here they are only compared for equality.
  type Uuid = nat

  function Pick<T>(o: Option<T>, current: T): T { if o.Some? then o.value else current }

  const SPACES := [' ', '\t', '\n', '\r']

  // Nothing is left of the text when it is stripped.
  predicate Blank(s: string) { forall c | c in s :: c in SPACES }

  lemma SubsetSize<T>(a: set<T>, b: set<T>)
    requires a <= b
    ensures |a| <= |b|
  {
    assert b == a + (b - a);
  }

  // Sequences with the same elements are empty together.
  lemma SameEmpty<T>(s: seq<T>, t: seq<T>)
    requires forall x :: x in s <==> x in t
    ensures s == [] <==> t == []
  {
    if s != [] {
      assert s[0] in t;
    }
    if t != [] {
      assert t[0] in s;
    }
  }
}
