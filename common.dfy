/** Shared vocabulary of the backend model: optional values, the ways an endpoint
    can fail, and the list operations Python's comprehensions and `str.join` perform. */
module Common {

  datatype Option<T> = None | Some(value: T)

  /** How a request handler ends without a value. */
  datatype Failure =
    /** An `HTTPException` raised on purpose, with its status code and detail text. */
    | HttpFailure(status: nat, detail: string)
    /** `.get` called on a value that is not a dict (an `AttributeError`, which
        the web framework answers with status 500). */
    | NotAMapping

  datatype Result<T> = Ok(value: T) | Err(failure: Failure)

  /** The elements of `s` that satisfy `p`, in their order in `s`
      (a list comprehension with an `if`, or a query filter). */
  function Filter<T>(p: T -> bool, s: seq<T>): (r: seq<T>)
    ensures |r| <= |s|
    ensures forall x :: x in r ==> x in s && p(x)
    ensures forall x :: x in s && p(x) ==> x in r
  {
    if |s| == 0 then []
    else Filter(p, s[..|s| - 1]) + (if p(s[|s| - 1]) then [s[|s| - 1]] else [])
  }

  /** Filtering distributes over concatenation: together with the one-element
      case this pins Filter down as "keep, in order". */
  lemma {:induction false} FilterAppend<T>(p: T -> bool, a: seq<T>, b: seq<T>)
    ensures Filter(p, a + b) == Filter(p, a) + Filter(p, b)
  {
    if |b| == 0 {
      assert a + b == a;
    } else {
      assert (a + b)[..|a + b| - 1] == a + b[..|b| - 1];
      assert (a + b)[|a + b| - 1] == b[|b| - 1];
      FilterAppend(p, a, b[..|b| - 1]);
    }
  }

  lemma FilterSingleton<T>(p: T -> bool, x: T)
    ensures Filter(p, [x]) == if p(x) then [x] else []
  {
    assert [x][..0] == [];
  }

  /** Nothing is kept when nothing satisfies `p`. */
  lemma {:induction false} FilterNone<T>(p: T -> bool, s: seq<T>)
    requires forall i :: 0 <= i < |s| ==> !p(s[i])
    ensures Filter(p, s) == []
  {
    if |s| > 0 {
      FilterNone(p, s[..|s| - 1]);
    }
  }

  /** `sum(1 for x in s if p(x))`. */
  function Count<T>(p: T -> bool, s: seq<T>): (n: nat)
    ensures n <= |s|
  {
    if |s| == 0 then 0
    else Count(p, s[..|s| - 1]) + (if p(s[|s| - 1]) then 1 else 0)
  }

  lemma {:induction false} CountIsFilterLength<T>(p: T -> bool, s: seq<T>)
    ensures Count(p, s) == |Filter(p, s)|
  {
    if |s| > 0 {
      CountIsFilterLength(p, s[..|s| - 1]);
    }
  }

  /** Two counts of mutually exclusive properties, both of which imply a third,
      add up to at most the count of the third. */
  lemma {:induction false} CountDisjointBound<T>(p: T -> bool, q: T -> bool, both: T -> bool, s: seq<T>)
    requires forall x :: p(x) ==> !q(x)
    requires forall x :: p(x) ==> both(x)
    requires forall x :: q(x) ==> both(x)
    ensures Count(p, s) + Count(q, s) <= Count(both, s)
  {
    if |s| > 0 {
      CountDisjointBound(p, q, both, s[..|s| - 1]);
    }
  }

  /** `sep.join(parts)`. */
  function Join(sep: string, parts: seq<string>): string
  {
    if |parts| == 0 then ""
    else if |parts| == 1 then parts[0]
    else Join(sep, parts[..|parts| - 1]) + sep + parts[|parts| - 1]
  }

  /** The joined text of a non-empty list begins with its first part. */
  lemma {:induction false} JoinStartsWithFirst(sep: string, parts: seq<string>)
    requires |parts| > 0
    ensures parts[0] <= Join(sep, parts)
  {
    if |parts| > 1 {
      JoinStartsWithFirst(sep, parts[..|parts| - 1]);
    }
  }

  /** Joining two non-empty lists is joining each and putting one separator between. */
  lemma {:induction false} JoinAppend(sep: string, xs: seq<string>, ys: seq<string>)
    requires |xs| > 0 && |ys| > 0
    ensures Join(sep, xs + ys) == Join(sep, xs) + sep + Join(sep, ys)
  {
    var zs := xs + ys;
    if |ys| == 1 {
      assert zs[..|zs| - 1] == xs;
    } else {
      assert zs[..|zs| - 1] == xs + ys[..|ys| - 1];
      JoinAppend(sep, xs, ys[..|ys| - 1]);
    }
  }
}
