/** Shared vocabulary of the CRM service: optional values, the HTTP errors
    the handlers raise, and the order-preserving filter that both the
    purchases comprehension and the service-record listing perform. */
module Common {

  datatype Option<T> = None | Some(value: T)

  /** An HTTPException: a status code and its short detail message. */
  datatype HttpError = HttpError(statusCode: nat, detail: string)

  /** A handler either answers with a value or raises an HTTPException. */
  datatype Result<T> = Ok(value: T) | Err(error: HttpError)

  /** Python truthiness of an optional string parameter: None and "" are
      both falsy, so a filter or an e-mail given as "" counts as absent. */
  predicate Supplied(s: Option<string>)
    ensures s == None ==> !Supplied(s)
    ensures s == Some("") ==> !Supplied(s)
    ensures Supplied(s) ==> |s.value| >= 1
  {
    s.Some? && s.value != ""
  }

  /** The elements of `s` that satisfy `p`, in their order in `s`
      (a list comprehension with an `if`, or a loop that appends). */
  function Filter<T(!new)>(s: seq<T>, p: T -> bool): (r: seq<T>)
    ensures |r| <= |s|
    ensures forall x :: x in r <==> x in s && p(x)
  {
    if s == [] then []
    else
      var init := Filter(s[..|s| - 1], p);
      assert forall x :: x in s <==> x in s[..|s| - 1] || x == s[|s| - 1] by {
        assert s == s[..|s| - 1] + [s[|s| - 1]];
      }
      init + (if p(s[|s| - 1]) then [s[|s| - 1]] else [])
  }

  /** Filtering distributes over concatenation: the filter keeps the
      relative order of the elements it retains. */
  lemma {:induction false} FilterConcat<T(!new)>(a: seq<T>, b: seq<T>, p: T -> bool)
    ensures Filter(a + b, p) == Filter(a, p) + Filter(b, p)
  {
    if b == [] {
      assert a + b == a;
    } else {
      var b', x := b[..|b| - 1], b[|b| - 1];
      var kept := if p(x) then [x] else [];
      calc {
        Filter(a + b, p);
        { assert a + b == (a + b') + [x]; FilterSnoc(a + b', x, p); }
        Filter(a + b', p) + kept;
        { FilterConcat(a, b', p); }
        Filter(a, p) + Filter(b', p) + kept;
        { assert b == b' + [x]; FilterSnoc(b', x, p); }
        Filter(a, p) + Filter(b, p);
      }
    }
  }

  /** One step of a left-to-right filtering loop. */
  lemma FilterSnoc<T(!new)>(s: seq<T>, x: T, p: T -> bool)
    ensures Filter(s + [x], p) == Filter(s, p) + (if p(x) then [x] else [])
  {
    assert (s + [x])[..|s + [x]| - 1] == s;
  }

  /** A filter that every element passes returns the sequence unchanged. */
  lemma {:induction false} FilterAll<T(!new)>(s: seq<T>, p: T -> bool)
    requires forall x :: x in s ==> p(x)
    ensures Filter(s, p) == s
  {
    if s != [] {
      var init, last := s[..|s| - 1], s[|s| - 1];
      assert s == init + [last];
      forall x | x in init
        ensures p(x)
      {
        assert x in s;
      }
      FilterAll(init, p);
      FilterSnoc(init, last, p);
    }
  }

  /** No two positions of `s` hold the same element. */
  ghost predicate Distinct<T>(s: seq<T>)
  {
    forall i, j :: 0 <= i < j < |s| ==> s[i] != s[j]
  }

  /** A duplicate-free sequence has as many elements as its set. */
  lemma {:induction false} DistinctCardinality<T>(s: seq<T>)
    requires Distinct(s)
    ensures |set x | x in s| == |s|
  {
    if s != [] {
      var init := s[..|s| - 1];
      var last := s[|s| - 1];
      assert Distinct(init);
      DistinctCardinality(init);
      assert (set x | x in s) == (set x | x in init) + {last} by {
        assert s == init + [last];
      }
      assert last !in (set x | x in init);
    }
  }
}
