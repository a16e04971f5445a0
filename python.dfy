/**
 * The slice of Python's object model that the handler code relies on:
 * the values `json.loads` produces, the exceptions raised by subscripting
 * and iterating them, and list comprehensions that stop at the first
 * exception.
 */
module Python {

  datatype Option<T> = None | Some(value: T)

  /** The exceptions the modelled code can raise. */
  datatype Error =
    | KeyError(key: string)  // `d[k]` on a dict without key `k`
    | TypeError              // subscripting or iterating a value of the wrong type
    | ClientError            // raised by a collaborator: storage, search cluster

  /** A computation that returns a value or raises. */
  datatype Result<T> = Ok(value: T) | Err(error: Error) {
    predicate IsFailure() { Err? }

    function PropagateFailure<U>(): Result<U>
      requires Err?
    {
      Err(error)
    }

    function Extract(): T
      requires Ok?
    {
      value
    }
  }

  /** A computation run for its effect only: it completes or raises. */
  datatype Outcome = Pass | Fail(error: Error)

  /** A value as decoded from JSON: None, bool, int, float, str, list or dict. */
  datatype Value =
    | PyNone
    | PyBool(b: bool)
    | PyInt(i: int)
    | PyFloat(f: real)
    | PyStr(s: string)
    | PyList(items: seq<Value>)
    | PyDict(entries: map<string, Value>)

  /**
   * `v[key]` with a string key: a dict yields the entry or raises KeyError;
   * every other kind of value raises TypeError (a list wants an integer
   * index, a str wants an integer index, the rest are not subscriptable).
   */
  function Subscript(v: Value, key: string): Result<Value> {
    match v
    case PyDict(entries) => if key in entries then Ok(entries[key]) else Err(KeyError(key))
    case _ => Err(TypeError)
  }

  /** True when `v[key]` returns instead of raising. */
  predicate HasKey(v: Value, key: string) {
    v.PyDict? && key in v.entries
  }

  /**
   * `[f(x) for x in xs]`: the elements are computed left to right and the
   * first exception escapes, so no partial list is ever returned.
   */
  function Traverse<A, B>(xs: seq<A>, f: A -> Result<B>): (r: Result<seq<B>>)
    ensures r.Ok? ==> |r.value| == |xs|
  {
    if xs == [] then Ok([])
    else
      var init :- Traverse(xs[..|xs| - 1], f);
      var last :- f(xs[|xs| - 1]);
      Ok(init + [last])
  }

  /**
   * A comprehension succeeds exactly when every element does, and then holds
   * the elements' results in order; when it fails, the error is that of the
   * first element that failed.
   */
  lemma {:induction false} TraverseSpec<A, B>(xs: seq<A>, f: A -> Result<B>)
    ensures Traverse(xs, f).Ok? <==> forall i :: 0 <= i < |xs| ==> f(xs[i]).Ok?
    ensures Traverse(xs, f).Ok? ==>
              forall i :: 0 <= i < |xs| ==> Traverse(xs, f).value[i] == f(xs[i]).value
    ensures Traverse(xs, f).Err? ==>
              exists i :: 0 <= i < |xs| && f(xs[i]) == Err(Traverse(xs, f).error) &&
                          forall j :: 0 <= j < i ==> f(xs[j]).Ok?
  {
    if xs != [] {
      var init := xs[..|xs| - 1];
      TraverseSpec(init, f);
      assert forall i :: 0 <= i < |init| ==> init[i] == xs[i];
      var last := |xs| - 1;
      if Traverse(init, f).Err? {
        var i :| 0 <= i < |init| && f(init[i]) == Err(Traverse(init, f).error) &&
                 forall j :: 0 <= j < i ==> f(init[j]).Ok?;
        assert f(xs[i]) == Err(Traverse(xs, f).error);
      } else if f(xs[last]).Err? {
        assert forall j :: 0 <= j < last ==> f(xs[j]).Ok?;
      }
    }
  }

  /** Running a comprehension on a slice of a list gives the slice of its result. */
  lemma TraverseSlice<A, B>(xs: seq<A>, f: A -> Result<B>, lo: nat, hi: nat)
    requires lo <= hi <= |xs|
    requires Traverse(xs, f).Ok?
    ensures Traverse(xs[lo..hi], f) == Ok(Traverse(xs, f).value[lo..hi])
  {
    TraverseSpec(xs, f);
    TraverseSpec(xs[lo..hi], f);
    assert Traverse(xs[lo..hi], f).value == Traverse(xs, f).value[lo..hi];
  }

  /**
   * A comprehension over `a + b` fails with the first failure in `a`, else
   * with the first failure in `b`, else joins the two results.
   */
  lemma {:induction false} TraverseAppend<A, B>(a: seq<A>, b: seq<A>, f: A -> Result<B>)
    ensures Traverse(a + b, f) ==
              match Traverse(a, f)
              case Err(e) => Err(e)
              case Ok(x) =>
                match Traverse(b, f)
                case Err(e) => Err(e)
                case Ok(y) => Ok(x + y)
  {
    if b == [] {
      assert a + b == a;
      if Traverse(a, f).Ok? {
        assert Traverse(a, f).value + [] == Traverse(a, f).value;
      }
    } else {
      var init := b[..|b| - 1];
      TraverseAppend(a, init, f);
      assert (a + b)[..|a + b| - 1] == a + init;
      assert (a + b)[|a + b| - 1] == b[|b| - 1];
      if Traverse(a, f).Ok? && Traverse(init, f).Ok? && f(b[|b| - 1]).Ok? {
        assert Traverse(a, f).value + Traverse(init, f).value + [f(b[|b| - 1]).value] ==
               Traverse(a, f).value + (Traverse(init, f).value + [f(b[|b| - 1]).value]);
      }
    }
  }

  /** A comprehension whose element `j` is the first to raise raises that exception. */
  lemma TraverseStopsAt<A, B>(xs: seq<A>, f: A -> Result<B>, j: nat)
    requires j < |xs|
    requires Traverse(xs[..j], f).Ok?
    requires f(xs[j]).Err?
    ensures Traverse(xs, f) == Err(f(xs[j]).error)
  {
    var head := xs[..j + 1];
    assert head[..|head| - 1] == xs[..j];
    assert head[|head| - 1] == xs[j];
    assert Traverse(head, f) == Err(f(xs[j]).error);
    TraverseAppend(head, xs[j + 1..], f);
    assert head + xs[j + 1..] == xs;
  }
}
