/** Option and Result: a missing value, and a value or an error message from a step that can fail. */
module Wrappers {

  datatype Option<+T> = None | Some(value: T)

  /** The outcome of a step that can throw: either a value or the thrown error's message. */
  datatype Result<+T> = Ok(value: T) | Err(message: string)

  /**
   * Run a step that can throw on every element, in order, as an `await` loop does: the values
   * when all succeed, else the first error.
   */
  function Traverse<A, B>(xs: seq<A>, f: A -> Result<B>): (r: Result<seq<B>>)
    ensures r.Ok? ==> |r.value| == |xs|
  {
    if xs == [] then Ok([])
    else match f(xs[0])
      case Err(m) => Err(m)
      case Ok(b) =>
        match Traverse(xs[1..], f)
        case Err(m) => Err(m)
        case Ok(rest) => Ok([b] + rest)
  }

  /**
   * Traverse succeeds exactly when every step does, and then holds every step's value in order;
   * otherwise its error is that of the first step that fails.
   */
  lemma {:induction false} TraverseMeaning<A, B>(xs: seq<A>, f: A -> Result<B>)
    ensures Traverse(xs, f).Ok? <==> forall i :: 0 <= i < |xs| ==> f(xs[i]).Ok?
    ensures Traverse(xs, f).Ok? ==>
              |Traverse(xs, f).value| == |xs| &&
              forall i :: 0 <= i < |xs| ==> Traverse(xs, f).value[i] == f(xs[i]).value
    ensures Traverse(xs, f).Err? ==>
              exists j :: 0 <= j < |xs| && f(xs[j]).Err? &&
                (forall i :: 0 <= i < j ==> f(xs[i]).Ok?) &&
                Traverse(xs, f).message == f(xs[j]).message
  {
    if xs != [] {
      TraverseMeaning(xs[1..], f);
      if f(xs[0]).Ok? && Traverse(xs, f).Err? {
        var j :| 0 <= j < |xs[1..]| && f(xs[1..][j]).Err? &&
                (forall i :: 0 <= i < j ==> f(xs[1..][i]).Ok?) &&
                Traverse(xs[1..], f).message == f(xs[1..][j]).message;
        assert f(xs[j + 1]).Err?;
        forall i | 0 <= i < j + 1 ensures f(xs[i]).Ok? {
          if i > 0 { assert xs[i] == xs[1..][i - 1]; }
        }
      }
      if Traverse(xs, f).Ok? {
        forall i | 0 <= i < |xs| ensures f(xs[i]).Ok? {
          if i > 0 { assert xs[i] == xs[1..][i - 1]; }
        }
      }
    }
  }

  /** Extending a successful traversal by one more successful step appends that step's value. */
  lemma {:induction false} TraverseSnoc<A, B>(xs: seq<A>, x: A, f: A -> Result<B>)
    requires Traverse(xs, f).Ok? && f(x).Ok?
    ensures Traverse(xs + [x], f) == Ok(Traverse(xs, f).value + [f(x).value])
  {
    if xs == [] {
      assert xs + [x] == [x];
      assert [x][0] == x && [x][1..] == [];
      assert Traverse([x][1..], f) == Ok([]);
      assert [f(x).value] + [] == [] + [f(x).value];
    } else {
      assert (xs + [x])[0] == xs[0];
      assert (xs + [x])[1..] == xs[1..] + [x];
      TraverseSnoc(xs[1..], x, f);
      var head, rest := f(xs[0]).value, Traverse(xs[1..], f).value;
      assert Traverse(xs, f).value == [head] + rest;
      assert [head] + (rest + [f(x).value]) == ([head] + rest) + [f(x).value];
    }
  }

  /** When every step before `i` succeeds and step `i` fails, the traversal fails with its error. */
  lemma {:induction false} TraverseStopsAt<A, B>(xs: seq<A>, f: A -> Result<B>, i: nat)
    requires i < |xs| && Traverse(xs[..i], f).Ok? && f(xs[i]).Err?
    ensures Traverse(xs, f) == Err(f(xs[i]).message)
  {
    if i > 0 {
      assert xs[..i][0] == xs[0];
      assert xs[..i][1..] == xs[1..][..i - 1];
      TraverseStopsAt(xs[1..], f, i - 1);
    }
  }

  lemma PrefixSnoc<T>(s: seq<T>, i: nat)
    requires i < |s|
    ensures s[..i + 1] == s[..i] + [s[i]]
  {
  }
}
