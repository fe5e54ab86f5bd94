/**
 * The array operations the page handlers chain together: `filter` and
 * `flat`. (`map` is a sequence comprehension where it is used, and
 * `Promise.all` over a `map` is that same order-preserving map.)
 */
module JsArray {

  /** `xs.filter(keep)`: the elements that satisfy `keep`, in their order. */
  function Filter<T>(xs: seq<T>, keep: T -> bool): (r: seq<T>)
    ensures |r| <= |xs|
    ensures forall i :: 0 <= i < |r| ==> keep(r[i])
    ensures forall i :: 0 <= i < |r| ==> r[i] in xs
    ensures forall i :: 0 <= i < |xs| && keep(xs[i]) ==> xs[i] in r
    decreases |xs|
  {
    if xs == [] then []
    else (if keep(xs[0]) then [xs[0]] else []) + Filter(xs[1..], keep)
  }

  /** Filtering distributes over concatenation; together with the one-element
      case this pins `Filter` down as "keep in order". */
  lemma {:induction false} FilterAppend<T>(a: seq<T>, b: seq<T>, keep: T -> bool)
    ensures Filter(a + b, keep) == Filter(a, keep) + Filter(b, keep)
    decreases |a|
  {
    if a == [] {
      assert a + b == b;
    } else {
      var head := if keep(a[0]) then [a[0]] else [];
      assert (a + b)[0] == a[0] && (a + b)[1..] == a[1..] + b;
      assert Filter(a + b, keep) == head + Filter(a[1..] + b, keep);
      FilterAppend(a[1..], b, keep);
      assert head + (Filter(a[1..], keep) + Filter(b, keep))
          == (head + Filter(a[1..], keep)) + Filter(b, keep);
    }
  }

  /** Filtering keeps everything exactly when every element satisfies `keep`. */
  lemma {:induction false} FilterKeepsAll<T>(xs: seq<T>, keep: T -> bool)
    ensures Filter(xs, keep) == xs <==> forall i :: 0 <= i < |xs| ==> keep(xs[i])
    decreases |xs|
  {
    if xs != [] {
      FilterKeepsAll(xs[1..], keep);
      if !keep(xs[0]) {
        assert |Filter(xs, keep)| < |xs|;
      } else {
        assert forall i :: 1 <= i < |xs| ==> xs[i] == xs[1..][i - 1];
      }
    }
  }

  /** Sum of the lengths of the inner sequences. */
  function TotalLength<T>(xss: seq<seq<T>>): nat
  {
    if xss == [] then 0 else |xss[0]| + TotalLength(xss[1..])
  }

  /** `xss.flat()`: the inner sequences one after the other. */
  function Flat<T>(xss: seq<seq<T>>): (r: seq<T>)
    ensures |r| == TotalLength(xss)
    decreases |xss|
  {
    if xss == [] then [] else xss[0] + Flat(xss[1..])
  }

  /** Flattening one sequence gives it back. */
  lemma FlatOne<T>(xs: seq<T>)
    ensures Flat([xs]) == xs
  {
    assert [xs][1..] == [];
  }

  /** Flattening distributes over concatenation; with `FlatOne` this pins
      `Flat` down as "concatenate in order". */
  lemma {:induction false} FlatAppend<T>(a: seq<seq<T>>, b: seq<seq<T>>)
    ensures Flat(a + b) == Flat(a) + Flat(b)
    decreases |a|
  {
    if a == [] {
      assert a + b == b;
    } else {
      assert (a + b)[0] == a[0] && (a + b)[1..] == a[1..] + b;
      assert Flat(a + b) == a[0] + Flat(a[1..] + b);
      FlatAppend(a[1..], b);
      assert a[0] + (Flat(a[1..]) + Flat(b)) == (a[0] + Flat(a[1..])) + Flat(b);
    }
  }
}
