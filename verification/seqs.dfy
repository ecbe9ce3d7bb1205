/** Sequence helpers shared by both scripts. */
module Seqs {

  /**
   * The list both scripts build with a "start empty, append one transformed
   * item per input item" loop: one entry per input, in order. The loop itself
   * is `AppendEach`, and `AppendLoopBuildsMap` shows it yields this list.
   */
  function MapAppend<A, B>(f: A -> B, xs: seq<A>): (r: seq<B>)
    ensures |r| == |xs|
    ensures forall i :: 0 <= i < |xs| ==> r[i] == f(xs[i])
  {
    seq(|xs|, i requires 0 <= i < |xs| => f(xs[i]))
  }

  /** The loop state after `acc` has been built and `rest` is still to be visited. */
  function AppendEach<A, B>(f: A -> B, acc: seq<B>, rest: seq<A>): (r: seq<B>)
    ensures |r| == |acc| + |rest|
    ensures r[..|acc|] == acc
    ensures forall i :: 0 <= i < |rest| ==> r[|acc| + i] == f(rest[i])
    decreases |rest|
  {
    if rest == [] then acc
    else
      var r := AppendEach(f, acc + [f(rest[0])], rest[1..]);
      assert forall i :: 1 <= i < |rest| ==> r[|acc| + i] == f(rest[i]) by {
        forall i | 1 <= i < |rest|
          ensures r[|acc| + i] == f(rest[i])
        {
          assert r[|acc + [f(rest[0])]| + (i - 1)] == f(rest[1..][i - 1]);
        }
      }
      assert r[|acc|] == (r[..|acc| + 1])[|acc|];
      r
  }

  /** Running the append loop from an empty list builds the mapped list. */
  lemma AppendLoopBuildsMap<A, B>(f: A -> B, xs: seq<A>)
    ensures AppendEach(f, [], xs) == MapAppend(f, xs)
  {
  }

  lemma MapAppendPrefix<A, B>(f: A -> B, xs: seq<A>, n: nat)
    requires n <= |xs|
    ensures MapAppend(f, xs[..n]) == MapAppend(f, xs)[..n]
  {
  }

  lemma MapAppendConcat<A, B>(f: A -> B, xs: seq<A>, ys: seq<A>)
    ensures MapAppend(f, xs + ys) == MapAppend(f, xs) + MapAppend(f, ys)
  {
    var l, mx, my := MapAppend(f, xs + ys), MapAppend(f, xs), MapAppend(f, ys);
    assert |l| == |mx + my|;
    forall i | 0 <= i < |l|
      ensures l[i] == (mx + my)[i]
    {
      if i < |xs| {
        calc {
          l[i];
          f((xs + ys)[i]);
          f(xs[i]);
          mx[i];
        }
      } else {
        calc {
          l[i];
          f((xs + ys)[i]);
          f(ys[i - |xs|]);
          my[i - |xs|];
        }
      }
    }
  }

  /** True when every element of `s` already occurs in `base`. */
  ghost predicate DrawnFrom<T>(s: seq<T>, base: seq<T>)
  {
    forall x :: x in s ==> x in base
  }
}
