/**
 * The resize ("resample") step both scripts share, and the shuffle that
 * generate_data.py applies after it. Random draws come from oracle functions.
 */
module Resample {
  import opened Wrappers
  import opened Types
  import Seqs

  /**
   * The list after `count` rounds of `file_listing.append(random.choice(file_listing))`.
   * The entry appended when the list has length `i` is the one at index
   * `draws(i) % i` of the list as it stands then, so picks may repeat earlier picks.
   */
  function Grow<T>(cur: seq<T>, count: nat, draws: nat -> nat): (r: seq<T>)
    requires |cur| > 0
    ensures |r| == |cur| + count
    ensures r[..|cur|] == cur
    ensures forall i :: |cur| <= i < |r| ==> r[i] == r[draws(i) % i]
    decreases count
  {
    if count == 0 then cur
    else
      var next := cur + [cur[draws(|cur|) % |cur|]];
      var r := Grow(next, count - 1, draws);
      assert r[..|cur|] == r[..|next|][..|cur|];
      r
  }

  /**
   * Every element of a list grown by picks from its own earlier part is an
   * element of the part it started from.
   */
  lemma {:induction false} PicksStayInBase<T>(r: seq<T>, base: nat, draws: nat -> nat)
    requires 0 < base <= |r|
    requires forall i :: base <= i < |r| ==> r[i] == r[draws(i) % i]
    ensures Seqs.DrawnFrom(r, r[..base])
    decreases |r|
  {
    if |r| > base {
      var front := r[..|r| - 1];
      assert forall i :: base <= i < |front| ==> front[i] == front[draws(i) % i];
      PicksStayInBase(front, base, draws);
      assert front[..base] == r[..base];
      var last := r[|r| - 1];
      assert last == front[draws(|r| - 1) % (|r| - 1)];
      assert r == front + [last];
    }
  }

  /** The list after `count` rounds of `file_listing.pop()`; popping an empty list raises. */
  function PopN<T>(cur: seq<T>, count: nat): (r: Result<seq<T>, Error>)
    ensures r.Success? <==> count <= |cur|
    ensures r.Success? ==> r.value == cur[..|cur| - count]
    ensures r.Failure? ==> r.error == PopFromEmpty
    decreases count
  {
    if count == 0 then Success(cur)
    else if |cur| == 0 then Failure(PopFromEmpty)
    else
      var r := PopN(cur[..|cur| - 1], count - 1);
      assert r.Success? ==> r.value == cur[..|cur| - count];
      r
  }

  /**
   * Resize `listing` to `numFiles` entries: append random picks while it is
   * too short, pop from the end while it is too long.
   */
  function Resize<T>(listing: seq<T>, numFiles: int, draws: nat -> nat): (r: Result<seq<T>, Error>)
    ensures r.Success? <==> 0 <= numFiles && (0 < |listing| || numFiles == 0)
    ensures numFiles < 0 ==> r == Failure(PopFromEmpty)
    ensures 0 < numFiles && |listing| == 0 ==> r == Failure(EmptyChoice)
    ensures r.Success? ==> |r.value| == numFiles
    ensures r.Success? ==> Seqs.DrawnFrom(r.value, listing)
    ensures r.Success? && numFiles <= |listing| ==> r.value == listing[..numFiles]
    ensures r.Success? && |listing| <= numFiles ==>
              && r.value[..|listing|] == listing
              && forall i :: |listing| <= i < numFiles ==> r.value[i] == r.value[draws(i) % i]
  {
    var sizeDifference := numFiles - |listing|;
    if sizeDifference > 0 then
      if |listing| == 0 then Failure(EmptyChoice)
      else
        var grown := Grow(listing, sizeDifference, draws);
        PicksStayInBase(grown, |listing|, draws);
        Success(grown)
    else if sizeDifference < 0 then
      PopN(listing, -sizeDifference)
    else
      assert listing[..numFiles] == listing;
      Success(listing)
  }

  /** Whichever way a resize goes, it keeps the listing's entries where both are defined. */
  lemma ResizeKeepsPrefix<T>(listing: seq<T>, numFiles: int, draws: nat -> nat)
    requires Resize(listing, numFiles, draws).Success?
    ensures var r := Resize(listing, numFiles, draws).value;
            forall i :: 0 <= i < |r| && i < |listing| ==> r[i] == listing[i]
  {
    var r := Resize(listing, numFiles, draws).value;
    if numFiles <= |listing| {
      assert r == listing[..numFiles];
    } else {
      assert r[..|listing|] == listing;
    }
  }

  /** `s` with the entries at `i` and `j` exchanged. */
  function Swap<T>(s: seq<T>, i: nat, j: nat): (r: seq<T>)
    requires i < |s| && j < |s|
    ensures |r| == |s|
    ensures r[i] == s[j] && r[j] == s[i]
    ensures forall k :: 0 <= k < |s| && k != i && k != j ==> r[k] == s[k]
    ensures multiset(r) == multiset(s)
  {
    s[i := s[j]][j := s[i]]
  }

  /**
   * `random.shuffle` (Fisher-Yates) on the first `n` positions: for i from
   * n - 1 down to 1, swap position i with a position j <= i.
   */
  function ShuffleFirst<T>(s: seq<T>, n: nat, draws: nat -> nat): (r: seq<T>)
    requires n <= |s|
    ensures |r| == |s|
    ensures multiset(r) == multiset(s)
    ensures r[n..] == s[n..]
    decreases n
  {
    if n <= 1 then s
    else
      var swapped := Swap(s, n - 1, draws(n - 1) % n);
      var r := ShuffleFirst(swapped, n - 1, draws);
      assert r[n..] == r[n - 1..][1..];
      assert swapped[n..] == s[n..];
      r
  }

  /** `random.shuffle(file_listing)`: only the order changes. */
  function Shuffle<T>(s: seq<T>, draws: nat -> nat): (r: seq<T>)
    ensures |r| == |s|
    ensures multiset(r) == multiset(s)
  {
    ShuffleFirst(s, |s|, draws)
  }

  /** The shuffle never fabricates or drops an element. */
  lemma ShuffleKeepsElements<T>(s: seq<T>, draws: nat -> nat)
    ensures forall x :: x in Shuffle(s, draws) <==> x in s
  {
    var r := Shuffle(s, draws);
    forall x
      ensures x in r <==> x in s
    {
      assert x in r <==> x in multiset(r);
      assert x in s <==> x in multiset(s);
    }
  }

  lemma MapSwap<A, B>(f: A -> B, s: seq<A>, i: nat, j: nat)
    requires i < |s| && j < |s|
    ensures Seqs.MapAppend(f, Swap(s, i, j)) == Swap(Seqs.MapAppend(f, s), i, j)
  {
    var l := Seqs.MapAppend(f, Swap(s, i, j));
    var r := Swap(Seqs.MapAppend(f, s), i, j);
    forall k | 0 <= k < |s|
      ensures l[k] == r[k]
    {
      if k != i && k != j {
        assert Swap(s, i, j)[k] == s[k];
      }
    }
  }

  /** Shuffling then projecting each entry gives the projection, shuffled by the same draws. */
  lemma {:induction false} ShuffleCommutesWithMap<A, B>(f: A -> B, s: seq<A>, n: nat, draws: nat -> nat)
    requires n <= |s|
    ensures Seqs.MapAppend(f, ShuffleFirst(s, n, draws)) == ShuffleFirst(Seqs.MapAppend(f, s), n, draws)
    decreases n
  {
    if n > 1 {
      var j := draws(n - 1) % n;
      var swapped := Swap(s, n - 1, j);
      assert ShuffleFirst(s, n, draws) == ShuffleFirst(swapped, n - 1, draws);
      MapSwap(f, s, n - 1, j);
      ShuffleCommutesWithMap(f, swapped, n - 1, draws);
    }
  }
}
