/**
 * `shuffled` of bench/serverless-cold-path.bench.ts: Fisher-Yates from the top down.
 *
 * The random draws are an argument: `draws[k]` is the k-th `randomInt`, taken when `n - k`
 * elements are still in play, so it is one of `0 .. n - k - 1`.
 */
module Shuffle {
  import opened Common

  /** One draw for each of the `n - 1` turns of the loop. */
  predicate ValidDraws(draws: seq<nat>, n: nat) {
    |draws| == (if n == 0 then 0 else n - 1) && forall k :: 0 <= k < |draws| ==> draws[k] < n - k
  }

  function Swap<T>(s: seq<T>, i: nat, j: nat): seq<T>
    requires i < |s| && j < |s|
  {
    s[i := s[j]][j := s[i]]
  }

  /** What the draws do: the drawn element goes last, the rest is shuffled by the later draws. */
  function Shuffled<T>(s: seq<T>, draws: seq<nat>): (r: seq<T>)
    requires ValidDraws(draws, |s|)
    ensures |r| == |s|
    decreases |s|
  {
    if |s| <= 1 then s
    else
      var n := |s| - 1;
      var t := Swap(s, n, draws[0]);
      Shuffled(t[..n], draws[1..]) + [t[n]]
  }

  /** The elements still in play, shuffled by the draws still to come, in front of the finished ones. */
  function Outcome<T>(all: seq<T>, inPlay: nat, draws: seq<nat>): seq<T>
    requires inPlay <= |all| && ValidDraws(draws, inPlay)
  {
    Shuffled(all[..inPlay], draws) + all[inPlay..]
  }

  /** One turn of the loop does not change the outcome. */
  lemma TurnKeepsOutcome<T>(all: seq<T>, i: nat, draws: seq<nat>)
    requires 0 < i < |all| && ValidDraws(draws, i + 1)
    ensures Outcome(Swap(all, i, draws[0]), i, draws[1..]) == Outcome(all, i + 1, draws)
  {
    var next := Swap(all, i, draws[0]);
    assert next[..i] == Swap(all[..i + 1], i, draws[0])[..i];
    assert next[i..] == [Swap(all[..i + 1], i, draws[0])[i]] + all[i + 1..];
  }

  /** `[a[i], a[j]] = [a[j], a[i]]`. */
  method SwapInPlace<T>(a: array<T>, i: nat, j: nat)
    requires i < a.Length && j < a.Length
    modifies a
    ensures a[..] == Swap(old(a[..]), i, j)
  {
    a[i], a[j] := a[j], a[i];
  }

  /** The in-place loop on a copy of the input. */
  method Shuffle<T>(values: seq<T>, draws: seq<nat>) returns (result: array<T>)
    requires ValidDraws(draws, |values|)
    ensures fresh(result) && result[..] == Shuffled(values, draws)
  {
    result := new T[|values|](k requires 0 <= k < |values| => values[k]);
    assert result[..] == values;
    var i := |values| - 1;
    ghost var rest := draws;
    assert values[..|values|] == values && Outcome(values, |values|, draws) == Shuffled(values, draws);
    hide Outcome, Shuffled, Swap;
    while i > 0
      invariant result.Length == |values| && -1 <= i < |values| && (values != [] ==> 0 <= i)
      invariant ValidDraws(rest, i + 1) && (i > 0 ==> rest[0] == draws[|values| - 1 - i])
      invariant rest == draws[|draws| - |rest|..]
      invariant Outcome(result[..], i + 1, rest) == Shuffled(values, draws)
    {
      var j := draws[|values| - 1 - i];
      TurnKeepsOutcome(result[..], i, rest);
      SwapInPlace(result, i, j);
      rest := rest[1..];
      i := i - 1;
    }
    NothingInPlay(result[..], i + 1, rest);
  }

  lemma NothingInPlay<T>(all: seq<T>, inPlay: nat, draws: seq<nat>)
    requires inPlay <= 1 && inPlay <= |all| && ValidDraws(draws, inPlay)
    ensures Outcome(all, inPlay, draws) == all
  {
  }

  // ----- every run permutes -----

  lemma SwapPermutes<T>(s: seq<T>, i: nat, j: nat)
    requires i < |s| && j < |s|
    ensures multiset(Swap(s, i, j)) == multiset(s)
  {
  }

  lemma {:induction false} ShuffledPermutes<T>(s: seq<T>, draws: seq<nat>)
    requires ValidDraws(draws, |s|)
    ensures multiset(Shuffled(s, draws)) == multiset(s)
    decreases |s|
  {
    if |s| > 1 {
      var n := |s| - 1;
      var t := Swap(s, n, draws[0]);
      ShuffledPermutes(t[..n], draws[1..]);
      SwapPermutes(s, n, draws[0]);
      assert t == t[..n] + [t[n]];
    }
  }

  // ----- for distinct elements, draws and permutations correspond one to one -----

  lemma SwapDistinct<T>(s: seq<T>, i: nat, j: nat)
    requires i < |s| && j < |s| && NoDuplicates(s)
    ensures NoDuplicates(Swap(s, i, j)[..i])
  {
  }

  /** Two different lists of draws never give the same permutation. */
  lemma {:induction false} DrawsAreDetermined<T>(s: seq<T>, draws: seq<nat>, draws': seq<nat>)
    requires NoDuplicates(s) && ValidDraws(draws, |s|) && ValidDraws(draws', |s|)
    requires Shuffled(s, draws) == Shuffled(s, draws')
    ensures draws == draws'
    decreases |s|
  {
    if |s| > 1 {
      var n := |s| - 1;
      var t, t' := Swap(s, n, draws[0]), Swap(s, n, draws'[0]);
      assert Shuffled(s, draws)[n] == s[draws[0]] && Shuffled(s, draws')[n] == s[draws'[0]];
      assert draws[0] == draws'[0];
      assert Shuffled(s, draws)[..n] == Shuffled(t[..n], draws[1..]);
      assert Shuffled(s, draws')[..n] == Shuffled(t'[..n], draws'[1..]);
      SwapDistinct(s, n, draws[0]);
      DrawsAreDetermined(t[..n], draws[1..], draws'[1..]);
      assert draws == [draws[0]] + draws[1..] && draws' == [draws'[0]] + draws'[1..];
    }
  }

  lemma SameMultisetSameLength<T>(s: seq<T>, p: seq<T>)
    requires multiset(p) == multiset(s)
    ensures |p| == |s|
  {
    assert |multiset(p)| == |p| && |multiset(s)| == |s|;
  }

  lemma DropLast<T>(s: seq<T>, p: seq<T>)
    requires |s| == |p| > 0 && multiset(p) == multiset(s) && s[|s| - 1] == p[|p| - 1]
    ensures multiset(p[..|p| - 1]) == multiset(s[..|s| - 1])
  {
    var n := |s| - 1;
    assert s == s[..n] + [s[n]] && p == p[..n] + [p[n]];
    assert multiset(s[..n]) == multiset(s) - multiset{s[n]};
    assert multiset(p[..n]) == multiset(p) - multiset{p[n]};
  }

  /** Every arrangement of the elements comes from some list of draws. */
  lemma {:induction false} EveryPermutationIsDrawn<T>(s: seq<T>, p: seq<T>) returns (draws: seq<nat>)
    requires multiset(p) == multiset(s)
    ensures ValidDraws(draws, |s|) && Shuffled(s, draws) == p
    decreases |s|
  {
    SameMultisetSameLength(s, p);
    if |s| <= 1 {
      draws := [];
      if |s| == 1 { assert p[0] in multiset(s); }
    } else {
      hide Shuffled;
      var n := |s| - 1;
      var j := LastDrawn(s, p);
      var rest := EveryPermutationIsDrawn(Swap(s, n, j)[..n], p[..n]);
      draws := [j] + rest;
      DrawFirst(s, j, rest);
      assert p == p[..n] + [p[n]];
    }
  }

  /** The draw that puts the last element of `p` in place leaves the others to be arranged. */
  lemma LastDrawn<T>(s: seq<T>, p: seq<T>) returns (j: nat)
    requires multiset(p) == multiset(s) && |s| == |p| > 0
    ensures j < |s| && s[j] == p[|p| - 1]
    ensures multiset(p[..|p| - 1]) == multiset(Swap(s, |s| - 1, j)[..|s| - 1])
  {
    j := Occurrence(s, p, |p| - 1);
    SwapPermutes(s, |s| - 1, j);
    DropLast(Swap(s, |s| - 1, j), p);
  }

  lemma Occurrence<T>(s: seq<T>, p: seq<T>, k: nat) returns (j: nat)
    requires multiset(p) == multiset(s) && k < |p|
    ensures j < |s| && s[j] == p[k]
  {
    assert p[k] in multiset(p);
    assert p[k] in s;
    j :| j < |s| && s[j] == p[k];
  }

  lemma DrawFirst<T>(s: seq<T>, j: nat, rest: seq<nat>)
    requires |s| > 1 && j < |s| && ValidDraws(rest, |s| - 1)
    ensures ValidDraws([j] + rest, |s|)
    ensures Shuffled(s, [j] + rest) == Shuffled(Swap(s, |s| - 1, j)[..|s| - 1], rest) + [s[j]]
  {
    assert ([j] + rest)[1..] == rest;
  }

  /** For distinct elements each permutation arises from exactly one list of draws. */
  lemma ShuffleIsABijection<T>(s: seq<T>, p: seq<T>)
    requires NoDuplicates(s)
    ensures multiset(p) == multiset(s) <==>
      exists draws :: ValidDraws(draws, |s|) && Shuffled(s, draws) == p
    ensures forall draws, draws' ::
      ValidDraws(draws, |s|) && ValidDraws(draws', |s|) && Shuffled(s, draws) == p && Shuffled(s, draws') == p ==>
        draws == draws'
  {
    if multiset(p) == multiset(s) {
      var draws := EveryPermutationIsDrawn(s, p);
    }
    if draws :| ValidDraws(draws, |s|) && Shuffled(s, draws) == p {
      ShuffledPermutes(s, draws);
    }
    forall draws, draws' |
      ValidDraws(draws, |s|) && ValidDraws(draws', |s|) && Shuffled(s, draws) == p && Shuffled(s, draws') == p
      ensures draws == draws'
    {
      DrawsAreDetermined(s, draws, draws');
    }
  }
}
