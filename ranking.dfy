/** Top-3 selection over a probability vector: `np.argsort(probs)[-3:][::-1]`.
    Positions index the vector; weights are exact reals. */
module Ranking {
  import opened Results

  /** How many candidates the engine surfaces: the `[-3:]` slice. */
  const TopCount: nat := 3

  function Min(a: nat, b: nat): nat {
    if a <= b then a else b
  }

  /** Every position in `idx` indexes `w`. */
  predicate InBounds(w: seq<real>, idx: seq<nat>) {
    forall i :: 0 <= i < |idx| ==> idx[i] < |w|
  }

  /** No position occurs twice. */
  predicate Distinct(idx: seq<nat>) {
    forall i, j :: 0 <= i < j < |idx| ==> idx[i] != idx[j]
  }

  /** The weights at the positions of `idx` do not decrease. */
  predicate Ascending(w: seq<real>, idx: seq<nat>)
    requires InBounds(w, idx)
  {
    forall i, j :: 0 <= i < j < |idx| ==> w[idx[i]] <= w[idx[j]]
  }

  /** The weights at the positions of `idx` do not increase. */
  predicate Descending(w: seq<real>, idx: seq<nat>)
    requires InBounds(w, idx)
  {
    forall i, j :: 0 <= i < j < |idx| ==> w[idx[i]] >= w[idx[j]]
  }

  /** `idx` is a correct answer to "the positions of the `k` largest weights
      of `w`, largest first": there are `min(k, |w|)` of them, all distinct and
      in bounds, their weights do not increase, and no position left out has a
      larger weight than one taken. Among equal weights any choice is allowed. */
  predicate IsTopK(w: seq<real>, k: nat, idx: seq<nat>) {
    && |idx| == Min(k, |w|)
    && InBounds(w, idx)
    && Distinct(idx)
    && Descending(w, idx)
    && forall i, j :: 0 <= i < |idx| && 0 <= j < |w| && j !in idx ==> w[j] <= w[idx[i]]
  }

  //// Argsort

  /** Inserts position `x` into the ascending order `s`, after every position
      whose weight is not larger. */
  function Insert(w: seq<real>, s: seq<nat>, x: nat): (r: seq<nat>)
    requires InBounds(w, s) && Ascending(w, s) && Distinct(s)
    requires x < |w| && x !in s
    ensures |r| == |s| + 1
    ensures forall y :: y in r <==> y in s || y == x
    ensures InBounds(w, r) && Ascending(w, r) && Distinct(r)
  {
    if s == [] || w[x] < w[s[0]] then
      assert forall y :: y in s ==> w[x] <= w[y] by {
        forall y | y in s
          ensures w[x] <= w[y]
        {
          var j :| 0 <= j < |s| && s[j] == y;
          assert w[s[0]] <= w[s[j]];
        }
      }
      ConsOrdered(w, x, s);
      [x] + s
    else
      var rest := Insert(w, s[1..], x);
      assert s == [s[0]] + s[1..];
      assert forall y :: y in rest ==> w[s[0]] <= w[y] by {
        forall y | y in rest
          ensures w[s[0]] <= w[y]
        {
          if y != x {
            var j :| 0 <= j < |s[1..]| && s[1..][j] == y;
            assert w[s[0]] <= w[s[j + 1]];
          }
        }
      }
      ConsOrdered(w, s[0], rest);
      [s[0]] + rest
  }

  /** Putting a position in front of an ascending order of others that weigh
      at least as much keeps the order ascending and duplicate-free. */
  lemma ConsOrdered(w: seq<real>, h: nat, rest: seq<nat>)
    requires h < |w| && InBounds(w, rest) && Ascending(w, rest) && Distinct(rest)
    requires h !in rest && forall y :: y in rest ==> w[h] <= w[y]
    ensures InBounds(w, [h] + rest) && Ascending(w, [h] + rest) && Distinct([h] + rest)
  {
    var r := [h] + rest;
    forall i, j | 0 <= i < j < |r|
      ensures w[r[i]] <= w[r[j]] && r[i] != r[j]
    {
      assert r[j] == rest[j - 1] && r[j] in rest;
      if i > 0 {
        assert r[i] == rest[i - 1];
      }
    }
  }

  /** The positions `0 .. n - 1` of `w`, ordered by ascending weight. */
  function ArgsortPrefix(w: seq<real>, n: nat): (r: seq<nat>)
    requires n <= |w|
    ensures |r| == n
    ensures forall y: nat :: y in r <==> y < n
    ensures InBounds(w, r) && Ascending(w, r) && Distinct(r)
  {
    if n == 0 then [] else Insert(w, ArgsortPrefix(w, n - 1), n - 1)
  }

  /** `np.argsort(w)`: every position of `w` once, by ascending weight. */
  function Argsort(w: seq<real>): (r: seq<nat>)
    ensures |r| == |w|
    ensures forall y: nat :: y in r <==> y < |w|
    ensures InBounds(w, r) && Ascending(w, r) && Distinct(r)
  {
    ArgsortPrefix(w, |w|)
  }

  /** `s[::-1]`: the same positions, last first. */
  function Reversed(s: seq<nat>): (r: seq<nat>)
    ensures |r| == |s|
    ensures forall x :: x in r <==> x in s
  {
    var r := seq(|s|, i requires 0 <= i < |s| => s[|s| - 1 - i]);
    assert forall j :: 0 <= j < |s| ==> s[j] == r[|s| - 1 - j];
    r
  }

  /** Reversing a sequence with a first element puts that element last.
      With `|Reversed(s)| == |s|`, which makes `Reversed([])` empty, this
      fixes `Reversed` on every sequence by induction. */
  lemma ReversedCons(x: nat, s: seq<nat>)
    ensures Reversed([x] + s) == Reversed(s) + [x]
  {
    var l := Reversed([x] + s);
    var r := Reversed(s) + [x];
    forall i | 0 <= i < |l|
      ensures l[i] == r[i]
    {
      if i < |s| {
        assert l[i] == ([x] + s)[|s| - i] == s[|s| - 1 - i];
      }
    }
  }

  /** Reversing twice gives the sequence back. */
  lemma ReversedTwice(s: seq<nat>)
    ensures Reversed(Reversed(s)) == s
  {
    var r := Reversed(Reversed(s));
    forall i | 0 <= i < |s|
      ensures r[i] == s[i]
    {
      assert Reversed(s)[|s| - 1 - i] == s[i];
    }
  }

  /** Every position of the tail is selected. */
  lemma TailSelected(order: seq<nat>, m: nat)
    requires m <= |order|
    ensures forall p :: |order| - m <= p < |order| ==> order[p] in Reversed(order[|order| - m..])
  {
    var idx := Reversed(order[|order| - m..]);
    forall p | |order| - m <= p < |order|
      ensures order[p] in idx
    {
      assert idx[|order| - 1 - p] == order[p];
    }
  }

  /** Reversing a tail of an ascending order gives distinct, in-bounds
      positions of non-increasing weight. */
  lemma ReversedTailOrdered(w: seq<real>, order: seq<nat>, m: nat)
    requires m <= |order|
    requires InBounds(w, order) && Ascending(w, order) && Distinct(order)
    ensures InBounds(w, Reversed(order[|order| - m..]))
    ensures Distinct(Reversed(order[|order| - m..]))
    ensures Descending(w, Reversed(order[|order| - m..]))
  {
    var n := |order|;
    var idx := Reversed(order[n - m..]);
    assert forall i :: 0 <= i < m ==> idx[i] == order[n - 1 - i];
  }

  /** The reversed tail of length `m` of an ascending order of all positions
      is a correct top-`m` selection. */
  lemma ReversedTailIsTop(w: seq<real>, order: seq<nat>, m: nat)
    requires |order| == |w| && m <= |w|
    requires forall y: nat :: y in order <==> y < |w|
    requires InBounds(w, order) && Ascending(w, order) && Distinct(order)
    ensures IsTopK(w, m, Reversed(order[|w| - m..]))
  {
    var n := |w|;
    var idx := Reversed(order[n - m..]);
    assert Min(m, n) == m;
    ReversedTailOrdered(w, order, m);
    forall i, j | 0 <= i < m && 0 <= j < n && j !in idx
      ensures w[j] <= w[idx[i]]
    {
      UnselectedIsLighter(w, order, m, i, j);
    }
  }

  /** A position outside the reversed tail weighs no more than any position in it. */
  lemma UnselectedIsLighter(w: seq<real>, order: seq<nat>, m: nat, i: nat, j: nat)
    requires |order| == |w| && m <= |w|
    requires forall y: nat :: y in order <==> y < |w|
    requires InBounds(w, order) && Ascending(w, order)
    requires i < m && j < |w| && j !in Reversed(order[|w| - m..])
    ensures w[j] <= w[Reversed(order[|w| - m..])[i]]
  {
    var n := |w|;
    TailSelected(order, m);
    assert j in order;
    var p :| 0 <= p < n && order[p] == j;
    assert p < n - m <= n - 1 - i;
    assert Reversed(order[n - m..])[i] == order[n - 1 - i];
  }

  /** `np.argsort(w)[-3:][::-1]`: the last `min(3, |w|)` positions of the
      ascending order, last first. The result is a correct top-3 selection. */
  function TopIndices(w: seq<real>): (idx: seq<nat>)
    ensures IsTopK(w, TopCount, idx)
  {
    var order := Argsort(w);
    var m := Min(TopCount, |w|);
    ReversedTailIsTop(w, order, m);
    assert Min(m, |w|) == m;
    Reversed(order[|w| - m..])
  }

  //// Ties do not change the weights

  /** The set of the first `n` positions of `s`. */
  function PrefixSet(s: seq<nat>, n: nat): set<nat>
    requires n <= |s|
  {
    set j | 0 <= j < n :: s[j]
  }

  lemma {:induction false} PrefixSetSize(s: seq<nat>, n: nat)
    requires n <= |s|
    ensures |PrefixSet(s, n)| <= n
    ensures Distinct(s) ==> |PrefixSet(s, n)| == n
  {
    if n > 0 {
      PrefixSetSize(s, n - 1);
      assert PrefixSet(s, n) == PrefixSet(s, n - 1) + {s[n - 1]};
      if Distinct(s) {
        assert s[n - 1] !in PrefixSet(s, n - 1);
      }
    }
  }

  lemma SubsetSize(a: set<nat>, b: set<nat>)
    requires a <= b
    ensures |a| <= |b|
  {
    assert b == a + (b - a);
  }

  /** A position heavier than rank `i` of a correct top-k selection is among
      its first `i` ranks. */
  lemma HeavierRanksEarlier(w: seq<real>, k: nat, b: seq<nat>, i: nat, x: nat)
    requires IsTopK(w, k, b) && i < |b|
    requires x < |w| && w[x] > w[b[i]]
    ensures x in PrefixSet(b, i)
  {
    assert x in b;
    var p :| 0 <= p < |b| && b[p] == x;
    assert forall j :: i <= j < |b| ==> w[b[j]] <= w[b[i]];
  }

  /** In two correct top-k selections, the weight at rank `i` of the first is
      not larger than the weight at rank `i` of the second. */
  lemma RankWeightBounded(w: seq<real>, k: nat, a: seq<nat>, b: seq<nat>, i: nat)
    requires IsTopK(w, k, a) && IsTopK(w, k, b)
    requires i < |a|
    ensures w[a[i]] <= w[b[i]]
  {
    if w[a[i]] > w[b[i]] {
      // The i + 1 positions a[0..i] all outweigh b[i], so each is among b[0..i - 1].
      forall x | x in PrefixSet(a, i + 1)
        ensures x in PrefixSet(b, i)
      {
        var q :| 0 <= q < i + 1 && a[q] == x;
        assert w[a[q]] >= w[a[i]];
        HeavierRanksEarlier(w, k, b, i, x);
      }
      SubsetSize(PrefixSet(a, i + 1), PrefixSet(b, i));
      PrefixSetSize(a, i + 1);
      PrefixSetSize(b, i);
      assert false;
    }
  }

  /** How ties are broken never changes the weights selected: any two correct
      top-k selections have the same weight at every rank. */
  lemma TopKWeightsUnique(w: seq<real>, k: nat, a: seq<nat>, b: seq<nat>)
    requires IsTopK(w, k, a) && IsTopK(w, k, b)
    ensures |a| == |b|
    ensures forall i :: 0 <= i < |a| ==> w[a[i]] == w[b[i]]
  {
    forall i | 0 <= i < |a|
      ensures w[a[i]] == w[b[i]]
    {
      RankWeightBounded(w, k, a, b, i);
      RankWeightBounded(w, k, b, a, i);
    }
  }

  //// Selected weight never exceeds the total

  /** The total of the weights. */
  function Sum(w: seq<real>): real {
    if w == [] then 0.0 else w[0] + Sum(w[1..])
  }

  /** The total of the weights at the positions of `idx`. */
  function SumAt(w: seq<real>, idx: seq<nat>): real
    requires InBounds(w, idx)
  {
    if idx == [] then 0.0 else w[idx[0]] + SumAt(w, idx[1..])
  }

  /** Replacing one weight changes the total by the difference. */
  lemma {:induction false} SumUpdate(w: seq<real>, p: nat, v: real)
    requires p < |w|
    ensures Sum(w[p := v]) == Sum(w) - w[p] + v
  {
    if p > 0 {
      assert w[p := v][1..] == w[1..][p - 1 := v];
      SumUpdate(w[1..], p - 1, v);
    }
  }

  /** Weights that agree at the selected positions give the same selected total. */
  lemma {:induction false} SumAtAgree(w: seq<real>, u: seq<real>, idx: seq<nat>)
    requires InBounds(w, idx) && InBounds(u, idx)
    requires forall i :: 0 <= i < |idx| ==> w[idx[i]] == u[idx[i]]
    ensures SumAt(w, idx) == SumAt(u, idx)
  {
    if idx != [] {
      SumAtAgree(w, u, idx[1..]);
    }
  }

  lemma {:induction false} SumNonNegative(w: seq<real>)
    requires forall i :: 0 <= i < |w| ==> 0.0 <= w[i]
    ensures 0.0 <= Sum(w)
  {
    if w != [] {
      SumNonNegative(w[1..]);
    }
  }

  /** With no negative weight, the weights at distinct positions total at most
      all the weights. */
  lemma {:induction false} SumAtBounded(w: seq<real>, idx: seq<nat>)
    requires InBounds(w, idx) && Distinct(idx)
    requires forall i :: 0 <= i < |w| ==> 0.0 <= w[i]
    ensures SumAt(w, idx) <= Sum(w)
    decreases |idx|
  {
    if idx == [] {
      SumNonNegative(w);
    } else {
      var p := idx[0];
      var rest := idx[1..];
      var u := w[p := 0.0];
      assert forall i :: 0 <= i < |rest| ==> rest[i] != p && w[rest[i]] == u[rest[i]] by {
        forall i | 0 <= i < |rest|
          ensures rest[i] != p
        {
          assert rest[i] == idx[i + 1];
        }
      }
      SumAtAgree(w, u, rest);
      SumUpdate(w, p, 0.0);
      SumAtBounded(u, rest);
      assert SumAt(w, idx) == w[p] + SumAt(u, rest) <= w[p] + Sum(u) == Sum(w);
    }
  }
}
