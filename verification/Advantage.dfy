/** Advantage estimates over the reals: the backward recursion of GAE for one response, and leave-one-out baselines. */
module Advantage {

  // ---------------------------------------------------------------- discounted sums

  function Pow(c: real, n: nat): real {
    if n == 0 then 1.0 else c * Pow(c, n - 1)
  }

  /** x[t] + c x[t+1] + c^2 x[t+2] + ..., `n` terms, summed from the left. */
  function Discounted(c: real, x: seq<real>, t: nat, n: nat): real
    requires t + n <= |x|
  {
    if n == 0 then 0.0 else Discounted(c, x, t, n - 1) + Pow(c, n - 1) * x[t + n - 1]
  }

  /** The first term can be split off. */
  lemma {:induction false} DiscountedFront(c: real, x: seq<real>, t: nat, n: nat)
    requires 0 < n && t + n <= |x|
    ensures Discounted(c, x, t, n) == x[t] + c * Discounted(c, x, t + 1, n - 1)
    decreases n
  {
    if n > 1 {
      DiscountedFront(c, x, t, n - 1);
      var a, p, y := Discounted(c, x, t + 1, n - 2), Pow(c, n - 2), x[t + n - 1];
      Distribute(c, a, p, y);
      assert Discounted(c, x, t + 1, n - 1) == a + p * y;
    } else {
      assert Discounted(c, x, t, 1) == Pow(c, 0) * x[t];
    }
  }

  lemma Distribute(c: real, a: real, p: real, y: real)
    ensures c * (a + p * y) == c * a + (c * p) * y
  {}

  // ---------------------------------------------------------------- generalised advantage estimation

  function NextValue(values: seq<real>, t: nat): real {
    if t + 1 < |values| then values[t + 1] else 0.0
  }

  /** The temporal-difference errors. */
  function Deltas(rewards: seq<real>, values: seq<real>, gamma: real): (d: seq<real>)
    requires |rewards| == |values|
    ensures |d| == |rewards|
  {
    seq(|rewards|, t requires 0 <= t < |rewards| => rewards[t] + gamma * NextValue(values, t) - values[t])
  }

  /** The estimate for token `t`: the sum of all later errors, discounted by gamma lambda. */
  function Gae(rewards: seq<real>, values: seq<real>, gamma: real, lam: real, t: nat): real
    requires |rewards| == |values| && t <= |rewards|
  {
    Discounted(gamma * lam, Deltas(rewards, values, gamma), t, |rewards| - t)
  }

  function Reversed(s: seq<real>): seq<real> {
    seq(|s|, i requires 0 <= i < |s| => s[|s| - 1 - i])
  }

  /** The backward loop computes the discounted sums; the returns add the value estimates back. */
  method ComputeGae(rewards: seq<real>, values: seq<real>, gamma: real, lam: real)
    returns (advantages: seq<real>, returns': seq<real>)
    requires |rewards| == |values| > 0
    ensures |advantages| == |rewards| && |returns'| == |rewards|
    ensures forall t | 0 <= t < |rewards| :: advantages[t] == Gae(rewards, values, gamma, lam, t)
    ensures forall t | 0 <= t < |rewards| :: returns'[t] == Gae(rewards, values, gamma, lam, t) + values[t]
  {
    var n := |rewards|;
    var last, reversed := 0.0, [];
    var t := n;
    while t > 0
      invariant 0 <= t <= n && |reversed| == n - t
      invariant last == Gae(rewards, values, gamma, lam, t)
      invariant forall k | 0 <= k < n - t :: reversed[k] == Gae(rewards, values, gamma, lam, n - 1 - k)
    {
      t := t - 1;
      var nextValue := if t < n - 1 then values[t + 1] else 0.0;
      var delta := rewards[t] + gamma * nextValue - values[t];
      DiscountedFront(gamma * lam, Deltas(rewards, values, gamma), t, n - t);
      last := delta + gamma * lam * last;
      reversed := reversed + [last];
    }
    advantages := Reversed(reversed);
    returns' := seq(n, i requires 0 <= i < n => advantages[i] + values[i]);
  }

  /** The returns are the lambda-returns: each mixes the next value estimate with the next return. */
  lemma ReturnsMix(rewards: seq<real>, values: seq<real>, gamma: real, lam: real, t: nat)
    requires |rewards| == |values| && t < |rewards|
    ensures var next := if t + 1 < |rewards| then Gae(rewards, values, gamma, lam, t + 1) + values[t + 1] else 0.0;
            Gae(rewards, values, gamma, lam, t) + values[t]
            == rewards[t] + gamma * ((1.0 - lam) * NextValue(values, t) + lam * next)
  {
    var d := Deltas(rewards, values, gamma);
    DiscountedFront(gamma * lam, d, t, |rewards| - t);
    var g := Gae(rewards, values, gamma, lam, t + 1);
    var v := NextValue(values, t);
    Mix(gamma, lam, v, g);
    if t + 1 == |rewards| { assert g == 0.0; }
  }

  lemma Mix(gamma: real, lam: real, v: real, g: real)
    ensures gamma * v + (gamma * lam) * g == gamma * ((1.0 - lam) * v + lam * (g + v))
  {
    assert (1.0 - lam) * v + lam * (g + v) == v + lam * g;
    assert gamma * (v + lam * g) == gamma * v + gamma * (lam * g);
  }

  /** With lambda 1 the returns are the discounted rewards to go, whatever the value estimates are. */
  lemma {:induction false} ReturnsAreRewardsToGo(rewards: seq<real>, values: seq<real>, gamma: real, t: nat)
    requires |rewards| == |values| && t < |rewards|
    ensures Gae(rewards, values, gamma, 1.0, t) + values[t] == Discounted(gamma, rewards, t, |rewards| - t)
    decreases |rewards| - t
  {
    var d := Deltas(rewards, values, gamma);
    DiscountedFront(gamma * 1.0, d, t, |rewards| - t);
    DiscountedFront(gamma, rewards, t, |rewards| - t);
    if t + 1 < |rewards| {
      ReturnsAreRewardsToGo(rewards, values, gamma, t + 1);
      var g := Gae(rewards, values, gamma, 1.0, t + 1);
      assert gamma * (g + values[t + 1]) == gamma * g + gamma * values[t + 1];
    }
  }

  /** With lambda 0 an advantage is the error of its own token alone. */
  lemma AdvantageIsDelta(rewards: seq<real>, values: seq<real>, gamma: real, t: nat)
    requires |rewards| == |values| && t < |rewards|
    ensures Gae(rewards, values, gamma, 0.0, t) == rewards[t] + gamma * NextValue(values, t) - values[t]
  {
    DiscountedFront(gamma * 0.0, Deltas(rewards, values, gamma), t, |rewards| - t);
  }

  // ---------------------------------------------------------------- leave one out

  function Sum(s: seq<real>): real {
    if s == [] then 0.0 else Sum(s[..|s| - 1]) + s[|s| - 1]
  }

  function Mean(s: seq<real>): real
    requires s != []
  {
    Sum(s) / (|s| as real)
  }

  function Share(score: real, mean: real, n: real): real
    requires n > 1.0
  {
    score * n / (n - 1.0) - mean * n / (n - 1.0)
  }

  /** The advantages of a group, before masking; a group of one keeps its score. */
  function Rloo(scores: seq<real>): (adv: seq<real>)
    requires scores != []
    ensures |adv| == |scores|
  {
    if |scores| == 1 then scores
    else seq(|scores|, i requires 0 <= i < |scores| => Share(scores[i], Mean(scores), |scores| as real))
  }

  function Without(s: seq<real>, i: nat): seq<real>
    requires i < |s|
  {
    s[..i] + s[i + 1..]
  }

  lemma {:induction false} SumConcat(s: seq<real>, t: seq<real>)
    ensures Sum(s + t) == Sum(s) + Sum(t)
    decreases |t|
  {
    if t == [] {
      assert s + t == s;
    } else {
      SumConcat(s, t[..|t| - 1]);
      assert (s + t)[..|s + t| - 1] == s + t[..|t| - 1];
    }
  }

  lemma SumWithout(s: seq<real>, i: nat)
    requires i < |s|
    ensures Sum(Without(s, i)) == Sum(s) - s[i]
  {
    SumConcat(s[..i], s[i + 1..]);
    SumConcat(s[..i + 1], s[i + 1..]);
    assert s == s[..i + 1] + s[i + 1..];
    assert s[..i + 1][..i] == s[..i];
    assert Sum(s[..i + 1]) == Sum(s[..i]) + s[i];
    hide Sum;
  }

  /** An advantage is the score minus the mean of the other scores. */
  lemma RlooIsLeaveOneOut(scores: seq<real>, i: nat)
    requires |scores| > 1 && i < |scores|
    ensures Rloo(scores)[i] == scores[i] - Mean(Without(scores, i))
  {
    SumWithout(scores, i);
    hide Sum, Share;
    var n, s, total := |scores| as real, scores[i], Sum(scores);
    assert Mean(Without(scores, i)) == (total - s) / (n - 1.0) by {
      assert |Without(scores, i)| as real == n - 1.0;
    }
    assert Rloo(scores)[i] == Share(s, total / n, n);
    hide *;
    Algebra(s, total, n);
  }

  lemma Algebra(s: real, total: real, n: real)
    requires n > 1.0
    ensures Share(s, total / n, n) == s - (total - s) / (n - 1.0)
  {
    var m := n - 1.0;
    assert (total / n) * n == total;
    assert s * n == s * m + s;
    assert (s * m + s) / m == s + s / m;
    assert (total - s) / m == total / m - s / m;
  }

  lemma {:induction false} SumScaled(s: seq<real>, t: seq<real>, a: real, b: real)
    requires |t| == |s| && forall i | 0 <= i < |s| :: t[i] == a * s[i] + b
    ensures Sum(t) == a * Sum(s) + (|s| as real) * b
    decreases |s|
  {
    if s != [] {
      SumScaled(s[..|s| - 1], t[..|t| - 1], a, b);
      var x, y, k := Sum(s[..|s| - 1]), s[|s| - 1], (|s| - 1) as real;
      assert a * (x + y) == a * x + a * y;
      assert (k + 1.0) * b == k * b + b;
    }
  }

  /** A group of one has nobody to compare with and keeps its score. */
  lemma RlooOfOne(score: real)
    ensures Rloo([score]) == [score]
  {}

  /** The advantages of a group of several sum to zero. */
  lemma RlooSumsToZero(scores: seq<real>)
    requires |scores| > 1
    ensures Sum(Rloo(scores)) == 0.0
  {
    var n, mean := |scores| as real, Mean(scores);
    var a, b := n / (n - 1.0), -mean * n / (n - 1.0);
    forall i | 0 <= i < |scores| ensures Rloo(scores)[i] == a * scores[i] + b {
      Scale(scores[i], n, mean);
    }
    hide *;
    SumScaled(scores, Rloo(scores), a, b);
    MeanCancels(scores, a, b);
  }

  lemma MeanCancels(scores: seq<real>, a: real, b: real)
    requires |scores| > 1
    requires var n := |scores| as real; a == n / (n - 1.0) && b == -Mean(scores) * n / (n - 1.0)
    ensures a * Sum(scores) + (|scores| as real) * b == 0.0
  {
    hide Sum;
    Cancel(Sum(scores), |scores| as real, a, b);
  }

  lemma Scale(s: real, n: real, mean: real)
    requires n > 1.0
    ensures Share(s, mean, n) == n / (n - 1.0) * s + (-mean * n / (n - 1.0))
  {
    var m := n - 1.0;
    assert s * n / m == n / m * s;
    assert -mean * n / m == -(mean * n / m);
  }

  lemma Cancel(total: real, n: real, a: real, b: real)
    requires n > 1.0 && a == n / (n - 1.0) && b == -(total / n) * n / (n - 1.0)
    ensures a * total + n * b == 0.0
  {
    var m := n - 1.0;
    assert -(total / n) * n == -total;
    assert n * (-total / m) == -(n / m * total);
  }
}
