/** Binomial random numbers by splitting at a median: Knuth's algorithm, over reals. */
module Binomial {
  /** The results of the generator's calls, in order; call number i returns next(i). */
  type Stream = nat -> real

  const SMALL: nat := 10

  /** Call number i, made while n trials are left: a beta number strictly between 0 and 1 while
      n is large, and else a uniform one that may be 0. */
  ghost predicate Drawable(next: Stream) { forall i :: 0.0 <= next(i) < 1.0 }

  ghost predicate Betas(next: Stream, i: nat, n: nat, p: real)
    decreases n
  {
    n > SMALL ==> 0.0 < next(i) < 1.0 && Betas(next, i + 1, Left(n, p, next(i)).0, Left(n, p, next(i)).1)
  }

  /** The trials and the probability left after a split at x. */
  function Left(n: nat, p: real, x: real): (r: (nat, real))
    requires n > SMALL && 0.0 < x < 1.0
    ensures r.0 < n
  {
    var a := 1 + n / 2;
    var b := 1 + n - a;
    if x >= p then (a - 1, p / x) else (b - 1, (p - x) / (1.0 - x))
  }

  /** How many successes the calls from number i on give, for n trials of probability p. */
  function Successes(next: Stream, i: nat, n: nat, p: real): (r: nat)
    decreases n
  {
    if n > SMALL && 0.0 < next(i) < 1.0 then
      var x := next(i);
      (if x >= p then 0 else 1 + n / 2) + Successes(next, i + 1, Left(n, p, x).0, Left(n, p, x).1)
    else Below(next, i, n, p)
  }

  /** How many of the n calls from number i on return less than p. */
  function Below(next: Stream, i: nat, n: nat, p: real): (r: nat) {
    if n == 0 then 0 else Below(next, i, n - 1, p) + if next(i + n - 1) < p then 1 else 0
  }

  lemma LeftProbability(n: nat, p: real, x: real)
    requires n > SMALL && 0.0 < x < 1.0 && 0.0 <= p <= 1.0
    ensures 0.0 <= Left(n, p, x).1 <= 1.0
    ensures p == 0.0 ==> x >= p && Left(n, p, x).1 == 0.0
    ensures p == 1.0 ==> x < p && Left(n, p, x).1 == 1.0
  {
    if x >= p {
      Quotient(p, x);
    } else {
      Quotient(p - x, 1.0 - x);
    }
  }

  lemma Quotient(p: real, q: real)
    requires 0.0 <= p <= q && 0.0 < q
    ensures 0.0 <= p / q <= 1.0
    ensures p == 0.0 ==> p / q == 0.0
    ensures p == q ==> p / q == 1.0
  {
  }

  /** Between two splits. */
  ghost predicate Ready(next: Stream, i: nat, n: nat, p: real) { 0.0 <= p <= 1.0 && Betas(next, i, n, p) }

  /** One split. */
  lemma SplitStep(next: Stream, i: nat, n: nat, p: real, x: real, a: nat, b: nat)
    requires n > SMALL && x == next(i) && 0.0 < x < 1.0 && a == 1 + n / 2 && b == 1 + n - a
    ensures x >= p ==> Successes(next, i, n, p) == Successes(next, i + 1, a - 1, p / x)
    ensures x < p ==> 1 <= b && Successes(next, i, n, p) == a + Successes(next, i + 1, b - 1, (p - x) / (1.0 - x))
  {
  }

  lemma SplitReady(next: Stream, i: nat, n: nat, p: real, x: real, a: nat, b: nat)
    requires n > SMALL && x == next(i) && a == 1 + n / 2 && b == 1 + n - a && Ready(next, i, n, p)
    ensures 0.0 < x < 1.0
    ensures x >= p ==> Ready(next, i + 1, a - 1, p / x)
    ensures x < p ==> 1 <= b && Ready(next, i + 1, b - 1, (p - x) / (1.0 - x))
  {
    LeftProbability(n, p, x);
  }

  /** Splits the trials at the beta number and keeps those on the side of p. */
  method Split(next: Stream, call: nat, n: nat, p: real) returns (gained: nat, n': nat, p': real)
    requires n > SMALL && Ready(next, call, n, p)
    ensures n' < n && Ready(next, call + 1, n', p')
    ensures gained + Successes(next, call + 1, n', p') == Successes(next, call, n, p)
  {
    var a := 1 + n / 2;
    var b := 1 + n - a;
    var X := next(call);
    SplitReady(next, call, n, p, X, a, b);
    SplitStep(next, call, n, p, X, a, b);
    if X >= p {
      gained, n', p' := 0, a - 1, p / X;
    } else {
      gained, n', p' := a, b - 1, (p - X) / (1.0 - X);
    }
  }

  /** The algorithm: it ends, keeps the probability between 0 and 1, and counts the successes. */
  method BinomialKnuth(next: Stream, p0: real, n0: nat) returns (k: nat)
    requires 0.0 <= p0 <= 1.0 && Betas(next, 0, n0, p0)
    ensures k == Successes(next, 0, n0, p0)
    ensures Drawable(next) ==> k <= n0 && (p0 == 0.0 ==> k == 0) && (p0 == 1.0 ==> k == n0)
  {
    var p := p0;
    var n: nat := n0;
    var calls: nat := 0;
    k := 0;
    while n > SMALL
      invariant Ready(next, calls, n, p)
      invariant k + Successes(next, calls, n, p) == Successes(next, 0, n0, p0)
      decreases n
    {
      var gained, n', p' := Split(next, calls, n, p);
      k, n, p := k + gained, n', p';
      calls := calls + 1;
    }
    var rest := SmallBinomial(next, calls, n, p);
    k := k + rest;
    if Drawable(next) {
      SuccessBounds(next, 0, n0, p0);
    }
  }

  /** The few trials left: one uniform number each. */
  method SmallBinomial(next: Stream, calls: nat, n: nat, p: real) returns (k: nat)
    ensures k == Below(next, calls, n, p)
  {
    k := 0;
    for i := 0 to n
      invariant k == Below(next, calls, i, p)
    {
      var u := next(calls + i);
      if u < p {
        k := k + 1;
      }
    }
  }

  lemma {:induction false} BelowBounds(next: Stream, i: nat, n: nat, p: real)
    ensures Below(next, i, n, p) <= n
    ensures Drawable(next) && p <= 0.0 ==> Below(next, i, n, p) == 0
    ensures Drawable(next) && p >= 1.0 ==> Below(next, i, n, p) == n
    decreases n
  {
    if n > 0 {
      BelowBounds(next, i, n - 1, p);
    }
  }

  /** At most n successes, none for probability 0 and n for probability 1, for every stream. */
  lemma {:induction false} SuccessBounds(next: Stream, i: nat, n: nat, p: real)
    requires Drawable(next) && 0.0 <= p <= 1.0
    ensures Successes(next, i, n, p) <= n
    ensures p == 0.0 ==> Successes(next, i, n, p) == 0
    ensures p == 1.0 ==> Successes(next, i, n, p) == n
    decreases n
  {
    if n > SMALL && 0.0 < next(i) < 1.0 {
      LeftProbability(n, p, next(i));
      SuccessBounds(next, i + 1, Left(n, p, next(i)).0, Left(n, p, next(i)).1);
    } else {
      BelowBounds(next, i, n, p);
    }
  }

  // ----- why it counts successes -----

  /** Ascending numbers between 0 and 1: the trials, of which those below p succeed. */
  ghost predicate Trials(us: seq<real>) {
    (forall j :: 0 <= j < |us| ==> 0.0 < us[j] < 1.0) && forall i, j :: 0 <= i < j < |us| ==> us[i] < us[j]
  }

  function CountBelow(us: seq<real>, p: real): (r: nat) {
    if us == [] then 0 else CountBelow(us[..|us| - 1], p) + if us[|us| - 1] < p then 1 else 0
  }

  /** The trials below x, seen as a part of the way from 0 to x. */
  function Lower(us: seq<real>, x: real): (r: seq<real>)
    requires x != 0.0
    ensures |r| == |us| && forall j :: 0 <= j < |r| ==> r[j] == us[j] / x
  {
    seq(|us|, j requires 0 <= j < |us| => us[j] / x)
  }

  /** The trials above x, as a part of the way from x to 1. */
  function Upper(us: seq<real>, x: real): (r: seq<real>)
    requires x != 1.0
    ensures |r| == |us| && forall j :: 0 <= j < |r| ==> r[j] == (us[j] - x) / (1.0 - x)
  {
    seq(|us|, j requires 0 <= j < |us| => (us[j] - x) / (1.0 - x))
  }

  /** The calls return what the trials say: the beta number is the median, and the rest of
      the calls look at the trials below or above it. */
  ghost predicate Shows(next: Stream, i: nat, us: seq<real>, p: real)
    requires Trials(us)
    decreases |us|, 1
  {
    if |us| > SMALL then ShowsMedian(next, i, us, p) else forall j :: 0 <= j < |us| ==> next(i + j) == us[j]
  }

  ghost predicate ShowsMedian(next: Stream, i: nat, us: seq<real>, p: real)
    requires Trials(us) && |us| > SMALL
    decreases |us|, 0
  {
    var a := 1 + |us| / 2;
    var x := us[a - 1];
    && next(i) == x
    && if x >= p then LowerTrials(us[..a - 1], x); Shows(next, i + 1, Lower(us[..a - 1], x), p / x)
       else UpperTrials(us[a..], x); Shows(next, i + 1, Upper(us[a..], x), (p - x) / (1.0 - x))
  }

  lemma QuotientLess(p: real, q: real, x: real)
    requires 0.0 < x
    ensures p < q <==> p / x < q / x
  {
    assert p == (p / x) * x && q == (q / x) * x;
  }

  lemma LowerTrials(us: seq<real>, x: real)
    requires Trials(us) && 0.0 < x && forall j :: 0 <= j < |us| ==> us[j] < x
    ensures Trials(Lower(us, x))
  {
    forall j | 0 <= j < |us| ensures 0.0 < us[j] / x < 1.0 {
      QuotientLess(0.0, us[j], x);
      QuotientLess(us[j], x, x);
    }
    forall i, j | 0 <= i < j < |us| ensures us[i] / x < us[j] / x {
      QuotientLess(us[i], us[j], x);
    }
  }

  lemma UpperTrials(us: seq<real>, x: real)
    requires Trials(us) && x < 1.0 && forall j :: 0 <= j < |us| ==> x < us[j]
    ensures Trials(Upper(us, x))
  {
    forall j | 0 <= j < |us| ensures 0.0 < (us[j] - x) / (1.0 - x) < 1.0 {
      QuotientLess(0.0, us[j] - x, 1.0 - x);
      QuotientLess(us[j] - x, 1.0 - x, 1.0 - x);
      Quotient(1.0 - x, 1.0 - x);
    }
    forall i, j | 0 <= i < j < |us| ensures (us[i] - x) / (1.0 - x) < (us[j] - x) / (1.0 - x) {
      QuotientLess(us[i] - x, us[j] - x, 1.0 - x);
    }
  }

  lemma {:induction false} CountSame(us: seq<real>, p: real, vs: seq<real>, q: real)
    requires |us| == |vs| && forall j :: 0 <= j < |us| ==> (us[j] < p <==> vs[j] < q)
    ensures CountBelow(us, p) == CountBelow(vs, q)
    decreases |us|
  {
    if us != [] {
      CountSame(us[..|us| - 1], p, vs[..|vs| - 1], q);
    }
  }

  lemma {:induction false} CountAppend(us: seq<real>, vs: seq<real>, p: real)
    ensures CountBelow(us + vs, p) == CountBelow(us, p) + CountBelow(vs, p)
    decreases |vs|
  {
    if vs == [] {
      assert us + vs == us;
    } else {
      assert (us + vs)[..|us + vs| - 1] == us + vs[..|vs| - 1];
      CountAppend(us, vs[..|vs| - 1], p);
    }
  }

  lemma {:induction false} CountAll(us: seq<real>, p: real)
    ensures (forall j :: 0 <= j < |us| ==> us[j] < p) ==> CountBelow(us, p) == |us|
    ensures (forall j :: 0 <= j < |us| ==> us[j] >= p) ==> CountBelow(us, p) == 0
    decreases |us|
  {
    if us != [] {
      CountAll(us[..|us| - 1], p);
    }
  }

  lemma {:induction false} BelowIsCount(next: Stream, i: nat, us: seq<real>, p: real)
    requires forall j :: 0 <= j < |us| ==> next(i + j) == us[j]
    ensures Below(next, i, |us|, p) == CountBelow(us, p)
    decreases |us|
  {
    if us != [] {
      BelowIsCount(next, i, us[..|us| - 1], p);
    }
  }

  /** The median is not below p: only the trials below it can succeed. */
  lemma CountLower(us: seq<real>, a: nat, x: real, p: real)
    requires Trials(us) && 1 <= a <= |us| && x == us[a - 1] && x >= p
    ensures CountBelow(us, p) == CountBelow(Lower(us[..a - 1], x), p / x)
  {
    assert us == us[..a - 1] + us[a - 1..];
    CountAppend(us[..a - 1], us[a - 1..], p);
    CountAll(us[a - 1..], p);
    forall j | 0 <= j < a - 1 ensures us[j] < p <==> us[j] / x < p / x {
      QuotientLess(us[j], p, x);
    }
    CountSame(us[..a - 1], p, Lower(us[..a - 1], x), p / x);
  }

  lemma CountScaled(vs: seq<real>, x: real, p: real)
    requires x < 1.0
    ensures CountBelow(vs, p) == CountBelow(Upper(vs, x), (p - x) / (1.0 - x))
  {
    forall j | 0 <= j < |vs| ensures vs[j] < p <==> (vs[j] - x) / (1.0 - x) < (p - x) / (1.0 - x) {
      QuotientLess(vs[j] - x, p - x, 1.0 - x);
    }
    CountSame(vs, p, Upper(vs, x), (p - x) / (1.0 - x));
  }

  /** The median is below p: it and the trials below it succeed. */
  lemma CountUpper(us: seq<real>, a: nat, x: real, p: real)
    requires Trials(us) && 1 <= a <= |us| && x == us[a - 1] && x < p
    ensures CountBelow(us, p) == a + CountBelow(Upper(us[a..], x), (p - x) / (1.0 - x))
  {
    var below, above := us[..a], us[a..];
    assert us == below + above;
    CountAppend(below, above, p);
    assert forall j :: 0 <= j < a ==> below[j] <= x;
    CountAll(below, p);
    CountScaled(above, x, p);
  }

  /** When the calls show n trials, the algorithm returns the number of trials below p. */
  lemma {:induction false} CountsTrials(next: Stream, i: nat, us: seq<real>, p: real)
    requires Trials(us) && 0.0 <= p <= 1.0 && Shows(next, i, us, p)
    ensures Successes(next, i, |us|, p) == CountBelow(us, p)
    decreases |us|
  {
    var n := |us|;
    if n > SMALL {
      var a := 1 + n / 2;
      LeftProbability(n, p, us[a - 1]);
      if us[a - 1] >= p {
        LowerCase(next, i, us, a, us[a - 1], p, us[..a - 1]);
      } else {
        UpperCase(next, i, us, a, us[a - 1], p, us[a..], (p - us[a - 1]) / (1.0 - us[a - 1]));
      }
    } else {
      BelowIsCount(next, i, us, p);
    }
  }

  lemma LowerCase(next: Stream, i: nat, us: seq<real>, a: nat, x: real, p: real, vs: seq<real>)
    requires Trials(us) && 0.0 <= p <= 1.0 && |us| > SMALL && a == 1 + |us| / 2 && x == us[a - 1] && x >= p
        && 0.0 <= p / x <= 1.0
    requires vs == us[..a - 1] && ShowsMedian(next, i, us, p)
    ensures Successes(next, i, |us|, p) == CountBelow(us, p)
    decreases |us|, 0
  {
    LowerTrials(vs, x);
    CountsTrials(next, i + 1, Lower(vs, x), p / x);
    CountLower(us, a, x, p);
  }

  lemma UpperCase(next: Stream, i: nat, us: seq<real>, a: nat, x: real, p: real, vs: seq<real>, q: real)
    requires Trials(us) && 0.0 <= p <= 1.0 && |us| > SMALL && a == 1 + |us| / 2 && x == us[a - 1] && x < p
    requires q == (p - x) / (1.0 - x) && 0.0 <= q <= 1.0
    requires vs == us[a..] && ShowsMedian(next, i, us, p)
    ensures Successes(next, i, |us|, p) == CountBelow(us, p)
    decreases |us|, 0
  {
    UpperTrials(vs, x);
    UpperShows(next, i, us, a, x, p, vs);
    UpperCounts(next, i, us, a, x, p, Upper(vs, x), q);
  }

  lemma UpperCounts(next: Stream, i: nat, us: seq<real>, a: nat, x: real, p: real, ws: seq<real>, q: real)
    requires Trials(us) && 0.0 <= q <= 1.0 && |us| > SMALL && a == 1 + |us| / 2 && x == us[a - 1] == next(i) && x < p
    requires q == (p - x) / (1.0 - x) && ws == Upper(us[a..], x) && Trials(ws) && Shows(next, i + 1, ws, q)
    ensures Successes(next, i, |us|, p) == CountBelow(us, p)
    decreases |us|, -1
  {
    CountsTrials(next, i + 1, ws, q);
    CountUpper(us, a, x, p);
    SplitUp(next, i, |us|, p, x, a, |ws|);
  }

  lemma SplitUp(next: Stream, i: nat, n: nat, p: real, x: real, a: nat, m: nat)
    requires n > SMALL && x == next(i) && 0.0 < x < 1.0 && a == 1 + n / 2 && m == n - a && x < p
    ensures Successes(next, i, n, p) == a + Successes(next, i + 1, m, (p - x) / (1.0 - x))
  {
    SplitStep(next, i, n, p, x, a, 1 + n - a);
  }

  lemma UpperShows(next: Stream, i: nat, us: seq<real>, a: nat, x: real, p: real, vs: seq<real>)
    requires Trials(us) && |us| > SMALL && a == 1 + |us| / 2 && x == us[a - 1] && x < p && vs == us[a..]
    requires Trials(Upper(vs, x)) && ShowsMedian(next, i, us, p)
    ensures next(i) == x && Shows(next, i + 1, Upper(vs, x), (p - x) / (1.0 - x))
  {
  }
}
