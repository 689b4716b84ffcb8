/** Filling an array with random numbers by several threads, each with a generator
of its own: whatever the interleaving, the array and the generators come out the same. */
module RandomFill {
  /** A generator draws a value and moves on; nothing is known of it but that. */
  type Draw<!G, V> = G -> (V, G)

  function Advance<G, V>(draw: Draw<G, V>, g: G, n: nat): (r: G) {
    if n == 0 then g else draw(Advance(draw, g, n - 1)).1
  }

  /** The value drawn by g after k others. */
  function Drawn<G, V>(draw: Draw<G, V>, g: G, k: nat): (r: V) { draw(Advance(draw, g, k)).0 }

  /** The first value is the generator's next, and the others are those it gives after that. */
  lemma {:induction false} DrawnInOrder<G, V>(draw: Draw<G, V>, g: G, k: nat)
    ensures Drawn(draw, g, 0) == draw(g).0
    ensures Advance(draw, g, k + 1) == Advance(draw, draw(g).1, k) && Drawn(draw, g, k + 1) == Drawn(draw, draw(g).1, k)
    decreases k
  {
    assert Advance(draw, g, 0) == g;
    if k > 0 {
      DrawnInOrder(draw, g, k - 1);
    }
  }

  // ----- the chunks -----

  function Start(nEl: nat, n: nat, t: nat): (r: nat)
    requires t < n
  {
    t * (nEl / n)
  }

  /** The last thread takes what the others leave. */
  function Stop(nEl: nat, n: nat, t: nat): (r: nat)
    requires t < n
  {
    if t != n - 1 then Start(nEl, n, t) + nEl / n else nEl
  }

  lemma ChunkStep(nEl: nat, n: nat, t: nat)
    requires t < n
    ensures Start(nEl, n, t) <= Stop(nEl, n, t) <= nEl
    ensures t + 1 < n ==> Stop(nEl, n, t) == Start(nEl, n, t + 1)
  {
    var c := nEl / n;
    Share(nEl, n, c);
    Multiples(t, n, c);
  }

  /** All chunks but the last are equal; the last is longer by less than the number of threads. */
  lemma ChunkSizes(nEl: nat, n: nat, t: nat)
    requires t < n
    ensures Start(nEl, n, 0) == 0 && Stop(nEl, n, n - 1) == nEl
    ensures t + 1 < n ==> Stop(nEl, n, t) - Start(nEl, n, t) == Stop(nEl, n, 0) - Start(nEl, n, 0)
    ensures Stop(nEl, n, 0) - Start(nEl, n, 0) <= Stop(nEl, n, n - 1) - Start(nEl, n, n - 1)
    ensures n > 1 ==> Stop(nEl, n, n - 1) - Start(nEl, n, n - 1) < Stop(nEl, n, 0) - Start(nEl, n, 0) + n
  {
    var c := nEl / n;
    Share(nEl, n, c);
    Multiples(n - 1, n, c);
    assert nEl == n * c + nEl % n;
  }

  lemma Share(nEl: nat, n: nat, c: nat)
    requires 0 < n && c == nEl / n
    ensures n * c <= nEl
  {
  }

  lemma MulMono(x: nat, y: nat, z: nat)
    requires x <= y
    ensures x * z <= y * z
  {
  }

  lemma Multiples(t: nat, n: nat, c: nat)
    requires t < n
    ensures 0 <= t * c && (t + 1) * c == t * c + c && (t + 1) * c <= n * c
  {
    MulMono(t + 1, n, c);
    MulMono(0, t, c);
  }

  lemma {:induction false} ChunksAscend(nEl: nat, n: nat, t: nat, t': nat)
    requires t < t' < n
    ensures Stop(nEl, n, t) <= Start(nEl, n, t')
    decreases t'
  {
    ChunkStep(nEl, n, t' - 1);
    if t < t' - 1 {
      ChunksAscend(nEl, n, t, t' - 1);
    }
  }

  /** The thread whose chunk holds index i. */
  lemma {:induction false} Owner(nEl: nat, n: nat, i: nat, m: nat) returns (t: nat)
    requires i < nEl && 0 < m <= n && i < Stop(nEl, n, m - 1)
    ensures t < m && Start(nEl, n, t) <= i < Stop(nEl, n, t)
    decreases m
  {
    t := m - 1;
    if i < Start(nEl, n, t) {
      ChunkStep(nEl, n, t - 1);
      t := Owner(nEl, n, i, m - 1);
    }
  }

  // ----- threads as interleaved steps -----

  datatype Option<T> = None | Some(value: T)

  /** A thread between its steps: its loop index, and the value it drew but has not written. */
  datatype Thread<V> = Thread(i: nat, drawn: Option<V>)

  /** writes counts how often each element was written. */
  datatype State<G, V> = State(res: seq<V>, writes: seq<nat>, gens: seq<G>, threads: seq<Thread<V>>)

  function Begin<G, V>(res: seq<V>, gens: seq<G>): (r: State<G, V>) {
    State(res, seq(|res|, i => 0), gens,
          seq(|gens|, t requires 0 <= t < |gens| => Thread(Start(|res|, |gens|, t), None)))
  }

  ghost predicate Shape<G, V>(s: State<G, V>) {
    |s.writes| == |s.res| && |s.threads| == |s.gens| && 0 < |s.gens|
  }

  /** Thread t draws a value, or writes the one it drew; nothing when it is finished. */
  function Step<G, V>(draw: Draw<G, V>, s: State<G, V>, t: nat): (s': State<G, V>)
    requires Shape(s) && t < |s.gens|
    ensures Shape(s') && |s'.res| == |s.res| && |s'.gens| == |s.gens|
  {
    var th := s.threads[t];
    if th.drawn.Some? then
      if th.i < |s.res| then
        s.(res := s.res[th.i := th.drawn.value], writes := s.writes[th.i := s.writes[th.i] + 1],
           threads := s.threads[t := Thread(th.i + 1, None)])
      else s
    else if th.i < Stop(|s.res|, |s.gens|, t) then
      var (v, g) := draw(s.gens[t]);
      s.(gens := s.gens[t := g], threads := s.threads[t := Thread(th.i, Some(v))])
    else s
  }

  ghost predicate InRange(order: seq<nat>, n: nat) { forall j :: 0 <= j < |order| ==> order[j] < n }

  /** The steps of the threads in the given order. */
  function Run<G, V>(draw: Draw<G, V>, s: State<G, V>, order: seq<nat>): (s': State<G, V>)
    requires Shape(s) && InRange(order, |s.gens|)
    ensures Shape(s') && |s'.res| == |s.res| && |s'.gens| == |s.gens|
    decreases |order|
  {
    if order == [] then s else Run(draw, Step(draw, s, order[0]), order[1..])
  }

  ghost predicate Finished<G, V>(s: State<G, V>)
    requires Shape(s)
  {
    forall t :: 0 <= t < |s.gens| ==> s.threads[t] == Thread(Stop(|s.res|, |s.gens|, t), None)
  }

  /** What thread t has done so far, since it started with generator g. */
  ghost predicate ThreadSound<G, V>(draw: Draw<G, V>, s0: State<G, V>, s: State<G, V>, t: nat)
    requires Shape(s0) && Shape(s) && |s.res| == |s0.res| && |s.gens| == |s0.gens| && t < |s.gens|
  {
    var (start, stop, th, g) := (Start(|s.res|, |s.gens|, t), Stop(|s.res|, |s.gens|, t), s.threads[t], s0.gens[t]);
    && start <= th.i <= stop && (th.drawn.Some? ==> th.i < stop)
    && s.gens[t] == Advance(draw, g, th.i - start + if th.drawn.Some? then 1 else 0)
    && (th.drawn.Some? ==> th.drawn.value == Drawn(draw, g, th.i - start))
    && (forall i :: start <= i < th.i && i < |s.res| ==> s.res[i] == Drawn(draw, g, i - start) && s.writes[i] == 1)
    && (forall i :: th.i <= i < stop && i < |s.res| ==> s.res[i] == s0.res[i] && s.writes[i] == 0)
  }

  ghost predicate Sound<G, V>(draw: Draw<G, V>, s0: State<G, V>, s: State<G, V>) {
    Shape(s0) && Shape(s) && |s.res| == |s0.res| && |s.gens| == |s0.gens|
    && forall t :: 0 <= t < |s.gens| ==> ThreadSound(draw, s0, s, t)
  }

  lemma BeginSound<G, V>(draw: Draw<G, V>, res: seq<V>, gens: seq<G>)
    requires 0 < |gens|
    ensures Sound(draw, Begin(res, gens), Begin(res, gens))
  {
    var s := Begin(res, gens);
    forall t | 0 <= t < |gens| ensures ThreadSound(draw, s, s, t) {
      ChunkStep(|res|, |gens|, t);
      assert Advance(draw, gens[t], 0) == gens[t];
    }
  }

  /** Another thread's step leaves a thread's chunk alone. */
  lemma OtherSound<G, V>(draw: Draw<G, V>, s0: State<G, V>, s: State<G, V>, t: nat, u: nat)
    requires Sound(draw, s0, s) && t < |s.gens| && u < |s.gens| && t != u
    ensures ThreadSound(draw, s0, Step(draw, s, t), u)
  {
    assert ThreadSound(draw, s0, s, t) && ThreadSound(draw, s0, s, u);
    ChunkStep(|s.res|, |s.gens|, t);
    ChunkStep(|s.res|, |s.gens|, u);
    if t < u {
      ChunksAscend(|s.res|, |s.gens|, t, u);
    } else {
      ChunksAscend(|s.res|, |s.gens|, u, t);
    }
  }

  lemma OwnSound<G, V>(draw: Draw<G, V>, s0: State<G, V>, s: State<G, V>, t: nat)
    requires Sound(draw, s0, s) && t < |s.gens|
    ensures ThreadSound(draw, s0, Step(draw, s, t), t)
  {
    assert ThreadSound(draw, s0, s, t);
    ChunkStep(|s.res|, |s.gens|, t);
  }

  lemma StepSound<G, V>(draw: Draw<G, V>, s0: State<G, V>, s: State<G, V>, t: nat)
    requires Sound(draw, s0, s) && t < |s.gens|
    ensures Sound(draw, s0, Step(draw, s, t))
  {
    var s' := Step(draw, s, t);
    forall u | 0 <= u < |s'.gens| ensures ThreadSound(draw, s0, s', u) {
      if u == t {
        OwnSound(draw, s0, s, t);
      } else {
        OtherSound(draw, s0, s, t, u);
      }
    }
  }

  lemma {:induction false} RunSound<G, V>(draw: Draw<G, V>, s0: State<G, V>, s: State<G, V>, order: seq<nat>)
    requires Sound(draw, s0, s) && InRange(order, |s.gens|)
    ensures Sound(draw, s0, Run(draw, s, order))
    decreases |order|
  {
    if order != [] {
      StepSound(draw, s0, s, order[0]);
      RunSound(draw, s0, Step(draw, s, order[0]), order[1..]);
    }
  }

  /** The array filled by one thread after the other. */
  ghost predicate FilledInTurn<G, V>(draw: Draw<G, V>, gens: seq<G>, res: seq<V>, gens': seq<G>) {
    && 0 < |gens| == |gens'|
    && (forall t :: 0 <= t < |gens|
          ==> ChunkFilled(draw, gens[t], res, Start(|res|, |gens|, t), Stop(|res|, |gens|, t), gens'[t]))
  }

  ghost predicate ChunkFilled<G, V>(draw: Draw<G, V>, g: G, res: seq<V>, start: nat, stop: nat, g': G) {
    && start <= stop <= |res| && g' == Advance(draw, g, stop - start)
    && forall i :: start <= i < stop ==> res[i] == Drawn(draw, g, i - start)
  }

  /** There is one way an array can be filled. */
  lemma FilledOnce<G, V>(draw: Draw<G, V>, gens: seq<G>, res: seq<V>, g1: seq<G>, res': seq<V>, g2: seq<G>)
    requires FilledInTurn(draw, gens, res, g1) && FilledInTurn(draw, gens, res', g2) && |res| == |res'|
    ensures res == res' && g1 == g2
  {
    forall i | 0 <= i < |res| ensures res[i] == res'[i] {
      var t := Owner(|res|, |gens|, i, |gens|);
      assert ChunkFilled(draw, gens[t], res, Start(|res|, |gens|, t), Stop(|res|, |gens|, t), g1[t]);
      assert ChunkFilled(draw, gens[t], res', Start(|res|, |gens|, t), Stop(|res|, |gens|, t), g2[t]);
    }
    forall t | 0 <= t < |gens| ensures g1[t] == g2[t] {
      assert ChunkFilled(draw, gens[t], res, Start(|res|, |gens|, t), Stop(|res|, |gens|, t), g1[t]);
      assert ChunkFilled(draw, gens[t], res', Start(|res|, |gens|, t), Stop(|res|, |gens|, t), g2[t]);
    }
  }

  /** However the threads' steps are interleaved, once they are finished the array and the
      generators are what the threads running one after the other give, and each element
      was written exactly once. */
  lemma AnyInterleaving<G, V>(draw: Draw<G, V>, res: seq<V>, gens: seq<G>, order: seq<nat>)
    requires 0 < |gens| && InRange(order, |gens|) && Finished(Run(draw, Begin(res, gens), order))
    ensures FilledInTurn(draw, gens, Run(draw, Begin(res, gens), order).res, Run(draw, Begin(res, gens), order).gens)
    ensures forall i :: 0 <= i < |res| ==> Run(draw, Begin(res, gens), order).writes[i] == 1
  {
    var s0 := Begin(res, gens);
    BeginSound(draw, res, gens);
    RunSound(draw, s0, s0, order);
    var s := Run(draw, s0, order);
    forall t | 0 <= t < |gens|
      ensures ChunkFilled(draw, gens[t], s.res, Start(|s.res|, |gens|, t), Stop(|s.res|, |gens|, t), s.gens[t])
    {
      assert ThreadSound(draw, s0, s, t);
      ChunkStep(|res|, |gens|, t);
    }
    forall i | 0 <= i < |res| ensures s.writes[i] == 1 {
      var t := Owner(|res|, |gens|, i, |gens|);
      assert ThreadSound(draw, s0, s, t);
    }
  }

  lemma TwoInterleavings<G, V>(draw: Draw<G, V>, res: seq<V>, gens: seq<G>, order: seq<nat>, order': seq<nat>)
    requires 0 < |gens| && InRange(order, |gens|) && InRange(order', |gens|)
    requires Finished(Run(draw, Begin(res, gens), order)) && Finished(Run(draw, Begin(res, gens), order'))
    ensures Run(draw, Begin(res, gens), order).res == Run(draw, Begin(res, gens), order').res
    ensures Run(draw, Begin(res, gens), order).gens == Run(draw, Begin(res, gens), order').gens
  {
    var s, s' := Run(draw, Begin(res, gens), order), Run(draw, Begin(res, gens), order');
    AnyInterleaving(draw, res, gens, order);
    AnyInterleaving(draw, res, gens, order');
    FilledOnce(draw, gens, s.res, s.gens, s'.res, s'.gens);
  }

  // ----- every fair schedule finishes -----

  function Count(order: seq<nat>, t: nat): (r: nat)
    decreases |order|
  {
    if order == [] then 0 else (if order[0] == t then 1 else 0) + Count(order[1..], t)
  }

  /** The steps thread t has left. */
  ghost function ToGo<G, V>(s: State<G, V>, t: nat): (r: int)
    requires Shape(s) && t < |s.gens|
  {
    2 * (Stop(|s.res|, |s.gens|, t) - s.threads[t].i) - if s.threads[t].drawn.Some? then 1 else 0
  }

  lemma StepToGo<G, V>(draw: Draw<G, V>, s0: State<G, V>, s: State<G, V>, t: nat, u: nat)
    requires Sound(draw, s0, s) && t < |s.gens| && u < |s.gens|
    ensures 0 <= ToGo(s, u)
    ensures ToGo(Step(draw, s, t), u) == if t == u && 0 < ToGo(s, u) then ToGo(s, u) - 1 else ToGo(s, u)
  {
    assert ThreadSound(draw, s0, s, t) && ThreadSound(draw, s0, s, u);
    ChunkStep(|s.res|, |s.gens|, t);
  }

  /** The threads are finished exactly when each has had two steps for each element of its chunk. */
  lemma {:induction false} RunToGo<G, V>(draw: Draw<G, V>, s0: State<G, V>, s: State<G, V>, order: seq<nat>, u: nat)
    requires Sound(draw, s0, s) && InRange(order, |s.gens|) && u < |s.gens|
    ensures 0 <= ToGo(s, u)
    ensures ToGo(Run(draw, s, order), u) == if Count(order, u) < ToGo(s, u) then ToGo(s, u) - Count(order, u) else 0
    decreases |order|
  {
    if order != [] {
      StepToGo(draw, s0, s, order[0], u);
      StepSound(draw, s0, s, order[0]);
      RunToGo(draw, s0, Step(draw, s, order[0]), order[1..], u);
    } else {
      StepToGo(draw, s0, s, u, u);
    }
  }

  lemma FinishedExactly<G, V>(draw: Draw<G, V>, res: seq<V>, gens: seq<G>, order: seq<nat>)
    requires 0 < |gens| && InRange(order, |gens|)
    ensures Finished(Run(draw, Begin(res, gens), order))
            <==> forall t :: 0 <= t < |gens|
                   ==> 2 * (Stop(|res|, |gens|, t) - Start(|res|, |gens|, t)) <= Count(order, t)
  {
    var s0 := Begin(res, gens);
    BeginSound(draw, res, gens);
    RunSound(draw, s0, s0, order);
    var s := Run(draw, s0, order);
    forall t | 0 <= t < |gens|
      ensures s.threads[t] == Thread(Stop(|res|, |gens|, t), None)
          <==> 2 * (Stop(|res|, |gens|, t) - Start(|res|, |gens|, t)) <= Count(order, t)
    {
      RunToGo(draw, s0, s0, order, t);
      assert ThreadSound(draw, s0, s, t);
    }
  }

  // ----- one thread after the other -----

  /** The loop of one thread. */
  method FillChunk<G, V>(draw: Draw<G, V>, res: array<V>, r: array<G>, t: nat)
    requires t < r.Length && res != r as object
    modifies res, r
    ensures ChunkFilled(draw, old(r[t]), res[..], Start(res.Length, r.Length, t), Stop(res.Length, r.Length, t), r[t])
    ensures forall i :: 0 <= i < res.Length && !(Start(res.Length, r.Length, t) <= i < Stop(res.Length, r.Length, t))
              ==> res[i] == old(res[i])
    ensures forall u :: 0 <= u < r.Length && u != t ==> r[u] == old(r[u])
  {
    ChunkStep(res.Length, r.Length, t);
    var start_index := t * (res.Length / r.Length);
    var stop_index := if t != r.Length - 1 then start_index + res.Length / r.Length else res.Length;
    var i := start_index;
    while i < stop_index
      invariant start_index <= i <= stop_index
      invariant ChunkFilled(draw, old(r[t]), res[..], start_index, i, r[t])
      invariant forall k :: 0 <= k < res.Length && !(start_index <= k < i) ==> res[k] == old(res[k])
      invariant forall u :: 0 <= u < r.Length && u != t ==> r[u] == old(r[u])
    {
      var (v, g) := draw(r[t]);
      res[i], r[t] := v, g;
      i := i + 1;
    }
  }

  method Fill<G, V>(draw: Draw<G, V>, res: array<V>, r: array<G>)
    requires 0 < r.Length && res != r as object
    modifies res, r
    ensures FilledInTurn(draw, old(r[..]), res[..], r[..])
  {
    var t := 0;
    while t < r.Length
      invariant 0 <= t <= r.Length
      invariant forall u :: t <= u < r.Length ==> r[u] == old(r[u])
      invariant forall u :: 0 <= u < t ==>
                  ChunkFilled(draw, old(r[u]), res[..], Start(res.Length, r.Length, u), Stop(res.Length, r.Length, u),
                              r[u])
    {
      ghost var before := res[..];
      FillChunk(draw, res, r, t);
      forall u | 0 <= u < t
        ensures ChunkFilled(draw, old(r[u]), res[..], Start(res.Length, r.Length, u), Stop(res.Length, r.Length, u),
                            r[u])
      {
        assert ChunkFilled(draw, old(r[u]), before, Start(res.Length, r.Length, u), Stop(res.Length, r.Length, u),
                           r[u]);
        ChunksAscend(res.Length, r.Length, u, t);
      }
      t := t + 1;
    }
  }
}
