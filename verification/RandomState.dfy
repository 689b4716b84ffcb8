/** Saving the generators of all threads in one array and restoring them. */
module RandomState {
  /** Words of a generator's state that are saved, and those the generator has beside them. */
  const DSFMT_N: nat := (19937 - 128) / 104 + 1
  const DSFMT_N64: nat := DSFMT_N * 2
  const WORDS: nat := DSFMT_N64 + 2

  /** A generator: its state words and its position in them. */
  datatype Generator = Generator(words: seq<nat>, idx: nat) {
    ghost predicate Valid() { |words| == WORDS }
  }

  /** Words in the saved array for n generators. */
  function SavedSize(n: nat): (r: nat) { 1 + (DSFMT_N64 + 1) * n }

  /** Where generator t begins in the saved array. */
  function At(t: nat): (r: nat) { 1 + (DSFMT_N64 + 1) * t }

  /** The saved array: the seed, then each generator's position and words. */
  ghost predicate SavedAs(a: seq<nat>, seed: nat, r: seq<Generator>) {
    |a| == SavedSize(|r|) && a[0] == seed && forall t :: 0 <= t < |r| ==> SavedAt(a, t, r[t])
  }

  ghost predicate SavedAt(a: seq<nat>, t: nat, g: Generator) {
    && At(t + 1) <= |a| && DSFMT_N64 <= |g.words| && a[At(t)] == g.idx
    && forall j :: 0 <= j < DSFMT_N64 ==> a[At(t) + 1 + j] == g.words[j]
  }

  /** What restoring makes of g: the saved words and position, the words that are not saved stay. */
  function Restored(g: Generator, saved: Generator): (r: Generator)
    requires g.Valid() && saved.Valid()
  {
    Generator(saved.words[..DSFMT_N64] + g.words[DSFMT_N64..], saved.idx)
  }

  lemma AtStep(t: nat)
    ensures At(t + 1) == At(t) + 1 + DSFMT_N64
  {
  }

  lemma AtMono(t: nat, n: nat)
    requires t < n
    ensures At(t + 1) <= At(n)
  {
  }

  method GetRandomState(r: seq<Generator>, seed: nat) returns (newstate: array<nat>)
    requires forall t :: 0 <= t < |r| ==> r[t].Valid()
    ensures fresh(newstate) && SavedAs(newstate[..], seed, r)
  {
    newstate := new nat[SavedSize(|r|)](i => 0);
    var k := 0;
    newstate[k] := seed;
    k := k + 1;
    var ithread := 0;
    while ithread < |r|
      invariant 0 <= ithread <= |r| && k == At(ithread) && newstate[0] == seed
      invariant forall t :: 0 <= t < ithread ==> SavedAt(newstate[..], t, r[t])
    {
      AtMono(ithread, |r|);
      k := SaveOne(newstate, k, r[ithread], ithread, r);
      ithread := ithread + 1;
    }
  }

  /** One generator, at running index k. */
  method SaveOne(newstate: array<nat>, k0: nat, g: Generator, ithread: nat, ghost r: seq<Generator>) returns (k: nat)
    requires g.Valid() && ithread < |r| && r[ithread] == g && k0 == At(ithread) && At(ithread + 1) <= newstate.Length
    requires forall t :: 0 <= t < ithread ==> SavedAt(newstate[..], t, r[t])
    modifies newstate
    ensures k == At(ithread + 1) && newstate[0] == old(newstate[0])
    ensures forall t :: 0 <= t <= ithread ==> SavedAt(newstate[..], t, r[t])
  {
    AtStep(ithread);
    k := k0;
    newstate[k] := g.idx;
    k := k + 1;
    var j := 0;
    while j < DSFMT_N64
      invariant 0 <= j <= DSFMT_N64 && k == k0 + 1 + j && newstate[k0] == g.idx
      invariant forall i :: 0 <= i < k0 ==> newstate[i] == old(newstate[i])
      invariant forall i :: 0 <= i < j ==> newstate[k0 + 1 + i] == g.words[i]
    {
      newstate[k] := g.words[j];
      k := k + 1;
      j := j + 1;
    }
    forall t | 0 <= t < ithread ensures SavedAt(newstate[..], t, r[t]) {
      AtMono(t, ithread);
      AtStep(t);
      assert SavedAt(old(newstate[..]), t, r[t]);
    }
  }

  /** The first words and the position of one generator. */
  method SetRandomState(r: array<Generator>, t: nat, seedState: seq<nat>, pos: nat)
    requires t < r.Length && r[t].Valid() && |seedState| == DSFMT_N64
    modifies r
    ensures r[t].Valid() && r[t] == Generator(seedState + old(r[t]).words[DSFMT_N64..], pos)
    ensures forall u :: 0 <= u < r.Length && u != t ==> r[u] == old(r[u])
  {
    var words := r[t].words;
    var k := 0;
    while k < DSFMT_N64
      invariant 0 <= k <= DSFMT_N64 && |words| == WORDS
      invariant words[..k] == seedState[..k] && words[k..] == old(r[t]).words[k..]
    {
      words := words[k := seedState[k]];
      k := k + 1;
    }
    assert words == seedState + old(r[t]).words[DSFMT_N64..];
    r[t] := Generator(words, pos);
  }

  /** The seed argument: an array of the right length is a saved state and is restored; it
      gives back the seed and the generators' positions and words. */
  method RestoreRandomState(p0: seq<nat>, r: array<Generator>) returns (initialized: bool, seed: nat)
    requires forall t :: 0 <= t < r.Length ==> r[t].Valid()
    modifies r
    ensures initialized <==> |p0| == SavedSize(r.Length)
    ensures !initialized ==> r[..] == old(r[..])
    ensures forall t :: 0 <= t < r.Length ==> r[t].Valid()
    ensures forall seed0, saved: seq<Generator> ::
              |saved| == r.Length && (forall t :: 0 <= t < |saved| ==> saved[t].Valid())
              && SavedAs(p0, seed0, saved) ==>
                && initialized && seed == seed0
                && forall t :: 0 <= t < r.Length ==> r[t] == Restored(old(r[t]), saved[t])
  {
    initialized, seed := false, 0;
    if |p0| != SavedSize(r.Length) {
      return;
    }
    seed := p0[0];
    LoadAll(p0, r);
    initialized := true;
    forall seed0, saved: seq<Generator> |
      |saved| == r.Length && (forall t :: 0 <= t < |saved| ==> saved[t].Valid()) && SavedAs(p0, seed0, saved)
      ensures seed == seed0 && forall t :: 0 <= t < r.Length ==> r[t] == Restored(old(r[t]), saved[t])
    {
      forall t | 0 <= t < r.Length ensures r[t] == Restored(old(r[t]), saved[t]) {
        AtMono(t, r.Length);
        LoadedIsRestored(p0, t, old(r[t]), r[t], saved[t]);
      }
    }
  }

  /** All generators, with one index running over the array. */
  method LoadAll(p0: seq<nat>, r: array<Generator>)
    requires |p0| == SavedSize(r.Length) && forall t :: 0 <= t < r.Length ==> r[t].Valid()
    modifies r
    ensures forall t :: 0 <= t < r.Length ==> r[t].Valid()
    ensures forall t :: 0 <= t < r.Length ==> LoadedFrom(p0, t, old(r[t]), r[t])
  {
    var k := 1;
    var ithread := 0;
    while ithread < r.Length
      invariant 0 <= ithread <= r.Length && k == At(ithread)
      invariant forall t :: 0 <= t < r.Length ==> r[t].Valid()
      invariant forall t :: ithread <= t < r.Length ==> r[t] == old(r[t])
      invariant forall t :: 0 <= t < ithread ==> LoadedFrom(p0, t, old(r[t]), r[t])
    {
      AtMono(ithread, r.Length);
      AtStep(ithread);
      var pos := p0[k];
      k := k + 1;
      SetRandomState(r, ithread, p0[k..k + DSFMT_N64], pos);
      assert LoadedFrom(p0, ithread, old(r[ithread]), r[ithread]);
      k := k + DSFMT_N64;
      ithread := ithread + 1;
    }
  }

  ghost predicate LoadedFrom(a: seq<nat>, t: nat, g: Generator, g': Generator) {
    AtStep(t);
    g.Valid() && At(t + 1) <= |a| && g' == Generator(a[At(t) + 1..At(t + 1)] + g.words[DSFMT_N64..], a[At(t)])
  }

  lemma LoadedIsRestored(a: seq<nat>, t: nat, g: Generator, g': Generator, saved: Generator)
    requires LoadedFrom(a, t, g, g') && SavedAt(a, t, saved) && saved.Valid()
    ensures g' == Restored(g, saved)
  {
    AtStep(t);
    var w := a[At(t) + 1..At(t + 1)];
    assert |w| == DSFMT_N64;
    forall j | 0 <= j < DSFMT_N64 ensures w[j] == saved.words[j] {
      assert w[j] == a[At(t) + 1 + j];
    }
    assert w == saved.words[..DSFMT_N64];
  }

  /** A generator comes back whole exactly when the words that are not saved are still the same. */
  lemma RestoredWhole(g: Generator, saved: Generator)
    requires g.Valid() && saved.Valid()
    ensures Restored(g, saved) == saved <==> g.words[DSFMT_N64..] == saved.words[DSFMT_N64..]
  {
    assert saved.words == saved.words[..DSFMT_N64] + saved.words[DSFMT_N64..];
    assert Restored(g, saved).words[DSFMT_N64..] == g.words[DSFMT_N64..];
  }

  /** Drawing a number: the next word, after computing new words when they are used up. */
  function Next(regenerate: seq<nat> -> seq<nat>, g: Generator): (r: (nat, Generator))
    requires g.Valid() && forall w: seq<nat> :: |w| == WORDS ==> |regenerate(w)| == WORDS
    ensures r.1.Valid()
  {
    var h := if DSFMT_N64 <= g.idx then Generator(regenerate(g.words), 0) else g;
    (h.words[h.idx], h.(idx := h.idx + 1))
  }

  function Numbers(regenerate: seq<nat> -> seq<nat>, g: Generator, n: nat): (s: seq<nat>)
    requires g.Valid() && forall w: seq<nat> :: |w| == WORDS ==> |regenerate(w)| == WORDS
    ensures |s| == n
    decreases n
  {
    if n == 0 then [] else
      var (x, h) := Next(regenerate, g);
      [x] + Numbers(regenerate, h, n - 1)
  }

  /** Up to the end of the saved words, a restored generator gives the numbers the saved one would give: its words from
      its position on. */
  lemma {:induction false} SameNumbers(regenerate: seq<nat> -> seq<nat>, g: Generator, saved: Generator, n: nat)
    requires forall w: seq<nat> :: |w| == WORDS ==> |regenerate(w)| == WORDS
    requires g.Valid() && saved.Valid() && saved.idx + n <= DSFMT_N64
    ensures Numbers(regenerate, Restored(g, saved), n) == Numbers(regenerate, saved, n)
    ensures forall k :: 0 <= k < n ==> Numbers(regenerate, saved, n)[k] == saved.words[saved.idx + k]
    decreases n
  {
    if n > 0 {
      var g', saved' := Next(regenerate, Restored(g, saved)).1, Next(regenerate, saved).1;
      assert g' == Restored(g, saved');
      SameNumbers(regenerate, g, saved', n - 1);
    }
  }
}
