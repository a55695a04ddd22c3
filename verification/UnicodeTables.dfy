/** The normalisation tables and full decomposition (internal/unicodenorm).

Code points are integers and a string is the sequence of code points that
ranging over it yields.  The generated tables are a value of type `Tables`; the
facts about them that the results need are stated by `Expands`.
*/
module UnicodeTables {
  import opened Prelude
  import opened Hangul

  /** `ccc` lists the non-zero combining classes, `decomp` and `compat` the fully
      expanded canonical and compatibility decompositions, `pairs` the primary
      composites. */
  datatype Tables = Tables(
    ccc: map<Rune, nat>,
    decomp: map<Rune, seq<Rune>>,
    compat: map<Rune, seq<Rune>>,
    pairs: map<(Rune, Rune), Rune>)

  // ---------------------------------------------------------------- lookups

  function Class(ccc: map<Rune, nat>, r: Rune): nat {
    if r in ccc then ccc[r] else 0
  }

  function Decompose(d: map<Rune, seq<Rune>>, r: Rune): seq<Rune> {
    if IsSyllable(r) then HangulDecompose(r)
    else if r in d then d[r]
    else [r]
  }

  function ComposePair(t: Tables, first: Rune, second: Rune): Option<Rune> {
    match HangulCompose(first, second)
    case Some(c) => Some(c)
    case None => if (first, second) in t.pairs then Some(t.pairs[(first, second)]) else None
  }

  /** What the table generator guarantees of a decomposition table `d`: it is
      expanded to a fixed point, leaves Hangul to the algorithm, and maps a pair
      composite to the decompositions of its two parts. */
  ghost predicate Expands(t: Tables, d: map<Rune, seq<Rune>>) {
    && (forall r, x :: r in d && x in d[r] ==> x !in d && !IsSyllable(x))
    && (forall r :: r in d ==> !IsSyllable(r) && !IsJamo(r))
    && (forall p :: p in t.pairs ==> Decompose(d, t.pairs[p]) == Decompose(d, p.0) + Decompose(d, p.1))
  }

  // ---------------------------------------------------------- decomposition

  function DecomposeAll(d: map<Rune, seq<Rune>>, s: seq<Rune>): seq<Rune> {
    if s == [] then [] else DecomposeAll(d, s[..|s| - 1]) + Decompose(d, s[|s| - 1])
  }

  /** No code point of `s` decomposes any further. */
  ghost predicate Decomposed(d: map<Rune, seq<Rune>>, s: seq<Rune>) {
    forall r :: r in s ==> Decompose(d, r) == [r]
  }

  method DecomposeString(d: map<Rune, seq<Rune>>, s: seq<Rune>) returns (out: seq<Rune>)
    ensures out == DecomposeAll(d, s)
  {
    out := [];
    for i := 0 to |s|
      invariant out == DecomposeAll(d, s[..i])
    {
      assert s[..i + 1][..i] == s[..i];
      out := out + Decompose(d, s[i]);
    }
    assert s[..|s|] == s;
  }

  lemma {:induction false} DecomposeAllAppend(d: map<Rune, seq<Rune>>, a: seq<Rune>, b: seq<Rune>)
    ensures DecomposeAll(d, a + b) == DecomposeAll(d, a) + DecomposeAll(d, b)
  {
    if b == [] {
      AppendEmpty(a);
      AppendEmpty(DecomposeAll(d, a));
    } else {
      var n := |b| - 1;
      DecomposeAllAppend(d, a, b[..n]);
      MostOfAppend(a, b);
      Assoc(DecomposeAll(d, a), DecomposeAll(d, b[..n]), Decompose(d, b[n]));
    }
  }

  lemma {:induction false} DecomposedIsFixed(d: map<Rune, seq<Rune>>, s: seq<Rune>)
    requires Decomposed(d, s)
    ensures DecomposeAll(d, s) == s
  {
    if s != [] {
      var n := |s| - 1;
      forall r | r in s[..n] ensures Decompose(d, r) == [r] {}
      DecomposedIsFixed(d, s[..n]);
      assert s == s[..n] + [s[n]];
      assert Decompose(d, s[n]) == [s[n]];
    }
  }

  lemma {:induction false} DecomposeAllIsDecomposed(t: Tables, d: map<Rune, seq<Rune>>, s: seq<Rune>)
    requires Expands(t, d)
    ensures Decomposed(d, DecomposeAll(d, s))
  {
    if s != [] {
      DecomposeAllIsDecomposed(t, d, s[..|s| - 1]);
      var r := s[|s| - 1];
      if IsSyllable(r) {
        HangulDecomposeIsJamo(r);
      }
    }
  }

  /** A composite, algorithmic or from the table, decomposes to the decompositions of its parts. */
  lemma CompositeDecomposes(t: Tables, d: map<Rune, seq<Rune>>, first: Rune, second: Rune)
    requires Expands(t, d) && ComposePair(t, first, second).Some?
    ensures Decompose(d, ComposePair(t, first, second).value) == Decompose(d, first) + Decompose(d, second)
  {
    if HangulCompose(first, second).Some? {
      HangulCompositeDecomposes(first, second);
    } else {
      assert (first, second) in t.pairs;
    }
  }
}
