/** How the normalisation tables are made (internal/unicodenorm/gen/main.go), and why they
    have the properties the normal forms rest on. */
module TableGenerator {
  import opened Prelude
  import opened Hangul
  import opened UnicodeTables

  /** A one-level mapping of the Unicode Character Database. */
  type Mapping = map<Rune, seq<Rune>>

  /** Mappings lead downwards, so that expanding ends. */
  ghost predicate Acyclic(one: Mapping, rank: Rune -> nat) {
    forall r, x :: r in one && x in one[r] ==> rank(x) < rank(r)
  }

  /** Hangul syllables are left to the algorithm and their parts do not decompose. */
  ghost predicate HangulFree(one: Mapping) {
    && (forall r :: r in one ==> !IsSyllable(r) && !IsJamo(r))
    && (forall r, x :: r in one && x in one[r] ==> !IsSyllable(x))
  }

  /** The recursive expansion of one code point. */
  ghost function Full(one: Mapping, rank: Rune -> nat, r: Rune): seq<Rune>
    requires Acyclic(one, rank)
    decreases rank(r), 1, 0
  {
    if r in one then FullAll(one, rank, one[r], rank(r)) else [r]
  }

  ghost function FullAll(one: Mapping, rank: Rune -> nat, s: seq<Rune>, bound: nat): seq<Rune>
    requires Acyclic(one, rank) && forall x :: x in s ==> rank(x) < bound
    decreases bound, 0, |s|
  {
    if s == [] then [] else Full(one, rank, s[0]) + FullAll(one, rank, s[1..], bound)
  }

  ghost function Expanded(one: Mapping, rank: Rune -> nat): Mapping
    requires Acyclic(one, rank)
  {
    map r | r in one :: Full(one, rank, r)
  }

  /** A composite is paired with the two code points it canonically maps to. */
  ghost predicate PairsFrom(pairs: map<(Rune, Rune), Rune>, one: Mapping) {
    forall p :: p in pairs ==> pairs[p] in one && one[pairs[p]] == [p.0, p.1]
  }

  lemma {:induction false} FullIsExpanded(one: Mapping, rank: Rune -> nat, r: Rune)
    requires Acyclic(one, rank) && HangulFree(one) && !IsSyllable(r)
    ensures forall x :: x in Full(one, rank, r) ==> x !in one && !IsSyllable(x)
    decreases rank(r), 1, 0
  {
    if r in one {
      FullAllIsExpanded(one, rank, one[r], rank(r));
    }
  }

  lemma {:induction false} FullAllIsExpanded(one: Mapping, rank: Rune -> nat, s: seq<Rune>, bound: nat)
    requires Acyclic(one, rank) && HangulFree(one)
    requires forall x :: x in s ==> rank(x) < bound && !IsSyllable(x)
    ensures forall x :: x in FullAll(one, rank, s, bound) ==> x !in one && !IsSyllable(x)
    decreases bound, 0, |s|
  {
    if s != [] {
      assert s[0] in s;
      FullIsExpanded(one, rank, s[0]);
      FullAllIsExpanded(one, rank, s[1..], bound);
    }
  }

  lemma DecomposeIsFull(one: Mapping, rank: Rune -> nat, r: Rune)
    requires Acyclic(one, rank) && !IsSyllable(r)
    ensures Decompose(Expanded(one, rank), r) == Full(one, rank, r)
  {
  }

  lemma FullOfPair(one: Mapping, rank: Rune -> nat, c: Rune, a: Rune, b: Rune)
    requires Acyclic(one, rank) && c in one && one[c] == [a, b]
    ensures Full(one, rank, c) == Full(one, rank, a) + Full(one, rank, b)
  {
    var s := one[c];
    assert s[0] in s && s[1] in s;
    var tail := s[1..];
    assert tail == [b] && tail[1..] == [];
    assert FullAll(one, rank, tail, rank(c)) == Full(one, rank, b) + FullAll(one, rank, tail[1..], rank(c));
    AppendEmpty(Full(one, rank, b));
    assert FullAll(one, rank, s, rank(c)) == Full(one, rank, a) + FullAll(one, rank, tail, rank(c));
  }

  /** Tables made this way meet every assumption of the normalisation results, for the
      canonical mapping and for the compatibility mapping that falls back on it. */
  lemma GeneratedExpands(t: Tables, one: Mapping, rank: Rune -> nat)
    requires Acyclic(one, rank) && HangulFree(one) && PairsFrom(t.pairs, one)
    ensures Expands(t, Expanded(one, rank))
  {
    var d := Expanded(one, rank);
    forall r, x | r in d && x in d[r] ensures x !in d && !IsSyllable(x) {
      FullIsExpanded(one, rank, r);
    }
    forall p | p in t.pairs ensures Decompose(d, t.pairs[p]) == Decompose(d, p.0) + Decompose(d, p.1) {
      var c := t.pairs[p];
      assert p.0 in one[c] && p.1 in one[c];
      DecomposeIsFull(one, rank, c);
      DecomposeIsFull(one, rank, p.0);
      DecomposeIsFull(one, rank, p.1);
      FullOfPair(one, rank, c, p.0, p.1);
    }
  }

  /** The compatibility expansion follows the compatibility mapping where there is one. */
  lemma CompatibilityExpands(t: Tables, canonical: Mapping, compat: Mapping, rank: Rune -> nat)
    requires canonical.Keys !! compat.Keys && Acyclic(canonical + compat, rank) && HangulFree(canonical + compat)
    requires PairsFrom(t.pairs, canonical)
    ensures Expands(t, Expanded(canonical + compat, rank))
  {
    assert forall r :: r in canonical ==> (canonical + compat)[r] == canonical[r];
    GeneratedExpands(t, canonical + compat, rank);
  }
}
