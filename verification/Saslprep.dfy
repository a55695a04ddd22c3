/** SASLprep: map, normalise, prohibit, check bidi (RFC 4013; internal/saslprep/saslprep.go). */
module Saslprep {
  import opened Prelude
  import opened Hangul
  import opened UnicodeTables
  import opened CanonicalOrder
  import opened Normalization

  datatype Interval = Interval(lo: Rune, hi: Rune)

  type Table = seq<Interval>

  /** As the generator writes tables: ascending and disjoint. */
  predicate Sorted(t: Table) {
    && (forall i :: 0 <= i < |t| ==> t[i].lo <= t[i].hi)
    && (forall i, j :: 0 <= i < j < |t| ==> t[i].hi < t[j].lo)
  }

  predicate Within(v: Interval, r: Rune) { v.lo <= r <= v.hi }

  predicate Member(t: Table, r: Rune) { exists i :: 0 <= i < |t| && Within(t[i], r) }

  /** Binary search for the first interval that ends at or after `r`. */
  method InTable(t: Table, r: Rune) returns (found: bool)
    requires Sorted(t)
    ensures found <==> Member(t, r)
  {
    var i, j := 0, |t|;
    while i < j
      invariant 0 <= i <= j <= |t|
      invariant forall k :: 0 <= k < i ==> t[k].hi < r
      invariant forall k :: j <= k < |t| ==> t[k].hi >= r
    {
      var h := (i + j) / 2;
      if t[h].hi >= r {
        j := h;
      } else {
        i := h + 1;
      }
    }
    found := i < |t| && t[i].lo <= r;
    if found {
      assert Within(t[i], r);
    }
  }

  // ------------------------------------------------------------------ profile

  /** The RFC 3454 tables: B.1, C.1.2, the prohibited ones (C.1.2 the first), A.1, D.1, D.2. */
  datatype Profile = Profile(b1: Table, c12: Table, banned: seq<Table>, a1: Table, d1: Table, d2: Table) {
    predicate Sound() {
      && Sorted(b1) && Sorted(c12) && Sorted(a1) && Sorted(d1) && Sorted(d2)
      && (forall i :: 0 <= i < |banned| ==> Sorted(banned[i]))
      && banned != [] && banned[0] == c12
    }

    predicate Banned(r: Rune) { exists i :: 0 <= i < |banned| && Member(banned[i], r) }

    /** Prohibited code points; unassigned ones only in stored strings. */
    predicate Prohibited(r: Rune, stored: bool) { (stored && Member(a1, r)) || Banned(r) }
  }

  const SPACE: Rune := 0x20

  function Mapped(p: Profile, s: seq<Rune>): seq<Rune> {
    if s == [] then []
    else
      var r := s[|s| - 1];
      Mapped(p, s[..|s| - 1]) + (if Member(p.b1, r) then [] else if Member(p.c12, r) then [SPACE] else [r])
  }

  predicate Permitted(p: Profile, s: seq<Rune>, stored: bool) {
    forall i :: 0 <= i < |s| ==> !p.Prohibited(s[i], stored)
  }

  predicate HasRandAL(p: Profile, s: seq<Rune>) { exists i :: 0 <= i < |s| && Member(p.d1, s[i]) }

  /** Section 6 of RFC 3454. */
  predicate BidiOk(p: Profile, s: seq<Rune>) {
    HasRandAL(p, s) ==>
      && (forall i :: 0 <= i < |s| ==> !Member(p.d2, s[i]))
      && Member(p.d1, s[0]) && Member(p.d1, s[|s| - 1])
  }

  // -------------------------------------------------------------------- steps

  method MapChars(p: Profile, s: seq<Rune>) returns (out: seq<Rune>)
    requires p.Sound()
    ensures out == Mapped(p, s)
  {
    out := [];
    for i := 0 to |s|
      invariant out == Mapped(p, s[..i])
    {
      assert s[..i + 1][..i] == s[..i];
      var dropped := InTable(p.b1, s[i]);
      var spaced := InTable(p.c12, s[i]);
      if dropped {
        AppendEmpty(out);
      } else {
        out := out + [if spaced then SPACE else s[i]];
      }
    }
    TakeWhole(s);
  }

  method IsProhibited(p: Profile, r: Rune, stored: bool) returns (bad: bool)
    requires p.Sound()
    ensures bad <==> p.Prohibited(r, stored)
  {
    if stored {
      bad := InTable(p.a1, r);
      if bad {
        return;
      }
    }
    for i := 0 to |p.banned|
      invariant forall k :: 0 <= k < i ==> !Member(p.banned[k], r)
    {
      bad := InTable(p.banned[i], r);
      if bad {
        return true;
      }
    }
    return false;
  }

  method CheckProhibited(p: Profile, s: seq<Rune>, stored: bool) returns (ok: bool)
    requires p.Sound()
    ensures ok <==> Permitted(p, s, stored)
  {
    for i := 0 to |s|
      invariant forall k :: 0 <= k < i ==> !p.Prohibited(s[k], stored)
    {
      var bad := IsProhibited(p, s[i], stored);
      if bad {
        return false;
      }
    }
    return true;
  }

  method CheckBidi(p: Profile, s: seq<Rune>) returns (ok: bool)
    requires p.Sound()
    ensures ok <==> BidiOk(p, s)
  {
    var randAL, left := false, false;
    for i := 0 to |s|
      invariant randAL <==> exists k :: 0 <= k < i && Member(p.d1, s[k])
      invariant left <==> exists k :: 0 <= k < i && Member(p.d2, s[k])
    {
      var r := InTable(p.d1, s[i]);
      var l := InTable(p.d2, s[i]);
      randAL, left := randAL || r, left || l;
    }
    if !randAL {
      return true;
    }
    if left {
      return false;
    }
    var first := InTable(p.d1, s[0]);
    var last := InTable(p.d1, s[|s| - 1]);
    return first && last;
  }

  // ------------------------------------------------------------------ prepare

  /** The four steps, in their order. */
  method Prepare(p: Profile, t: Tables, s: seq<Rune>, stored: bool) returns (r: Option<seq<Rune>>)
    requires p.Sound()
    ensures r == Prepared(p, t, s, stored)
  {
    var mapped := MapChars(p, s);
    var normalized := NormalizeString(t, t.compat, mapped);
    var permitted := CheckProhibited(p, normalized, stored);
    if !permitted {
      return None;
    }
    var bidi := CheckBidi(p, normalized);
    return if bidi then Some(normalized) else None;
  }

  ghost function Prepared(p: Profile, t: Tables, s: seq<Rune>, stored: bool): Option<seq<Rune>> {
    var n := NFKC(t, Mapped(p, s));
    if Permitted(p, n, stored) && BidiOk(p, n) then Some(n) else None
  }

  // -------------------------------------------------------------- idempotence

  ghost predicate Avoids(s: seq<Rune>, bad: Rune -> bool) { forall r :: r in s ==> !bad(r) }

  /** Decomposing and composing make no `bad` code point out of others. */
  ghost predicate Closed(t: Tables, d: map<Rune, seq<Rune>>, bad: Rune -> bool) {
    && (forall r :: !bad(r) ==> Avoids(Decompose(d, r), bad))
    && (forall a, b :: ComposePair(t, a, b).Some? ==> !bad(ComposePair(t, a, b).value))
  }

  lemma {:induction false} DecomposeAvoids(t: Tables, d: map<Rune, seq<Rune>>, s: seq<Rune>, bad: Rune -> bool)
    requires Closed(t, d, bad) && Avoids(s, bad)
    ensures Avoids(DecomposeAll(d, s), bad)
  {
    if s != [] {
      var n := |s| - 1;
      assert Avoids(s[..n], bad);
      DecomposeAvoids(t, d, s[..n], bad);
      assert s[n] in s;
    }
  }

  lemma OrderAvoids(ccc: map<Rune, nat>, s: seq<Rune>, bad: Rune -> bool)
    requires Avoids(s, bad)
    ensures Avoids(Order(ccc, s), bad)
  {
    OrderIsPermutation(ccc, s);
    forall r | r in Order(ccc, s) ensures !bad(r) {
      assert r in multiset(Order(ccc, s));
    }
  }

  lemma {:induction false} ComposeAvoids(t: Tables, d: map<Rune, seq<Rune>>, s: seq<Rune>, bad: Rune -> bool)
    requires Closed(t, d, bad) && Avoids(s, bad)
    ensures Avoids(Compose(t, s), bad)
  {
    if s != [] {
      var n := |s| - 1;
      assert Avoids(s[..n], bad);
      ComposeAvoids(t, d, s[..n], bad);
      StepAvoids(t, d, ComposeAll(t, s[..n]), s[n], bad);
    }
  }

  lemma StepAvoids(t: Tables, d: map<Rune, seq<Rune>>, c: Composition, r: Rune, bad: Rune -> bool)
    requires Closed(t, d, bad) && Avoids(c.Text(), bad) && !bad(r)
    ensures Avoids(ComposeStep(t, c, r).Text(), bad)
  {
    assert Avoids(c.before, bad) && Avoids(c.marks, bad);
  }

  lemma NormalizeAvoids(t: Tables, d: map<Rune, seq<Rune>>, s: seq<Rune>, bad: Rune -> bool)
    requires Closed(t, d, bad) && Avoids(s, bad)
    ensures Avoids(Normalize(t, d, s), bad)
  {
    DecomposeAvoids(t, d, s, bad);
    OrderAvoids(t.ccc, DecomposeAll(d, s), bad);
    ComposeAvoids(t, d, Order(t.ccc, DecomposeAll(d, s)), bad);
  }

  lemma {:induction false} MappedAvoids(p: Profile, s: seq<Rune>)
    requires !Member(p.b1, SPACE)
    ensures Avoids(Mapped(p, s), r => Member(p.b1, r))
  {
    if s != [] {
      MappedAvoids(p, s[..|s| - 1]);
    }
  }

  lemma {:induction false} MappedIsFixed(p: Profile, s: seq<Rune>)
    requires forall i :: 0 <= i < |s| ==> !Member(p.b1, s[i]) && !Member(p.c12, s[i])
    ensures Mapped(p, s) == s
  {
    if s != [] {
      MappedIsFixed(p, s[..|s| - 1]);
      MostLast(s);
    }
  }

  /** What was prepared once is left alone, given tables that introduce no Table B.1 character. */
  lemma PrepareIdempotent(p: Profile, t: Tables, s: seq<Rune>, stored: bool)
    requires p.Sound() && Expands(t, t.compat)
    requires Closed(t, t.compat, r => Member(p.b1, r)) && !Member(p.b1, SPACE)
    ensures Prepared(p, t, s, stored).Some? ==>
      Prepared(p, t, Prepared(p, t, s, stored).value, stored) == Prepared(p, t, s, stored)
  {
    var bad := r => Member(p.b1, r);
    var n := NFKC(t, Mapped(p, s));
    if Prepared(p, t, s, stored).Some? {
      MappedAvoids(p, s);
      NormalizeAvoids(t, t.compat, Mapped(p, s), bad);
      forall i | 0 <= i < |n| ensures !Member(p.b1, n[i]) && !Member(p.c12, n[i]) {
        assert n[i] in n && !bad(n[i]) && !p.Prohibited(n[i], stored);
      }
      MappedIsFixed(p, n);
      NFKCIdempotent(t, Mapped(p, s));
    }
  }
}
