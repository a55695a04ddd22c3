/** Canonical composition and the normalisation forms NFC and NFKC
(internal/unicodenorm/norm.go). */
module Normalization {
  import opened Prelude
  import opened Hangul
  import opened UnicodeTables
  import opened CanonicalOrder

  // ------------------------------------------------- composition, reference

  /** Composed text split at the last starter: `marks` are the code points kept after it. */
  datatype Composition = Composition(before: seq<Rune>, starter: Option<Rune>, marks: seq<Rune>) {
    function Text(): seq<Rune> {
      before + (if starter.Some? then [starter.value] else []) + marks
    }
  }

  /** Definition D115 of the Unicode Standard: something between the starter and
      `r` has class zero or a class not below that of `r`. */
  ghost predicate Blocked(ccc: map<Rune, nat>, marks: seq<Rune>, r: Rune) {
    exists m :: m in marks && (Class(ccc, m) == 0 || Class(ccc, m) >= Class(ccc, r))
  }

  ghost function ComposeStep(t: Tables, c: Composition, r: Rune): Composition {
    if c.starter.Some? && !Blocked(t.ccc, c.marks, r) && ComposePair(t, c.starter.value, r).Some? then
      c.(starter := ComposePair(t, c.starter.value, r))
    else if Class(t.ccc, r) == 0 then
      Composition(c.Text(), Some(r), [])
    else
      c.(marks := c.marks + [r])
  }

  ghost function ComposeAll(t: Tables, s: seq<Rune>): Composition {
    if s == [] then Composition([], None, [])
    else ComposeStep(t, ComposeAll(t, s[..|s| - 1]), s[|s| - 1])
  }

  ghost function Compose(t: Tables, s: seq<Rune>): seq<Rune> {
    ComposeAll(t, s).Text()
  }

  // ------------------------------------------------------ composition, loop

  /** The highest class among `marks`, or -1 when there are none. */
  ghost predicate IsHighest(ccc: map<Rune, nat>, marks: seq<Rune>, blocking: int) {
    && (marks == [] ==> blocking == -1)
    && (marks != [] ==> exists m :: m in marks && Class(ccc, m) == blocking)
    && (forall m :: m in marks ==> 0 < Class(ccc, m) <= blocking)
  }

  /** The running maximum decides exactly the blocking rule. */
  lemma HighestDecidesBlocked(ccc: map<Rune, nat>, marks: seq<Rune>, blocking: int, r: Rune)
    ensures IsHighest(ccc, marks, blocking) ==> (blocking >= Class(ccc, r) <==> Blocked(ccc, marks, r))
  {
  }

  /** One pass with a starter index and a running maximum of classes. */
  method ComposeRunes(t: Tables, runes: seq<Rune>) returns (out: seq<Rune>)
    ensures out == Compose(t, runes)
  {
    if |runes| == 0 {
      return runes;
    }
    out := [runes[0]];
    var starterIdx := 0;
    if Class(t.ccc, runes[0]) != 0 {
      starterIdx := -1;
    }
    var blockingClass := -1;
    assert runes[..1][..0] == [];
    var k := 1;
    while k < |runes|
      invariant 1 <= k <= |runes|
      invariant Tracks(t, ComposeAll(t, runes[..k]), out, starterIdx, blockingClass)
    {
      out, starterIdx, blockingClass :=
        ComposeOne(t, out, starterIdx, blockingClass, runes[k], ComposeAll(t, runes[..k]));
      assert runes[..k + 1][..k] == runes[..k];
      k := k + 1;
    }
    assert runes[..|runes|] == runes;
  }

  /** The body of the loop, for one code point. */
  method ComposeOne(t: Tables, text: seq<Rune>, starter: int, blocking: int, r: Rune, ghost c: Composition)
    returns (out: seq<Rune>, starterIdx: int, blockingClass: int)
    requires Tracks(t, c, text, starter, blocking)
    ensures Tracks(t, ComposeStep(t, c, r), out, starterIdx, blockingClass)
  {
    out, starterIdx, blockingClass := text, starter, blocking;
    HighestDecidesBlocked(t.ccc, c.marks, blocking, r);
    if starter >= 0 && blocking < Class(t.ccc, r) && ComposePair(t, text[starter], r).Some? {
      var composite := ComposePair(t, text[starter], r).value;
      TextWithStarter(c, composite);
      out := text[starter := composite];
      return;
    }
    TextAppend(c, r);
    HighestExtends(t.ccc, c.marks, blocking, r);
    out := text + [r];
    if Class(t.ccc, r) == 0 {
      starterIdx := |out| - 1;
      blockingClass := -1;
    } else if starter >= 0 {
      blockingClass := Max(blocking, Class(t.ccc, r));
    }
  }

  lemma TextWithStarter(c: Composition, r: Rune)
    requires c.starter.Some?
    ensures c.Text()[|c.before|] == c.starter.value
    ensures c.(starter := Some(r)).Text() == c.Text()[|c.before| := r]
  {
  }

  lemma TextAppend(c: Composition, r: Rune)
    ensures c.(marks := c.marks + [r]).Text() == c.Text() + [r]
    ensures Composition(c.Text(), Some(r), []).Text() == c.Text() + [r]
  {
  }

  lemma HighestExtends(ccc: map<Rune, nat>, marks: seq<Rune>, blocking: int, r: Rune)
    ensures IsHighest(ccc, marks, blocking) && Class(ccc, r) != 0 ==>
              IsHighest(ccc, marks + [r], Max(blocking, Class(ccc, r)))
  {
    if IsHighest(ccc, marks, blocking) && Class(ccc, r) != 0 {
      var m :| m in marks + [r] && (if Class(ccc, r) >= blocking then m == r else Class(ccc, m) == blocking);
      assert Class(ccc, m) == Max(blocking, Class(ccc, r));
    }
  }

  /** How the loop's variables present the reference state. */
  ghost predicate Tracks(t: Tables, c: Composition, out: seq<Rune>, starterIdx: int, blocking: int) {
    && out == c.Text()
    && (c.starter.None? ==> starterIdx == -1 && c.before == [])
    && (c.starter.Some? ==> starterIdx == |c.before| && IsHighest(t.ccc, c.marks, blocking))
  }

  // -------------------------------------------------------------- main result

  lemma {:induction false} MarksAreMarks(t: Tables, s: seq<Rune>)
    ensures var c := ComposeAll(t, s);
            forall m :: m in c.marks ==> m in s && Class(t.ccc, m) != 0
  {
    if s != [] {
      MarksAreMarks(t, s[..|s| - 1]);
    }
  }

  lemma DecomposedText(t: Tables, d: map<Rune, seq<Rune>>, c: Composition)
    requires Decomposed(d, c.marks)
    ensures DecomposeAll(d, c.Text())
         == DecomposeAll(d, c.before) + (if c.starter.Some? then Decompose(d, c.starter.value) else []) + c.marks
  {
    var s := if c.starter.Some? then [c.starter.value] else [];
    DecomposeAllAppend(d, c.before + s, c.marks);
    DecomposeAllAppend(d, c.before, s);
    DecomposedIsFixed(d, c.marks);
  }

  lemma RedecomposeComposite(t: Tables, d: map<Rune, seq<Rune>>, c: Composition, r: Rune, composite: Rune)
    requires Decomposed(d, c.marks) && c.starter.Some?
    requires Decompose(d, composite) == Decompose(d, c.starter.value) + [r]
    requires forall m :: m in c.marks ==> 0 < Class(t.ccc, m) < Class(t.ccc, r)
    ensures Order(t.ccc, DecomposeAll(d, c.(starter := Some(composite)).Text()))
         == Order(t.ccc, DecomposeAll(d, c.Text()) + [r])
  {
    DecomposedText(t, d, c);
    DecomposedText(t, d, c.(starter := Some(composite)));
    var a := DecomposeAll(d, c.before) + Decompose(d, c.starter.value);
    Assoc(DecomposeAll(d, c.before), Decompose(d, c.starter.value), [r]);
    OrderExchange(t.ccc, a, r, c.marks);
  }

  lemma RedecomposeStep(t: Tables, d: map<Rune, seq<Rune>>, c: Composition, r: Rune)
    requires Decomposed(d, c.marks) && Decompose(d, r) == [r]
    requires forall m :: m in c.marks ==> Class(t.ccc, m) != 0
    requires c.starter.Some? && ComposePair(t, c.starter.value, r).Some? ==>
               Decompose(d, ComposePair(t, c.starter.value, r).value) == Decompose(d, c.starter.value) + [r]
    ensures Order(t.ccc, DecomposeAll(d, ComposeStep(t, c, r).Text()))
         == Order(t.ccc, DecomposeAll(d, c.Text()) + [r])
  {
    if c.starter.Some? && !Blocked(t.ccc, c.marks, r) && ComposePair(t, c.starter.value, r).Some? {
      RedecomposeComposite(t, d, c, r, ComposePair(t, c.starter.value, r).value);
    } else {
      TextAppend(c, r);
      assert (c.Text() + [r])[..|c.Text()|] == c.Text();
    }
  }

  lemma MostOfOrdered(t: Tables, d: map<Rune, seq<Rune>>, s: seq<Rune>)
    requires s != [] && Decomposed(d, s) && Ordered(t.ccc, s)
    ensures var n := |s| - 1;
            && Decomposed(d, s[..n]) && Decompose(d, s[n]) == [s[n]]
            && Ordered(t.ccc, s[..n]) && Insert(t.ccc, s[..n], s[n]) == s
  {
    MostLast(s);
    forall r | r in s[..|s| - 1] ensures Decompose(d, r) == [r] {}
  }

  lemma MarksDecomposed(t: Tables, d: map<Rune, seq<Rune>>, s: seq<Rune>)
    requires Decomposed(d, s)
    ensures Decomposed(d, ComposeAll(t, s).marks)
  {
    MarksAreMarks(t, s);
  }

  lemma CompositeOfStarter(t: Tables, d: map<Rune, seq<Rune>>, c: Composition, r: Rune)
    requires Expands(t, d) && Decompose(d, r) == [r]
    ensures c.starter.Some? && ComposePair(t, c.starter.value, r).Some? ==>
              Decompose(d, ComposePair(t, c.starter.value, r).value) == Decompose(d, c.starter.value) + [r]
  {
    if c.starter.Some? && ComposePair(t, c.starter.value, r).Some? {
      CompositeDecomposes(t, d, c.starter.value, r);
    }
  }

  /** Decomposing and reordering composed text gives back what was composed, even
      where composition pulled a mark over marks of lower classes. */
  lemma {:induction false} RedecomposeComposed(t: Tables, d: map<Rune, seq<Rune>>, s: seq<Rune>)
    requires Expands(t, d) && Decomposed(d, s) && Ordered(t.ccc, s)
    ensures Order(t.ccc, DecomposeAll(d, Compose(t, s))) == s
  {
    if s != [] {
      var n := |s| - 1;
      var c := ComposeAll(t, s[..n]);
      MostOfOrdered(t, d, s);
      RedecomposeComposed(t, d, s[..n]);
      MarksAreMarks(t, s[..n]);
      MarksDecomposed(t, d, s[..n]);
      CompositeOfStarter(t, d, c, s[n]);
      RedecomposeStep(t, d, c, s[n]);
      OrderAppend(t.ccc, DecomposeAll(d, c.Text()), s[n]);
    }
  }

  // -------------------------------------------------------------- the forms

  /** Decompose with table `d`, order, compose. */
  ghost function Normalize(t: Tables, d: map<Rune, seq<Rune>>, s: seq<Rune>): seq<Rune> {
    Compose(t, Order(t.ccc, DecomposeAll(d, s)))
  }

  ghost function NFC(t: Tables, s: seq<Rune>): seq<Rune> { Normalize(t, t.decomp, s) }

  ghost function NFKC(t: Tables, s: seq<Rune>): seq<Rune> { Normalize(t, t.compat, s) }

  /** The three passes as the source runs them, with the ordering done in place. */
  method NormalizeString(t: Tables, d: map<Rune, seq<Rune>>, s: seq<Rune>) returns (out: seq<Rune>)
    ensures out == Normalize(t, d, s)
  {
    if s == [] {
      return [];
    }
    var decomposed := DecomposeString(d, s);
    var runes := new Rune[|decomposed|](i requires 0 <= i < |decomposed| => decomposed[i]);
    assert runes[..] == decomposed;
    SortRuns(t.ccc, runes);
    out := ComposeRunes(t, runes[..]);
  }

  lemma OrderedDecomposition(t: Tables, d: map<Rune, seq<Rune>>, s: seq<Rune>)
    requires Expands(t, d)
    ensures var x := Order(t.ccc, DecomposeAll(d, s)); Decomposed(d, x) && Ordered(t.ccc, x)
  {
    var y := DecomposeAll(d, s);
    DecomposeAllIsDecomposed(t, d, s);
    OrderIsOrdered(t.ccc, y);
    OrderIsPermutation(t.ccc, y);
    forall r | r in Order(t.ccc, y) ensures Decompose(d, r) == [r] {
      assert r in multiset(Order(t.ccc, y));
    }
  }

  /** Normalised text has the same ordered decomposition as the text it came from. */
  lemma NormalizePreservesDecomposition(t: Tables, d: map<Rune, seq<Rune>>, s: seq<Rune>)
    requires Expands(t, d)
    ensures Order(t.ccc, DecomposeAll(d, Normalize(t, d, s))) == Order(t.ccc, DecomposeAll(d, s))
  {
    OrderedDecomposition(t, d, s);
    RedecomposeComposed(t, d, Order(t.ccc, DecomposeAll(d, s)));
  }

  lemma NFCIdempotent(t: Tables, s: seq<Rune>)
    requires Expands(t, t.decomp)
    ensures NFC(t, NFC(t, s)) == NFC(t, s)
  {
    NormalizePreservesDecomposition(t, t.decomp, s);
  }

  lemma NFKCIdempotent(t: Tables, s: seq<Rune>)
    requires Expands(t, t.compat)
    ensures NFKC(t, NFKC(t, s)) == NFKC(t, s)
  {
    NormalizePreservesDecomposition(t, t.compat, s);
  }

  /** Two texts have one normal form exactly when they are equivalent: equal once
      decomposed, up to exchanging marks of different classes. */
  lemma NormalFormDecidesEquivalence(t: Tables, d: map<Rune, seq<Rune>>, a: seq<Rune>, b: seq<Rune>)
    requires Expands(t, d)
    ensures Normalize(t, d, a) == Normalize(t, d, b)
       <==> SameMarks(t.ccc, DecomposeAll(d, a), DecomposeAll(d, b))
  {
    var x, y := DecomposeAll(d, a), DecomposeAll(d, b);
    OrderIsStable(t.ccc, x);
    OrderIsStable(t.ccc, y);
    if Normalize(t, d, a) == Normalize(t, d, b) {
      NormalizePreservesDecomposition(t, d, a);
      NormalizePreservesDecomposition(t, d, b);
      forall k ensures Project(t.ccc, x, k) == Project(t.ccc, y, k) {
        assert Project(t.ccc, Order(t.ccc, x), k) == Project(t.ccc, x, k);
        assert Project(t.ccc, Order(t.ccc, y), k) == Project(t.ccc, y, k);
      }
    }
    if SameMarks(t.ccc, x, y) {
      forall k ensures Project(t.ccc, Order(t.ccc, x), k) == Project(t.ccc, Order(t.ccc, y), k) {
        assert Project(t.ccc, x, k) == Project(t.ccc, y, k);
      }
      OrderIsOrdered(t.ccc, x);
      OrderIsOrdered(t.ccc, y);
      OrderedIsUnique(t.ccc, Order(t.ccc, x), Order(t.ccc, y));
    }
  }
}
