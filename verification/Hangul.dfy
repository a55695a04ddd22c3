/** Arithmetic composition and decomposition of Hangul syllables (internal/unicodenorm). */
module Hangul {
  import opened Prelude

  /** A Unicode code point. */
  type Rune = int

  const S_BASE := 0xAC00
  const L_BASE := 0x1100
  const V_BASE := 0x1161
  const T_BASE := 0x11A7
  const L_COUNT := 19
  const V_COUNT := 21
  const T_COUNT := 28
  const N_COUNT := V_COUNT * T_COUNT
  const S_COUNT := L_COUNT * N_COUNT

  predicate IsL(r: Rune) { L_BASE <= r < L_BASE + L_COUNT }
  predicate IsV(r: Rune) { V_BASE <= r < V_BASE + V_COUNT }
  predicate IsT(r: Rune) { T_BASE < r < T_BASE + T_COUNT }
  predicate IsJamo(r: Rune) { IsL(r) || IsV(r) || IsT(r) }
  predicate IsSyllable(r: Rune) { S_BASE <= r < S_BASE + S_COUNT }
  predicate IsLV(r: Rune) { IsSyllable(r) && (r - S_BASE) % T_COUNT == 0 }

  function HangulDecompose(r: Rune): seq<Rune>
    requires IsSyllable(r)
  {
    var index := r - S_BASE;
    var l := L_BASE + index / N_COUNT;
    var v := V_BASE + (index % N_COUNT) / T_COUNT;
    var t := T_BASE + index % T_COUNT;
    if index % T_COUNT == 0 then [l, v] else [l, v, t]
  }

  function HangulCompose(first: Rune, second: Rune): Option<Rune> {
    if IsL(first) && IsV(second) then
      Some(S_BASE + ((first - L_BASE) * V_COUNT + (second - V_BASE)) * T_COUNT)
    else if IsLV(first) && IsT(second) then
      Some(first + (second - T_BASE))
    else None
  }

  lemma HangulDecomposeIsJamo(r: Rune)
    requires IsSyllable(r)
    ensures forall x :: x in HangulDecompose(r) ==> IsJamo(x) && !IsSyllable(x)
  {
  }

  /** The three indices of a syllable are the digits of its offset in a mixed radix. */
  lemma SyllableIndex(l: int, v: int, t: int)
    requires 0 <= l < L_COUNT && 0 <= v < V_COUNT && 0 <= t < T_COUNT
    ensures var index := (l * V_COUNT + v) * T_COUNT + t;
            && 0 <= index < S_COUNT
            && index / N_COUNT == l && (index % N_COUNT) / T_COUNT == v && index % T_COUNT == t
  {
    var index := (l * V_COUNT + v) * T_COUNT + t;
    assert index == N_COUNT * l + (T_COUNT * v + t);
    assert 0 <= T_COUNT * v + t < N_COUNT;
  }

  lemma SyllableDigits(index: int)
    requires 0 <= index < S_COUNT
    ensures var l, v, t := index / N_COUNT, (index % N_COUNT) / T_COUNT, index % T_COUNT;
            && 0 <= l < L_COUNT && 0 <= v < V_COUNT && 0 <= t < T_COUNT
            && index == (l * V_COUNT + v) * T_COUNT + t
  {
    assert index % T_COUNT == (index % N_COUNT) % T_COUNT;
  }

  /** Composing two parts yields a syllable that decomposes to those parts again. */
  lemma HangulCompositeDecomposes(first: Rune, second: Rune)
    requires HangulCompose(first, second).Some?
    ensures var c := HangulCompose(first, second).value;
            && IsSyllable(c)
            && HangulDecompose(c) == (if IsSyllable(first) then HangulDecompose(first) else [first]) + [second]
  {
    if IsL(first) {
      SyllableIndex(first - L_BASE, second - V_BASE, 0);
    } else {
      var index := first - S_BASE;
      SyllableDigits(index);
      SyllableIndex(index / N_COUNT, (index % N_COUNT) / T_COUNT, second - T_BASE);
    }
  }

  /** Every syllable is rebuilt from its jamo, taken pairwise from the left. */
  lemma HangulRoundTrip(r: Rune)
    requires IsSyllable(r)
    ensures var d := HangulDecompose(r);
            var lv := HangulCompose(d[0], d[1]);
            && lv.Some?
            && if |d| == 2 then lv.value == r else HangulCompose(lv.value, d[2]) == Some(r)
  {
    var index := r - S_BASE;
    SyllableDigits(index);
    SyllableIndex(index / N_COUNT, (index % N_COUNT) / T_COUNT, 0);
  }
}
