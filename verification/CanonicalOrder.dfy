/** Canonical ordering: a stable sort, by combining class, of every run of marks
(internal/unicodenorm/norm.go, step 2 of the package comment). */
module CanonicalOrder {
  import opened Prelude
  import opened Hangul
  import opened UnicodeTables

  /** Moves `r` left over the marks of a higher class that end `s`. */
  function Insert(ccc: map<Rune, nat>, s: seq<Rune>, r: Rune): seq<Rune> {
    if s == [] || Class(ccc, r) == 0 || Class(ccc, s[|s| - 1]) <= Class(ccc, r) then s + [r]
    else Insert(ccc, s[..|s| - 1], r) + [s[|s| - 1]]
  }

  function Order(ccc: map<Rune, nat>, s: seq<Rune>): seq<Rune> {
    if s == [] then [] else Insert(ccc, Order(ccc, s[..|s| - 1]), s[|s| - 1])
  }

  /** A mark never follows a code point of a higher class. */
  ghost predicate Ordered(ccc: map<Rune, nat>, s: seq<Rune>) {
    forall i :: 0 < i < |s| && Class(ccc, s[i]) != 0 ==> Class(ccc, s[i - 1]) <= Class(ccc, s[i])
  }

  /** `r` if it is a starter or a mark of class `k`. */
  function Keep(ccc: map<Rune, nat>, r: Rune, k: nat): seq<Rune> {
    if Class(ccc, r) == 0 || Class(ccc, r) == k then [r] else []
  }

  /** The starters of `s` together with its marks of class `k`, in order. */
  function Project(ccc: map<Rune, nat>, s: seq<Rune>, k: nat): seq<Rune> {
    if s == [] then [] else Project(ccc, s[..|s| - 1], k) + Keep(ccc, s[|s| - 1], k)
  }

  /** Equal up to exchanging marks of different classes that no starter separates. */
  ghost predicate SameMarks(ccc: map<Rune, nat>, a: seq<Rune>, b: seq<Rune>) {
    forall k :: Project(ccc, a, k) == Project(ccc, b, k)
  }

  lemma {:induction false} InsertKeepsOrder(ccc: map<Rune, nat>, s: seq<Rune>, r: Rune)
    requires Ordered(ccc, s)
    ensures Ordered(ccc, Insert(ccc, s, r))
    ensures s != [] && Class(ccc, r) != 0 ==>
              var out := Insert(ccc, s, r);
              Class(ccc, out[|out| - 1]) == Max(Class(ccc, s[|s| - 1]), Class(ccc, r))
  {
    if s == [] || Class(ccc, r) == 0 || Class(ccc, s[|s| - 1]) <= Class(ccc, r) {
    } else {
      var n := |s| - 1;
      InsertKeepsOrder(ccc, s[..n], r);
      assert n > 0 ==> s[..n][n - 1] == s[n - 1];
    }
  }

  lemma {:induction false} OrderIsOrdered(ccc: map<Rune, nat>, s: seq<Rune>)
    ensures Ordered(ccc, Order(ccc, s))
  {
    if s != [] {
      OrderIsOrdered(ccc, s[..|s| - 1]);
      InsertKeepsOrder(ccc, Order(ccc, s[..|s| - 1]), s[|s| - 1]);
    }
  }

  lemma {:induction false} OrderedIsFixed(ccc: map<Rune, nat>, s: seq<Rune>)
    requires Ordered(ccc, s)
    ensures Order(ccc, s) == s
  {
    if s != [] {
      var n := |s| - 1;
      OrderedIsFixed(ccc, s[..n]);
      assert s[..n] + [s[n]] == s;
    }
  }

  lemma {:induction false} ProjectAppend(ccc: map<Rune, nat>, a: seq<Rune>, r: Rune, k: nat)
    ensures Project(ccc, a + [r], k) == Project(ccc, a, k) + Keep(ccc, r, k)
  {
    assert (a + [r])[..|a|] == a;
  }

  lemma SwapWithEmpty<T>(a: seq<T>, b: seq<T>, c: seq<T>)
    requires b == [] || c == []
    ensures (a + b) + c == (a + c) + b
  {
  }

  lemma {:induction false} InsertProjects(ccc: map<Rune, nat>, s: seq<Rune>, r: Rune, k: nat)
    ensures Project(ccc, Insert(ccc, s, r), k) == Project(ccc, s, k) + Keep(ccc, r, k)
  {
    if s == [] || Class(ccc, r) == 0 || Class(ccc, s[|s| - 1]) <= Class(ccc, r) {
      ProjectAppend(ccc, s, r, k);
    } else {
      var n := |s| - 1;
      InsertProjects(ccc, s[..n], r, k);
      ProjectAppend(ccc, Insert(ccc, s[..n], r), s[n], k);
      SwapWithEmpty(Project(ccc, s[..n], k), Keep(ccc, r, k), Keep(ccc, s[n], k));
    }
  }

  /** Canonical ordering exchanges only marks of different classes inside one run:
      starters stay, and the marks of each class keep their order. */
  lemma {:induction false} OrderIsStable(ccc: map<Rune, nat>, s: seq<Rune>)
    ensures SameMarks(ccc, Order(ccc, s), s)
  {
    if s != [] {
      var n := |s| - 1;
      OrderIsStable(ccc, s[..n]);
      forall k ensures Project(ccc, Order(ccc, s), k) == Project(ccc, s, k) {
        InsertProjects(ccc, Order(ccc, s[..n]), s[n], k);
        assert Project(ccc, Order(ccc, s[..n]), k) == Project(ccc, s[..n], k);
      }
    }
  }

  lemma {:induction false} LastOfProjection(ccc: map<Rune, nat>, s: seq<Rune>, k: nat)
    requires Ordered(ccc, s) && k > 0
    requires var p := Project(ccc, s, k); p != [] && Class(ccc, p[|p| - 1]) == k
    ensures s != [] && Class(ccc, s[|s| - 1]) >= k
  {
    var n := |s| - 1;
    if Class(ccc, s[n]) != 0 && Class(ccc, s[n]) != k {
      LastOfProjection(ccc, s[..n], k);
    }
  }

  lemma ProjectLast(ccc: map<Rune, nat>, s: seq<Rune>, k: nat)
    requires s != [] && (Class(ccc, s[|s| - 1]) == 0 || Class(ccc, s[|s| - 1]) == k)
    ensures var p := Project(ccc, s, k); p != [] && p[|p| - 1] == s[|s| - 1]
  {
  }

  lemma SameLast(ccc: map<Rune, nat>, a: seq<Rune>, b: seq<Rune>)
    requires Ordered(ccc, a) && Ordered(ccc, b) && SameMarks(ccc, a, b) && a != []
    ensures b != [] && a[|a| - 1] == b[|b| - 1]
  {
    var k := Class(ccc, a[|a| - 1]);
    ProjectLast(ccc, a, k);
    assert Project(ccc, a, k) == Project(ccc, b, k);
    assert b != [];
    var j := Class(ccc, b[|b| - 1]);
    ProjectLast(ccc, b, j);
    assert Project(ccc, a, j) == Project(ccc, b, j);
    if k == 0 {
      ProjectLast(ccc, a, j);
    } else if j == 0 {
      ProjectLast(ccc, b, k);
    } else {
      LastOfProjection(ccc, b, k);
      LastOfProjection(ccc, a, j);
    }
  }

  lemma CancelRight<T>(a: seq<T>, b: seq<T>, c: seq<T>)
    requires a + c == b + c
    ensures a == b
  {
    assert |a + c| == |b + c|;
    assert (a + c)[..|a|] == a && (b + c)[..|b|] == b;
  }

  /** `Order` is the only ordered rearrangement of its kind, so it is the stable sort of every run. */
  lemma {:induction false} OrderedIsUnique(ccc: map<Rune, nat>, a: seq<Rune>, b: seq<Rune>)
    requires Ordered(ccc, a) && Ordered(ccc, b) && SameMarks(ccc, a, b)
    ensures a == b
    decreases |a|
  {
    if a == [] {
      if b != [] {
        SameLast(ccc, b, a);
      }
    } else {
      SameLast(ccc, a, b);
      var m, n := |a| - 1, |b| - 1;
      forall k ensures Project(ccc, a[..m], k) == Project(ccc, b[..n], k) {
        assert Project(ccc, a, k) == Project(ccc, b, k);
        CancelRight(Project(ccc, a[..m], k), Project(ccc, b[..n], k), Keep(ccc, a[m], k));
      }
      OrderedIsUnique(ccc, a[..m], b[..n]);
      assert a == a[..m] + [a[m]] && b == b[..n] + [b[n]];
    }
  }

  lemma {:induction false} OrderAfterStarter(ccc: map<Rune, nat>, a: seq<Rune>, b: seq<Rune>)
    requires a == [] || Class(ccc, a[|a| - 1]) == 0
    ensures Order(ccc, a + b) == Order(ccc, a) + Order(ccc, b)
  {
    if b == [] {
      AppendEmpty(a);
      AppendEmpty(Order(ccc, a));
    } else {
      var n := |b| - 1;
      OrderAfterStarter(ccc, a, b[..n]);
      MostOfAppend(a, b);
      OrderEndsInStarter(ccc, a);
      InsertAfterStarter(ccc, Order(ccc, a), Order(ccc, b[..n]), b[n]);
    }
  }

  lemma OrderEndsInStarter(ccc: map<Rune, nat>, a: seq<Rune>)
    requires a == [] || Class(ccc, a[|a| - 1]) == 0
    ensures var o := Order(ccc, a); o == [] || Class(ccc, o[|o| - 1]) == 0
  {
  }

  lemma {:induction false} InsertAfterStarter(ccc: map<Rune, nat>, a: seq<Rune>, b: seq<Rune>, r: Rune)
    requires a == [] || Class(ccc, a[|a| - 1]) == 0
    ensures Insert(ccc, a + b, r) == a + Insert(ccc, b, r)
  {
    if b == [] {
      AppendEmpty(a);
      AppendEmpty([r]);
    } else {
      var n := |b| - 1;
      InsertAfterStarter(ccc, a, b[..n], r);
      MostOfAppend(a, b);
      Assoc(a, Insert(ccc, b[..n], r), [b[n]]);
      Assoc(a, b, [r]);
    }
  }

  lemma {:induction false} InsertCommutes(ccc: map<Rune, nat>, s: seq<Rune>, lo: Rune, hi: Rune)
    requires 0 < Class(ccc, lo) < Class(ccc, hi)
    ensures Insert(ccc, Insert(ccc, s, lo), hi) == Insert(ccc, Insert(ccc, s, hi), lo)
  {
    if s == [] {
      assert ([] + [hi])[..0] == [];
    } else {
      var n := |s| - 1;
      assert (s + [hi])[..|s|] == s;
      if Class(ccc, s[n]) > Class(ccc, lo) {
        assert (Insert(ccc, s[..n], lo) + [s[n]])[..|Insert(ccc, s[..n], lo)|] == Insert(ccc, s[..n], lo);
      }
      if Class(ccc, s[n]) > Class(ccc, hi) {
        assert (Insert(ccc, s[..n], hi) + [s[n]])[..|Insert(ccc, s[..n], hi)|] == Insert(ccc, s[..n], hi);
        InsertCommutes(ccc, s[..n], lo, hi);
      }
    }
  }

  lemma {:induction false} OrderAppend(ccc: map<Rune, nat>, s: seq<Rune>, r: Rune)
    ensures Order(ccc, s + [r]) == Insert(ccc, Order(ccc, s), r)
  {
    assert (s + [r])[..|s|] == s;
  }

  /** A mark may be moved over marks of lower classes without changing the ordering. */
  lemma {:induction false} OrderExchange(ccc: map<Rune, nat>, a: seq<Rune>, r: Rune, marks: seq<Rune>)
    requires forall m :: m in marks ==> 0 < Class(ccc, m) < Class(ccc, r)
    ensures Order(ccc, a + [r] + marks) == Order(ccc, a + marks + [r])
  {
    if marks == [] {
      assert a + [r] + marks == a + marks + [r];
    } else {
      var n := |marks| - 1;
      var most, m := marks[..n], marks[n];
      assert m in marks;
      OrderExchange(ccc, a, r, most);
      assert a + [r] + marks == (a + [r] + most) + [m];
      assert a + marks == (a + most) + [m];
      OrderAppend(ccc, a + [r] + most, m);
      OrderAppend(ccc, a + most, r);
      OrderAppend(ccc, a + most, m);
      OrderAppend(ccc, a + marks, r);
      InsertCommutes(ccc, Order(ccc, a + most), m, r);
    }
  }

  lemma {:induction false} OrderIsPermutation(ccc: map<Rune, nat>, s: seq<Rune>)
    ensures multiset(Order(ccc, s)) == multiset(s)
  {
    if s != [] {
      OrderIsPermutation(ccc, s[..|s| - 1]);
      InsertIsPermutation(ccc, Order(ccc, s[..|s| - 1]), s[|s| - 1]);
      assert s == s[..|s| - 1] + [s[|s| - 1]];
    }
  }

  lemma {:induction false} InsertIsPermutation(ccc: map<Rune, nat>, s: seq<Rune>, r: Rune)
    ensures multiset(Insert(ccc, s, r)) == multiset(s) + multiset{r}
  {
    if s == [] || Class(ccc, r) == 0 || Class(ccc, s[|s| - 1]) <= Class(ccc, r) {
      MultisetMore(s, r);
    } else {
      var most, last := s[..|s| - 1], s[|s| - 1];
      InsertIsPermutation(ccc, most, r);
      MostLast(s);
      MultisetMore(most, last);
      MultisetMore(Insert(ccc, most, r), last);
    }
  }

  lemma MultisetMore<T>(s: seq<T>, x: T)
    ensures multiset(s + [x]) == multiset(s) + multiset{x}
  {
  }

  // ------------------------------------------------------- sorting in place

  /** The stable sort of `a[lo..hi]`: each element sinks left over higher classes. */
  method SliceStable(ccc: map<Rune, nat>, a: array<Rune>, lo: nat, hi: nat)
    requires lo <= hi <= a.Length
    requires forall i :: lo <= i < hi ==> Class(ccc, a[i]) != 0
    modifies a
    ensures a[lo..hi] == Order(ccc, old(a[lo..hi]))
    ensures forall x :: 0 <= x < lo || hi <= x < a.Length ==> a[x] == old(a[x])
  {
    ghost var was := a[..];
    var k := lo;
    while k < hi
      invariant lo <= k <= hi && RunSorted(ccc, was, a[..], lo, k)
    {
      ghost var now := a[..];
      SinkLeft(ccc, a, lo, k);
      SunkSorts(ccc, was, now, a[..], lo, k);
      k := k + 1;
    }
    assert a[lo..hi] == a[..][lo..hi] && old(a[lo..hi]) == was[lo..hi];
  }

  /** `now` is `was` with its elements from `lo` to `k` sorted. */
  ghost predicate RunSorted(ccc: map<Rune, nat>, was: seq<Rune>, now: seq<Rune>, lo: nat, k: nat) {
    && lo <= k <= |was| == |now| && now[lo..k] == Order(ccc, was[lo..k])
    && forall x :: 0 <= x < lo || k <= x < |was| ==> now[x] == was[x]
  }

  /** From `now` to `next` the element at `k` has sunk to its place in the run that begins at `lo`. */
  ghost predicate Sunk(ccc: map<Rune, nat>, now: seq<Rune>, next: seq<Rune>, lo: nat, k: nat) {
    && lo <= k < |now| == |next| && next[lo..k + 1] == Insert(ccc, now[lo..k], now[k])
    && forall x :: 0 <= x < lo || k < x < |now| ==> next[x] == now[x]
  }

  lemma SunkSorts(ccc: map<Rune, nat>, was: seq<Rune>, now: seq<Rune>, next: seq<Rune>, lo: nat, k: nat)
    requires RunSorted(ccc, was, now, lo, k) && Sunk(ccc, now, next, lo, k)
    ensures RunSorted(ccc, was, next, lo, k + 1)
  {
    assert was[lo..k + 1] == was[lo..k] + [was[k]];
    OrderAppend(ccc, was[lo..k], was[k]);
  }

  /** `s` with the element at `k` moved left to `j`. */
  ghost function Moved(s: seq<Rune>, j: nat, k: nat): seq<Rune>
    requires j <= k < |s|
  {
    s[..j] + [s[k]] + s[j..k] + s[k + 1..]
  }

  lemma MovedNowhere(s: seq<Rune>, k: nat)
    requires k < |s|
    ensures Moved(s, k, k) == s
  {
  }

  lemma MovedFurther(s: seq<Rune>, j: nat, k: nat)
    requires 0 < j <= k < |s|
    ensures var now := Moved(s, j, k); now[j - 1] == s[j - 1] && now[j] == s[k]
    ensures Moved(s, j - 1, k) == Moved(s, j, k)[j - 1 := s[k]][j := s[j - 1]]
  {
  }

  lemma MovedSinks(ccc: map<Rune, nat>, s: seq<Rune>, lo: nat, j: nat, k: nat)
    requires lo <= j <= k < |s| && Class(ccc, s[k]) != 0
    requires forall x :: j <= x < k ==> Class(ccc, s[x]) > Class(ccc, s[k])
    requires j == lo || Class(ccc, s[j - 1]) <= Class(ccc, s[k])
    ensures Sunk(ccc, s, Moved(s, j, k), lo, k)
  {
    InsertAt(ccc, s[lo..k], s[k], j - lo, Moved(s, j, k)[lo..k + 1]);
  }

  method SinkLeft(ccc: map<Rune, nat>, a: array<Rune>, lo: nat, k: nat)
    requires lo <= k < a.Length
    requires Class(ccc, a[k]) != 0
    modifies a
    ensures Sunk(ccc, old(a[..]), a[..], lo, k)
  {
    ghost var was := a[..];
    var r := a[k];
    var j := k;
    MovedNowhere(was, k);
    while lo < j && Class(ccc, a[j - 1]) > Class(ccc, r)
      invariant lo <= j <= k && a[..] == Moved(was, j, k)
      invariant forall x :: j <= x < k ==> Class(ccc, was[x]) > Class(ccc, r)
    {
      MovedFurther(was, j, k);
      a[j - 1], a[j] := a[j], a[j - 1];
      j := j - 1;
    }
    if lo < j {
      MovedFurther(was, j, k);
    }
    MovedSinks(ccc, was, lo, j, k);
  }

  lemma {:induction false} InsertAt(ccc: map<Rune, nat>, s: seq<Rune>, r: Rune, j: nat, out: seq<Rune>)
    requires j <= |s| && |out| == |s| + 1 && Class(ccc, r) != 0
    requires out[j] == r
    requires forall x :: 0 <= x < j ==> out[x] == s[x]
    requires forall x :: j < x < |out| ==> out[x] == s[x - 1] && Class(ccc, out[x]) > Class(ccc, r)
    requires j == 0 || Class(ccc, s[j - 1]) <= Class(ccc, r)
    ensures Insert(ccc, s, r) == out
  {
    if j < |s| {
      var n := |s| - 1;
      assert out[n + 1] == s[n];
      InsertAt(ccc, s[..n], r, j, out[..n + 1]);
    }
  }

  /** Finds every maximal run of marks and sorts it, leaving the starters alone. */
  method SortRuns(ccc: map<Rune, nat>, runes: array<Rune>)
    modifies runes
    ensures runes[..] == Order(ccc, old(runes[..]))
  {
    var i := 0;
    ghost var s := runes[..];
    while i < runes.Length
      invariant 0 <= i <= runes.Length
      invariant OrderedUpTo(ccc, s, runes[..], i)
    {
      var j := i + 1;
      ghost var before := runes[..];
      if Class(ccc, runes[i]) != 0 {
        j := RunEnd(ccc, runes, i);
        assert runes[i..j] == before[i..j];
        if j - i > 1 {
          SliceStable(ccc, runes, i, j);
          SameOutside(before, runes[..], i, j);
        }
      }
      OrderedExtends(ccc, s, before, runes[..], i, j);
      i := j;
    }
    assert s[..runes.Length] == s;
  }

  /** `now` is `s` with its first `i` elements ordered; a run never starts before `i` and ends after it. */
  ghost predicate OrderedUpTo(ccc: map<Rune, nat>, s: seq<Rune>, now: seq<Rune>, i: nat) {
    && i <= |s| == |now|
    && now[..i] == Order(ccc, s[..i]) && now[i..] == s[i..]
    && (0 < i < |s| && Class(ccc, s[i]) != 0 ==> Class(ccc, s[i - 1]) == 0)
  }

  /** The first starter after position `i`. */
  method RunEnd(ccc: map<Rune, nat>, runes: array<Rune>, i: nat) returns (j: nat)
    requires i < runes.Length && Class(ccc, runes[i]) != 0
    ensures i < j <= runes.Length
    ensures forall x :: i <= x < j ==> Class(ccc, runes[x]) != 0
    ensures j < runes.Length ==> Class(ccc, runes[j]) == 0
  {
    j := i + 1;
    while j < runes.Length && Class(ccc, runes[j]) != 0
      invariant i < j <= runes.Length
      invariant forall x :: i <= x < j ==> Class(ccc, runes[x]) != 0
    {
      j := j + 1;
    }
  }

  lemma SameOutside<T>(a: seq<T>, b: seq<T>, i: nat, j: nat)
    requires i <= j <= |a| == |b|
    requires forall x :: 0 <= x < i || j <= x < |a| ==> a[x] == b[x]
    ensures a[..i] == b[..i] && a[j..] == b[j..]
  {
  }

  lemma SliceOfSuffix<T>(a: seq<T>, b: seq<T>, i: nat, j: nat)
    requires i <= j <= |a| == |b| && a[i..] == b[i..]
    ensures a[i..j] == b[i..j] && a[j..] == b[j..]
  {
    assert a[i..j] == a[i..][..j - i] && b[i..j] == b[i..][..j - i];
    assert a[j..] == a[i..][j - i..] && b[j..] == b[i..][j - i..];
  }

  lemma TakeSlice<T>(a: seq<T>, i: nat, j: nat)
    requires i <= j <= |a|
    ensures a[..j] == a[..i] + a[i..j]
  {
  }

  /** Ordering resumes independently at a starter and after one. */
  lemma OrderedExtends(ccc: map<Rune, nat>, s: seq<Rune>, now: seq<Rune>, next: seq<Rune>, i: nat, j: nat)
    requires OrderedUpTo(ccc, s, now, i) && i < j <= |s| == |next|
    requires next[..i] == now[..i] && next[j..] == now[j..]
    requires next[i..j] == if j - i > 1 then Order(ccc, now[i..j]) else now[i..j]
    requires Class(ccc, s[i]) == 0 ==> j == i + 1
    requires j < |s| && Class(ccc, s[j]) != 0 ==> Class(ccc, s[j - 1]) == 0
    ensures OrderedUpTo(ccc, s, next, j)
  {
    SliceOfSuffix(now, s, i, j);
    OrderNext(ccc, s, i, j);
    assert next[i..j] == Order(ccc, s[i..j]) by {
      if j == i + 1 {
        assert s[i..j] == [s[i]];
      }
    }
    TakeSlice(next, i, j);
  }

  /** Ordering resumes independently after a starter. */
  lemma OrderNext(ccc: map<Rune, nat>, s: seq<Rune>, i: nat, j: nat)
    requires i < j <= |s|
    requires i == 0 || Class(ccc, s[i - 1]) == 0 || Class(ccc, s[i]) == 0
    requires Class(ccc, s[i]) == 0 ==> j == i + 1
    ensures Order(ccc, s[..j]) == Order(ccc, s[..i]) + Order(ccc, s[i..j])
    ensures j == i + 1 ==> Order(ccc, s[i..j]) == [s[i]]
  {
    TakeSlice(s, i, j);
    if j == i + 1 {
      assert s[i..j] == [s[i]];
      OrderAppend(ccc, s[..i], s[i]);
    }
    if Class(ccc, s[i]) != 0 {
      OrderAfterStarter(ccc, s[..i], s[i..j]);
    }
  }
}
