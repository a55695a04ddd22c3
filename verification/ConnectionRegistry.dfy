/** The connections of one server (smtpserver/connections.go). */
module ConnectionRegistry {
  import opened Prelude

  type Conn = nat
  type Source = string

  /** The active connections that come from `s`. */
  function From(active: map<Conn, Source>, s: Source): set<Conn> { set c | c in active && active[c] == s }

  function Count(bySource: map<Source, int>, s: Source): int { if s in bySource then bySource[s] else 0 }

  /** The fields of the registry. `leaving` counts connections taken off the list whose
      handler has not yet been signed off the wait group. */
  datatype Registry = Registry(accepting: bool, active: map<Conn, Source>, bySource: map<Source, int>, wait: int,
                               leaving: nat)

  ghost predicate Counts(r: Registry) {
    && (forall s :: Count(r.bySource, s) == |From(r.active, s)|)
    && (forall s :: s in r.bySource ==> r.bySource[s] > 0)
    && r.wait == |r.active| + r.leaving
  }

  ghost predicate Limited(r: Registry, max: int, maxSource: int) {
    && (max > 0 ==> |r.active| <= max)
    && (forall s :: s in r.bySource ==> r.bySource[s] <= maxSource)
  }

  lemma Adjoin<T>(s: set<T>, x: T)
    requires x !in s
    ensures |s + {x}| == |s| + 1
  {
  }

  lemma FromAdded(active: map<Conn, Source>, c: Conn, source: Source, s: Source)
    requires c !in active
    ensures |From(active[c := source], s)| == |From(active, s)| + if s == source then 1 else 0
  {
    var before, after := From(active, s), From(active[c := source], s);
    if s == source {
      assert after == before + {c};
      Adjoin(before, c);
    } else {
      assert after == before;
    }
  }

  lemma SizeAdded(active: map<Conn, Source>, c: Conn, source: Source)
    requires c !in active
    ensures |active[c := source]| == |active| + 1
  {
    assert active[c := source].Keys == active.Keys + {c};
    Adjoin(active.Keys, c);
  }

  lemma FromRemoved(active: map<Conn, Source>, c: Conn, s: Source)
    requires c in active
    ensures |From(active - {c}, s)| == |From(active, s)| - if s == active[c] then 1 else 0
    ensures |active - {c}| == |active| - 1
  {
    var rest := active - {c};
    assert rest[c := active[c]] == active;
    FromAdded(rest, c, active[c], s);
    SizeAdded(rest, c, active[c]);
  }

  lemma AddedKeeps(r: Registry, c: Conn, source: Source, max: int, maxSource: int)
    requires Counts(r) && Limited(r, max, maxSource) && c !in r.active
    requires (max <= 0 || |r.active| < max) && Count(r.bySource, source) < maxSource
    ensures var n := r.(active := r.active[c := source],
                        bySource := r.bySource[source := Count(r.bySource, source) + 1],
                        wait := r.wait + 1);
      Counts(n) && Limited(n, max, maxSource)
  {
    var bySource := r.bySource[source := Count(r.bySource, source) + 1];
    SizeAdded(r.active, c, source);
    assert Count(r.bySource, source) == |From(r.active, source)|;
    forall s ensures Count(bySource, s) == |From(r.active[c := source], s)| {
      assert Count(r.bySource, s) == |From(r.active, s)|;
      FromAdded(r.active, c, source, s);
    }
  }

  /** The counts by source with one connection from `source` gone. */
  function Fewer(bySource: map<Source, int>, source: Source): map<Source, int> {
    var remaining := Count(bySource, source) - 1;
    if remaining == 0 then bySource - {source} else bySource[source := remaining]
  }

  lemma RemovedKeeps(r: Registry, c: Conn, max: int, maxSource: int)
    requires Counts(r) && Limited(r, max, maxSource) && c in r.active
    ensures var n := r.(active := r.active - {c}, bySource := Fewer(r.bySource, r.active[c]), leaving := r.leaving + 1);
      Counts(n) && Limited(n, max, maxSource)
  {
    var source := r.active[c];
    var bySource := Fewer(r.bySource, source);
    assert Count(r.bySource, source) == |From(r.active, source)|;
    forall s ensures Count(bySource, s) == |From(r.active - {c}, s)| {
      assert Count(r.bySource, s) == |From(r.active, s)|;
      FromRemoved(r.active, c, s);
    }
    FromRemoved(r.active, c, source);
  }

  class ConnectionRegistry {
    const max: int
    const maxSource: int
    var r: Registry
    /** Connections whose context shutdown has cancelled. */
    var cancelled: set<Conn>

    ghost predicate Valid()
      reads this
    {
      Counts(r) && Limited(r, max, maxSource)
    }

    constructor (max: int, maxSource: int)
      ensures Valid() && this.max == max && this.maxSource == maxSource
      ensures r == Registry(true, map[], map[], 0, 0) && cancelled == {}
    {
      this.max, this.maxSource, r, cancelled := max, maxSource, Registry(true, map[], map[], 0, 0), {};
      assert forall s :: From(map[], s) == {};
    }

    method Register(c: Conn, source: Source) returns (ok: bool)
      requires Valid()
      modifies `r
      ensures Valid()
      ensures ok <==>
        && old(r.accepting) && (max <= 0 || |old(r.active)| < max)
        && |From(old(r.active), source)| < maxSource && c !in old(r.active)
      ensures !ok ==> r == old(r)
      ensures ok ==> r.active == old(r.active)[c := source] && r.leaving == old(r.leaving) && r.accepting
    {
      assert Count(r.bySource, source) == |From(r.active, source)|;
      if !r.accepting || (max > 0 && |r.active| >= max) || Count(r.bySource, source) >= maxSource {
        return false;
      }
      if c in r.active {
        return false;
      }
      AddedKeeps(r, c, source, max, maxSource);
      r := r.(active := r.active[c := source],
              bySource := r.bySource[source := Count(r.bySource, source) + 1],
              wait := r.wait + 1);
      return true;
    }

    /** The locked half of unregister. */
    method Remove(c: Conn) returns (found: bool)
      requires Valid()
      modifies `r
      ensures Valid()
      ensures found <==> c in old(r.active)
      ensures !found ==> r == old(r)
      ensures found ==>
        r.active == old(r.active) - {c} && r.leaving == old(r.leaving) + 1 && r.accepting == old(r.accepting)
    {
      if c !in r.active {
        return false;
      }
      var was := r;
      RemovedKeeps(was, c, max, maxSource);
      r := was.(active := was.active - {c}, bySource := Fewer(was.bySource, was.active[c]), leaving := was.leaving + 1);
      return true;
    }

    /** The half after the lock is released; other calls may come between. */
    method SignOff()
      requires Valid() && r.leaving > 0
      modifies `r
      ensures Valid() && r == old(r).(wait := old(r.wait) - 1, leaving := old(r.leaving) - 1)
    {
      r := r.(wait := r.wait - 1, leaving := r.leaving - 1);
    }

    method Unregister(c: Conn)
      requires Valid()
      modifies `r
      ensures Valid() && r.active == old(r.active) - {c}
      ensures r.leaving == old(r.leaving) && r.accepting == old(r.accepting)
      ensures c !in old(r.active) ==> r == old(r)
    {
      var found := Remove(c);
      if found {
        SignOff();
      } else {
        assert r.active - {c} == r.active;
      }
    }

    /** Stops registration and cancels every connection active at that moment. */
    method Shutdown()
      requires Valid()
      modifies this
      ensures Valid() && r == old(r).(accepting := false) && cancelled == old(cancelled) + r.active.Keys
    {
      r := r.(accepting := false);
      cancelled := cancelled + r.active.Keys;
    }
  }

  datatype Op = Register(conn: Conn, source: Source) | Remove(conn: Conn) | SignOff | Shutdown

  /** Any sequence of calls. Waiting is over exactly when no connection is left, and once
      shut down, every connection still active has been cancelled. */
  method Replay(max: int, maxSource: int, ops: seq<Op>) returns (g: ConnectionRegistry)
    ensures fresh(g) && g.Valid() && g.max == max && g.maxSource == maxSource
    ensures g.r.wait >= 0 && (g.r.wait == 0 <==> g.r.active == map[] && g.r.leaving == 0)
    ensures g.r.accepting <==> Shutdown !in ops
    ensures !g.r.accepting ==> g.r.active.Keys <= g.cancelled
  {
    g := new ConnectionRegistry(max, maxSource);
    for i := 0 to |ops|
      invariant fresh(g) && g.Valid() && g.max == max && g.maxSource == maxSource
      invariant g.r.accepting <==> Shutdown !in ops[..i]
      invariant !g.r.accepting ==> g.r.active.Keys <= g.cancelled
    {
      match ops[i]
      case Register(c, s) => var ok := g.Register(c, s);
      case Remove(c) => var found := g.Remove(c);
      case SignOff =>
        if g.r.leaving > 0 {
          g.SignOff();
        }
      case Shutdown => g.Shutdown();
    }
    TakeWhole(ops);
    assert |g.r.active| == 0 ==> g.r.active == map[];
  }
}
